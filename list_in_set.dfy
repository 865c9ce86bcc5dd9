/** great_expectations/plugins/custom_modules/expect_column_list_to_be_in_set.py:
    the expectation that every entry of a column, itself a list of labels, is
    drawn from the twelve PeTaL function labels. Modelled: the label set, the two
    metrics (how many entries, and which, are not subsets of it), the
    configuration checks and the assembly of the rendered sentence. The
    framework's engines, decorators and number formatting are not part of this
    model. */
module ListInSet {
  import opened Base

  /** `_VALUE_SET`: the level-1 function labels an entry may use. */
  const ValueSet: set<string> := {
    "attach",
    "modify_color/camouflage",
    "modify_size/shape/material_properties",
    "modify/convert_energy",
    "assemble/break_down_structure",
    "move_on/through_solids_liquids_gases",
    "protect_from_living/non-living_threats",
    "manage_mechanical_forces",
    "sustain_ecological_community",
    "chemically_assemble/break_down",
    "sense_send_process_information",
    "manipulate_solids_liquids_gases_energy"
  }

  // ---------------------------------------------------------------------------
  // The metrics

  /** `_VALUE_SET.issuperset(el)` */
  predicate InSet(entry: seq<string>) {
    forall k :: 0 <= k < |entry| ==> entry[k] in ValueSet
  }

  /** `unexpected_count`: the number of entries that are not subsets. */
  function UnexpectedCount(column: seq<seq<string>>): nat {
    if |column| == 0 then 0
    else UnexpectedCount(column[..|column| - 1]) + (if InSet(column[|column| - 1]) then 0 else 1)
  }

  /** `unexpected_values`: those entries, in column order. */
  function UnexpectedValues(column: seq<seq<string>>): seq<seq<string>> {
    if |column| == 0 then []
    else UnexpectedValues(column[..|column| - 1]) + (if InSet(column[|column| - 1]) then [] else [column[|column| - 1]])
  }

  /** The values metric lists as many entries as the count metric counts. */
  lemma {:induction false} CountMatchesValues(column: seq<seq<string>>)
    ensures |UnexpectedValues(column)| == UnexpectedCount(column)
  {
    if |column| > 0 {
      CountMatchesValues(column[..|column| - 1]);
    }
  }

  /** An entry is listed exactly when it is in the column and not a subset; the
      count is zero exactly when every entry is a subset. */
  lemma {:induction false} UnexpectedValuesMeaning(column: seq<seq<string>>)
    ensures forall x :: x in UnexpectedValues(column) <==> x in column && !InSet(x)
    ensures UnexpectedCount(column) == 0 <==> forall i :: 0 <= i < |column| ==> InSet(column[i])
    ensures UnexpectedCount(column) <= |column|
  {
    if |column| > 0 {
      var init := column[..|column| - 1];
      UnexpectedValuesMeaning(init);
      assert column == init + [column[|column| - 1]];
    }
  }

  /** Listing distributes over concatenation, so the listed entries keep their
      column order. */
  lemma {:induction false} UnexpectedValuesConcat(a: seq<seq<string>>, b: seq<seq<string>>)
    ensures UnexpectedValues(a + b) == UnexpectedValues(a) + UnexpectedValues(b)
    decreases |b|
  {
    if |b| == 0 {
      assert a + b == a;
    } else {
      assert (a + b)[..|a + b| - 1] == a + b[..|b| - 1];
      UnexpectedValuesConcat(a, b[..|b| - 1]);
    }
  }

  /** An entry drawn only from the set, the empty entry among them, is never
      counted or listed, wherever it sits in the column. */
  lemma NeverCounted(a: seq<seq<string>>, entry: seq<string>, b: seq<seq<string>>)
    requires forall k :: 0 <= k < |entry| ==> entry[k] in ValueSet
    ensures UnexpectedValues(a + [entry] + b) == UnexpectedValues(a + b)
    ensures UnexpectedCount(a + [entry] + b) == UnexpectedCount(a + b)
  {
    var one := [entry];
    assert one[..|one| - 1] == [];
    assert UnexpectedValues(one) == [];
    UnexpectedValuesConcat(a, one);
    UnexpectedValuesConcat(a + one, b);
    UnexpectedValuesConcat(a, b);
    CountMatchesValues(a + one + b);
    CountMatchesValues(a + b);
  }

  /** A label outside the set makes its entry counted, wherever it occurs. */
  lemma OutsideCounted(entry: seq<string>, k: nat)
    requires k < |entry| && entry[k] !in ValueSet
    ensures UnexpectedCount([entry]) == 1 && UnexpectedValues([entry]) == [entry]
  {
    var one := [entry];
    assert one[..|one| - 1] == [];
  }

  // ---------------------------------------------------------------------------
  // validate_configuration

  /** A configuration or runtime value. */
  datatype KwVal = KInt(i: int) | KFloat(x: real) | KBool(b: bool) | KStr(s: string) | KNone

  /** `isinstance(v, (int, float))`; a bool is an int in Python. */
  predicate IsNumber(v: KwVal) {
    v.KInt? || v.KFloat? || v.KBool?
  }

  function Number(v: KwVal): real
    requires IsNumber(v)
  {
    match v
    case KInt(i) => i as real
    case KFloat(x) => x
    case KBool(b) => if b then 1.0 else 0.0
  }

  const ColumnRequired := "'column' parameter is required for column map expectations"

  const MostlyNotNumber := "'mostly' parameter must be an integer or float"

  const MostlyOutOfRange := "'mostly' parameter must be between 0 and 1"

  /** `validate_configuration`: the first failed assertion, raised as an invalid
      configuration with its message. */
  function ValidateConfiguration(kwargs: map<string, KwVal>): Result<bool> {
    if "column" !in kwargs then Err(InvalidConfiguration(ColumnRequired))
    else if "mostly" in kwargs && !IsNumber(kwargs["mostly"]) then Err(InvalidConfiguration(MostlyNotNumber))
    else if "mostly" in kwargs && !(0.0 <= Number(kwargs["mostly"]) <= 1.0) then Err(InvalidConfiguration(MostlyOutOfRange))
    else Ok(true)
  }

  /** A configuration is accepted exactly when it names a column and any
      `mostly` is a number between 0 and 1; an accepted one gives True, a
      rejected one raises with the message of the first failed check. */
  lemma ValidateConfigurationMeaning(kwargs: map<string, KwVal>)
    ensures ValidateConfiguration(kwargs).Ok? <==>
      "column" in kwargs &&
      ("mostly" in kwargs ==> IsNumber(kwargs["mostly"]) && 0.0 <= Number(kwargs["mostly"]) <= 1.0)
    ensures ValidateConfiguration(kwargs).Ok? ==> ValidateConfiguration(kwargs).value
    ensures "column" !in kwargs ==> ValidateConfiguration(kwargs) == Err(InvalidConfiguration(ColumnRequired))
    ensures ValidateConfiguration(kwargs).Err? ==> ValidateConfiguration(kwargs).error.InvalidConfiguration?
  {
  }

  /** A boolean `mostly` always passes: True and False count as 1 and 0. */
  lemma BoolMostlyAccepted(kwargs: map<string, KwVal>, b: bool)
    requires "column" in kwargs && "mostly" in kwargs && kwargs["mostly"] == KBool(b)
    ensures ValidateConfiguration(kwargs) == Ok(true)
  {
  }

  // ---------------------------------------------------------------------------
  // _prescriptive_renderer

  const ColumnTemplate := "$column list values must be in expected set"

  const PlainTemplate := "list values must be in expected set"

  const MostlySuffix := ", at least $mostly_pct % of the time."

  const ConditionJoint := ", then "

  /** The keys `substitute_none_for_missing` fills with None. */
  const ParamKeys: seq<string> := ["column", "mostly", "row_condition", "condition_parser", "value_set"]

  /** Python truthiness of a value. */
  predicate Truthy(v: KwVal) {
    match v
    case KInt(i) => i != 0
    case KFloat(x) => x != 0.0
    case KBool(b) => b
    case KStr(s) => s != ""
    case KNone => false
  }

  /** `include_column_name`: True when absent or None, else its truthiness. */
  predicate IncludeColumnName(runtime: map<string, KwVal>) {
    "include_column_name" !in runtime || runtime["include_column_name"] == KNone ||
    Truthy(runtime["include_column_name"])
  }

  /** `substitute_none_for_missing`: the keyword arguments with every missing
      listed key set to None. */
  function SubstituteNone(kwargs: map<string, KwVal>, keys: seq<string>): (r: map<string, KwVal>)
    ensures forall k :: k in r <==> k in kwargs || k in keys
    ensures forall k :: k in kwargs ==> r[k] == kwargs[k]
    ensures forall k :: k in keys && k !in kwargs ==> r[k] == KNone
  {
    map k | k in kwargs.Keys + (set j | j in keys) :: if k in kwargs then kwargs[k] else KNone
  }

  /** The rendered sentence, from its three choices. */
  function TemplateOf(includeColumnName: bool, mostlySet: bool, condition: Option<string>): string {
    var subject := if includeColumnName then ColumnTemplate else PlainTemplate;
    var sentence := subject + (if mostlySet then MostlySuffix else ".");
    match condition
    case None => sentence
    case Some(c) => c + ConditionJoint + sentence
  }

  /** What the renderer returns: the template, its parameters and the styling,
      which is None when the runtime configuration has none. */
  datatype Rendered = Rendered(template: string, params: map<string, KwVal>, styling: KwVal)

  /** A `mostly` that is set is a number. */
  predicate MostlyNumeric(kwargs: map<string, KwVal>) {
    "mostly" in kwargs && kwargs["mostly"] != KNone ==> IsNumber(kwargs["mostly"])
  }

  /** The row condition's parse, when there is a row condition. */
  function ConditionOf(kwargs: map<string, KwVal>, parseRowCondition: KwVal -> (string, map<string, KwVal>)): Option<(string, map<string, KwVal>)> {
    if "row_condition" in kwargs && kwargs["row_condition"] != KNone then Some(parseRowCondition(kwargs["row_condition"])) else None
  }

  /** The filled-in keyword arguments, with `mostly_pct` added when `mostly` is set. */
  function WithPct(params: map<string, KwVal>, numToStr: real -> string): map<string, KwVal>
    requires "mostly" in params && (params["mostly"] != KNone ==> IsNumber(params["mostly"]))
  {
    if params["mostly"] != KNone then params["mostly_pct" := KStr(numToStr(Number(params["mostly"]) * 100.0))] else params
  }

  /** After filling in, `mostly` and `row_condition` are set exactly when the
      keyword arguments set them. */
  lemma ListedKeysSet(kwargs: map<string, KwVal>)
    ensures var p := SubstituteNone(kwargs, ParamKeys);
      "mostly" in p && "row_condition" in p &&
      (p["mostly"] != KNone <==> "mostly" in kwargs && kwargs["mostly"] != KNone) &&
      (p["row_condition"] != KNone <==> "row_condition" in kwargs && kwargs["row_condition"] != KNone) &&
      (p["mostly"] != KNone ==> p["mostly"] == kwargs["mostly"]) &&
      (p["row_condition"] != KNone ==> p["row_condition"] == kwargs["row_condition"])
  {
    assert ParamKeys[1] == "mostly" && ParamKeys[2] == "row_condition";
  }

  /** The rendered parameters: the filled-in keyword arguments, `mostly_pct`
      when `mostly` is set, then the row condition's parameters over them. */
  function ParamsOf(kwargs: map<string, KwVal>, numToStr: real -> string, parseRowCondition: KwVal -> (string, map<string, KwVal>)): map<string, KwVal>
    requires MostlyNumeric(kwargs)
  {
    var withPct := WithPct(SubstituteNone(kwargs, ParamKeys), numToStr);
    match ConditionOf(kwargs, parseRowCondition)
    case None => withPct
    case Some(cond) => withPct + cond.1
  }

  /** The renderer's result as a function of its inputs. */
  function RenderedOf(kwargs: map<string, KwVal>, runtime: map<string, KwVal>,
                      numToStr: real -> string, parseRowCondition: KwVal -> (string, map<string, KwVal>)): Rendered
    requires MostlyNumeric(kwargs)
  {
    var condition := ConditionOf(kwargs, parseRowCondition);
    Rendered(
      TemplateOf(IncludeColumnName(runtime), "mostly" in kwargs && kwargs["mostly"] != KNone,
                 if condition.Some? then Some(condition.value.0) else None),
      ParamsOf(kwargs, numToStr, parseRowCondition),
      if "styling" in runtime then runtime["styling"] else KNone)
  }

  /** `_prescriptive_renderer`: the template is built step by step and the
      parameters are updated in place. `numToStr` stands for `num_to_str` and
      `parseRowCondition` for the row-condition parser. A `mostly` that is set
      is a number, as `validate_configuration` demands. */
  method PrescriptiveRenderer(kwargs: map<string, KwVal>, runtime: map<string, KwVal>,
                              numToStr: real -> string, parseRowCondition: KwVal -> (string, map<string, KwVal>))
    returns (r: Rendered)
    requires MostlyNumeric(kwargs)
    ensures r == RenderedOf(kwargs, runtime, numToStr, parseRowCondition)
  {
    var includeColumnName := if "include_column_name" in runtime then runtime["include_column_name"] else KBool(true);
    includeColumnName := if includeColumnName != KNone then includeColumnName else KBool(true);
    var styling := if "styling" in runtime then runtime["styling"] else KNone;
    var params := SubstituteNone(kwargs, ParamKeys);
    ghost var filled := params;
    ListedKeysSet(kwargs);
    var templateStr: string;
    if Truthy(includeColumnName) {
      templateStr := ColumnTemplate;
    } else {
      templateStr := PlainTemplate;
    }
    if params["mostly"] != KNone {
      params := params["mostly_pct" := KStr(numToStr(Number(params["mostly"]) * 100.0))];
      templateStr := templateStr + MostlySuffix;
    } else {
      templateStr := templateStr + ".";
    }
    assert params == WithPct(filled, numToStr);
    assert templateStr == TemplateOf(IncludeColumnName(runtime), filled["mostly"] != KNone, None);
    assert params["row_condition"] == filled["row_condition"];
    if params["row_condition"] != KNone {
      var (conditionalTemplateStr, conditionalParams) := parseRowCondition(params["row_condition"]);
      assert ConditionOf(kwargs, parseRowCondition) == Some((conditionalTemplateStr, conditionalParams));
      templateStr := conditionalTemplateStr + ConditionJoint + templateStr;
      params := params + conditionalParams;
    } else {
      assert ConditionOf(kwargs, parseRowCondition) == None;
    }
    r := Rendered(templateStr, params, styling);
  }

  predicate StartsWith(s: string, p: string) { |p| <= |s| && s[..|p|] == p }

  predicate EndsWith(s: string, p: string) { |p| <= |s| && s[|s| - |p|..] == p }

  lemma ConcatEnds(a: string, b: string)
    ensures StartsWith(a + b, a) && EndsWith(a + b, b)
  {
    assert (a + b)[..|a|] == a;
    assert (a + b)[|a + b| - |b|..] == b;
  }

  lemma PrefixThrough(a: string, b: string, c: string)
    ensures StartsWith(a + (b + c), a + b)
  {
    assert a + (b + c) == (a + b) + c;
    ConcatEnds(a + b, c);
  }

  /** Two endings of one string agree in their next-to-last character. */
  lemma EndingsAgree(t: string, x: string, y: string)
    requires EndsWith(t, x) && EndsWith(t, y) && |x| >= 2 && |y| >= 2
    ensures x[|x| - 2] == y[|y| - 2]
  {
    assert x[|x| - 2] == t[|t| - 2];
    assert y[|y| - 2] == t[|t| - 2];
  }

  /** The sentence starts with the condition and ", then " when there is a row
      condition, and otherwise with the subject ("$column list values ..." when
      the column name is included, "list values ..." when not); it ends with the
      `mostly` clause when `mostly` is set, and with the subject and a bare "."
      when not (which then is not the `mostly` clause: see NoMostlyEnding). */
  lemma TemplateShape(includeColumnName: bool, mostlySet: bool, condition: Option<string>)
    ensures var t := TemplateOf(includeColumnName, mostlySet, condition);
      var subject := if includeColumnName then ColumnTemplate else PlainTemplate;
      (condition.None? ==> StartsWith(t, subject)) &&
      (condition.Some? ==> StartsWith(t, condition.value + ConditionJoint + subject)) &&
      (mostlySet ==> EndsWith(t, MostlySuffix)) &&
      (!mostlySet ==> EndsWith(t, subject + "."))
  {
    var t := TemplateOf(includeColumnName, mostlySet, condition);
    var subject := if includeColumnName then ColumnTemplate else PlainTemplate;
    var suffix := if mostlySet then MostlySuffix else ".";
    var sentence := subject + suffix;
    ConcatEnds(subject, suffix);
    match condition
    case None => {
      assert t == sentence;
      assert t[|t| - |sentence|..] == sentence;
    }
    case Some(c) => {
      var head := c + ConditionJoint;
      assert t == head + sentence;
      PrefixThrough(head, subject, suffix);
      ConcatEnds(head, sentence);
      assert EndsWith(t, suffix) by {
        assert t[|t| - |suffix|..] == sentence[|sentence| - |suffix|..];
      }
    }
  }

  /** A sentence ending in a subject and "." does not end in the `mostly` clause:
      the subject ends in "t", the clause in "e.". */
  lemma NoMostlyEnding(t: string, subject: string)
    requires subject == ColumnTemplate || subject == PlainTemplate
    requires EndsWith(t, subject + ".")
    ensures !EndsWith(t, MostlySuffix)
  {
    var sentence := subject + ".";
    SubjectEnd(subject);
    assert sentence[|sentence| - 2] == 't';
    if EndsWith(t, MostlySuffix) {
      EndingsAgree(t, MostlySuffix, sentence);
      assert false;
    }
  }

  /** Both subjects end in "set", so a sentence without `mostly` ends in "t." and
      never in the `mostly` clause's "e.". */
  lemma SubjectEnd(subject: string)
    requires subject == ColumnTemplate || subject == PlainTemplate
    ensures |subject| > 0 && subject[|subject| - 1] == 't'
    ensures MostlySuffix[|MostlySuffix| - 2] == 'e'
  {
  }

  /** The rendered parameters hold all five listed keys; without a row condition
      they keep every keyword argument (other than a `mostly_pct` of its own) and
      hold `mostly_pct` when `mostly` is set. */
  lemma RenderedParams(kwargs: map<string, KwVal>, runtime: map<string, KwVal>,
                       numToStr: real -> string, parseRowCondition: KwVal -> (string, map<string, KwVal>))
    requires MostlyNumeric(kwargs)
    ensures var p := RenderedOf(kwargs, runtime, numToStr, parseRowCondition).params;
      (forall k :: k in ParamKeys ==> k in p) &&
      ("mostly" in kwargs && kwargs["mostly"] != KNone && ("row_condition" !in kwargs || kwargs["row_condition"] == KNone) ==>
        "mostly_pct" in p && p["mostly_pct"] == KStr(numToStr(Number(kwargs["mostly"]) * 100.0))) &&
      (("row_condition" !in kwargs || kwargs["row_condition"] == KNone) ==>
        forall k :: k in kwargs && k != "mostly_pct" ==> p[k] == kwargs[k])
  {
  }
}
