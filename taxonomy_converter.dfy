/** AskNature/taxonomy/taxonomy_converter.py: reading the papers' label lists and
    the function map, converting every paper's labels with a label converter,
    and setting aside the papers flagged for manual labelling. The converter
    (`convert_labels`) is not part of this model and arrives as a function. */
module TaxonomyConverter {
  import opened Base
  import opened Strings

  /** A CSV cell: empty (NaN), plain text, a stringified list of labels (the text
      `str(list)` writes and `eval` reads back), or a boolean flag. */
  datatype CsvCell = Blank | Text(s: string) | Labels(items: seq<string>) | Flag(b: bool)

  type CsvRow = map<string, CsvCell>

  function CellOf(r: CsvRow, c: string): CsvCell {
    if c in r then r[c] else Blank
  }

  const LevelColumns: seq<string> := ["label_level_1", "label_level_2", "label_level_3"]

  const AskColumns: seq<string> := ["ask_label_level_1", "ask_label_level_2", "ask_label_level_3"]

  const ManualLabel := "manual_label"

  /** The function map's columns, in the order `get_function_map` returns them. */
  const FunctionMapColumns: seq<string> := ["Level I", "Level II", "Level III", "Alevel I", "Alevel II", "Alevel III"]

  function LowerAll(labels: seq<string>): (r: seq<string>)
    ensures |r| == |labels| && forall k :: 0 <= k < |labels| ==> r[k] == Lower(labels[k])
  {
    seq(|labels|, k requires 0 <= k < |labels| => Lower(labels[k]))
  }

  // ---------------------------------------------------------------------------
  // labels_to_list and get_labels

  /** One entry of `labels_to_list`: NaN gives the empty list, a stringified list
      its labels lowercased; `eval` fails on other text and on a non-string. */
  function LabelSet(cell: CsvCell): Result<seq<string>> {
    match cell
    case Blank => Ok([])
    case Labels(l) => Ok(LowerAll(l))
    case Text(_) => Err(EvalFailure)
    case Flag(_) => Err(TypeError)
  }

  function LabelSets(cells: seq<CsvCell>): Result<seq<seq<string>>> {
    if |cells| == 0 then Ok([])
    else
      var init :- LabelSets(cells[..|cells| - 1]);
      var last :- LabelSet(cells[|cells| - 1]);
      Ok(init + [last])
  }

  /** `labels_to_list`: one list per entry, in order. */
  method LabelsToList(labelList: seq<CsvCell>) returns (r: Result<seq<seq<string>>>)
    ensures r == LabelSets(labelList)
  {
    var newList: seq<seq<string>> := [];
    var i := 0;
    while i < |labelList|
      invariant 0 <= i <= |labelList|
      invariant LabelSets(labelList[..i]) == Ok(newList)
    {
      assert labelList[..i + 1][..i] == labelList[..i];
      var labelSet := labelList[i];
      if labelSet.Blank? {
        newList := newList + [[]];
      } else {
        var evalList := LabelSet(labelSet);
        if evalList.Err? {
          LabelSetsFailure(labelList, i);
          return Err(evalList.error);
        }
        newList := newList + [evalList.value];
      }
      i := i + 1;
    }
    assert labelList[..i] == labelList;
    r := Ok(newList);
  }

  /** An entry that cannot be read makes the whole list fail with its error. */
  lemma {:induction false} LabelSetsFailure(cells: seq<CsvCell>, i: nat)
    requires i < |cells| && LabelSets(cells[..i]).Ok? && LabelSet(cells[i]).Err?
    ensures LabelSets(cells) == Err(LabelSet(cells[i]).error)
    decreases |cells|
  {
    if i + 1 < |cells| {
      var init := cells[..|cells| - 1];
      assert init[..i] == cells[..i];
      LabelSetsFailure(init, i);
    } else {
      assert cells[..i] == cells[..|cells| - 1];
    }
  }

  /** The list reads when every entry is NaN or a stringified list; it then has
      one entry per cell, NaN giving [], and each label list keeps its length
      and order, lowercased. */
  lemma {:induction false} LabelSetsMeaning(cells: seq<CsvCell>)
    ensures LabelSets(cells).Ok? <==> forall i :: 0 <= i < |cells| ==> cells[i].Blank? || cells[i].Labels?
    ensures LabelSets(cells).Ok? ==>
      var r := LabelSets(cells).value;
      |r| == |cells| &&
      forall i :: 0 <= i < |cells| ==>
        (cells[i].Blank? ==> r[i] == []) &&
        (cells[i].Labels? ==> (|r[i]| == |cells[i].items| &&
          forall k :: 0 <= k < |r[i]| ==> r[i][k] == Lower(cells[i].items[k])))
  {
    if |cells| > 0 {
      var init := cells[..|cells| - 1];
      LabelSetsMeaning(init);
      assert forall i :: 0 <= i < |init| ==> init[i] == cells[i];
    }
  }

  /** A lowercased label holds no uppercase letter, and lowercasing it again
      changes nothing. */
  lemma LowerAllNormal(labels: seq<string>)
    ensures forall k, j :: 0 <= k < |labels| && 0 <= j < |labels[k]| ==> !IsUpperLetter(LowerAll(labels)[k][j])
    ensures LowerAll(LowerAll(labels)) == LowerAll(labels)
  {
    forall k | 0 <= k < |labels|
      ensures Lower(Lower(labels[k])) == Lower(labels[k])
    {
      LowerIdempotent(labels[k]);
    }
  }

  /** `get_labels`: the three level columns, each passed through `labels_to_list`,
      in level order; the first failure is the result. */
  function LevelsOf(columns: seq<string>, rows: seq<CsvRow>): Result<seq<seq<seq<string>>>> {
    var l1 :- ColumnLabels(columns, rows, LevelColumns[0]);
    var l2 :- ColumnLabels(columns, rows, LevelColumns[1]);
    var l3 :- ColumnLabels(columns, rows, LevelColumns[2]);
    Ok([l1, l2, l3])
  }

  function Column(rows: seq<CsvRow>, c: string): (r: seq<CsvCell>)
    ensures |r| == |rows| && forall i :: 0 <= i < |rows| ==> r[i] == CellOf(rows[i], c)
  {
    seq(|rows|, i requires 0 <= i < |rows| => CellOf(rows[i], c))
  }

  /** `df[c].tolist()` passed through `labels_to_list`; KeyError for a missing column. */
  function ColumnLabels(columns: seq<string>, rows: seq<CsvRow>, c: string): Result<seq<seq<string>>> {
    if c !in columns then Err(KeyError) else LabelSets(Column(rows, c))
  }

  lemma LevelsShape(columns: seq<string>, rows: seq<CsvRow>)
    requires LevelsOf(columns, rows).Ok?
    ensures |LevelsOf(columns, rows).value| == 3
    ensures forall k :: 0 <= k < 3 ==> |LevelsOf(columns, rows).value[k]| == |rows|
  {
    LabelSetsMeaning(Column(rows, LevelColumns[0]));
    LabelSetsMeaning(Column(rows, LevelColumns[1]));
    LabelSetsMeaning(Column(rows, LevelColumns[2]));
  }

  // ---------------------------------------------------------------------------
  // get_function_map

  /** The function map file, column by column; a missing cell is None. Like every
      data frame it is rectangular: all its columns have the same length. */
  type FunctionMapFile = f: map<string, seq<Option<string>>> | forall a, b :: a in f && b in f ==> |f[a]| == |f[b]|
    witness map[]

  function Filled(cells: seq<Option<string>>): (r: seq<string>)
    ensures |r| == |cells|
    ensures forall i :: 0 <= i < |cells| ==> r[i] == match cells[i] case None => "" case Some(s) => Lower(s)
  {
    seq(|cells|, i requires 0 <= i < |cells| => match cells[i] case None => "" case Some(s) => Lower(s))
  }

  /** `get_function_map`: with every missing cell made "" and every value
      lowercased, the six columns in the order Level I, II, III, then Alevel I,
      II, III; KeyError when one of them is missing. */
  function GetFunctionMap(file: FunctionMapFile): (r: Result<seq<seq<string>>>)
    ensures r.Ok? <==> forall k :: 0 <= k < 6 ==> FunctionMapColumns[k] in file
    ensures r.Err? ==> r.error == KeyError
    ensures r.Ok? ==> (|r.value| == 6 &&
      (forall k :: 0 <= k < 6 ==> |r.value[k]| == |r.value[0]|) &&
      forall k :: 0 <= k < 6 ==>
        |r.value[k]| == |file[FunctionMapColumns[k]]| &&
        forall i :: 0 <= i < |r.value[k]| ==>
          r.value[k][i] == match file[FunctionMapColumns[k]][i] case None => "" case Some(s) => Lower(s))
  {
    if forall k :: 0 <= k < 6 ==> FunctionMapColumns[k] in file then
      Ok(seq(6, k requires 0 <= k < 6 => Filled(file[FunctionMapColumns[k]])))
    else Err(KeyError)
  }

  /** A filled column holds no uppercase letter, and filling a filled column
      again (every entry now present) gives the same column. */
  lemma FilledNormal(cells: seq<Option<string>>)
    ensures forall i, j :: 0 <= i < |cells| && 0 <= j < |Filled(cells)[i]| ==> !IsUpperLetter(Filled(cells)[i][j])
    ensures Filled(seq(|cells|, i requires 0 <= i < |cells| => Some(Filled(cells)[i]))) == Filled(cells)
  {
    var f := Filled(cells);
    var again := seq(|cells|, i requires 0 <= i < |cells| => Some(f[i]));
    forall i | 0 <= i < |cells|
      ensures Filled(again)[i] == f[i]
    {
      LowerIdempotent(match cells[i] case None => "" case Some(s) => s);
    }
  }

  // ---------------------------------------------------------------------------
  // prepare_csv

  /** What `convert_labels` returns: the PeTaL labels of the three levels, the
      AskNature labels of the three levels, and the manual-label flag. */
  datatype Conversion = Conversion(
    petal1: seq<string>, petal2: seq<string>, petal3: seq<string>,
    ask1: seq<string>, ask2: seq<string>, ask3: seq<string>,
    manual: bool)

  type Converter = (seq<seq<string>>, seq<seq<string>>) -> Conversion

  /** The seven `df.loc` writes of one row. */
  function WithConversion(row: CsvRow, c: Conversion): CsvRow {
    row[LevelColumns[0] := Labels(c.petal1)][LevelColumns[1] := Labels(c.petal2)][LevelColumns[2] := Labels(c.petal3)]
       [AskColumns[0] := Labels(c.ask1)][AskColumns[1] := Labels(c.ask2)][AskColumns[2] := Labels(c.ask3)]
       [ManualLabel := Flag(c.manual)]
  }

  /** The conversion of row i: the three level lists of that row. */
  function ConversionAt(levels: seq<seq<seq<string>>>, functionMap: seq<seq<string>>, convert: Converter, i: nat): Conversion
    requires |levels| == 3 && forall k :: 0 <= k < 3 ==> i < |levels[k]|
  {
    convert(functionMap, [levels[0][i], levels[1][i], levels[2][i]])
  }

  function Prepared(rows: seq<CsvRow>, levels: seq<seq<seq<string>>>, functionMap: seq<seq<string>>, convert: Converter): (r: seq<CsvRow>)
    requires |levels| == 3 && forall k :: 0 <= k < 3 ==> |levels[k]| == |rows|
    ensures |r| == |rows|
  {
    seq(|rows|, i requires 0 <= i < |rows| => WithConversion(rows[i], ConversionAt(levels, functionMap, convert, i)))
  }

  /** The written columns the frame did not have, appended by `df.loc`. */
  function AddedColumns(columns: seq<string>, nrows: nat): seq<string> {
    if nrows == 0 then [] else Missing(columns, LevelColumns + AskColumns + [ManualLabel])
  }

  /** `prepare_csv`: every row's labels converted and written back in place. */
  method PrepareCsv(df: array<CsvRow>, columns: seq<string>, functionMapFile: FunctionMapFile, convert: Converter)
    returns (r: Result<seq<string>>)
    modifies df
    ensures LevelsOf(columns, old(df[..])).Err? ==> r == Err(LevelsOf(columns, old(df[..])).error) && df[..] == old(df[..])
    ensures LevelsOf(columns, old(df[..])).Ok? && GetFunctionMap(functionMapFile).Err? ==>
      r == Err(KeyError) && df[..] == old(df[..])
    ensures LevelsOf(columns, old(df[..])).Ok? && GetFunctionMap(functionMapFile).Ok? ==>
      LevelsShapeHolds(columns, old(df[..])) &&
      r == Ok(columns + AddedColumns(columns, df.Length)) &&
      df[..] == Prepared(old(df[..]), LevelsOf(columns, old(df[..])).value, GetFunctionMap(functionMapFile).value, convert)
  {
    var multiLevelLabels := LevelsOf(columns, df[..]);
    if multiLevelLabels.Err? {
      return Err(multiLevelLabels.error);
    }
    LevelsShape(columns, df[..]);
    var functionMap := GetFunctionMap(functionMapFile);
    if functionMap.Err? {
      return Err(functionMap.error);
    }
    ConvertRows(df, multiLevelLabels.value, functionMap.value, convert);
    r := Ok(columns + AddedColumns(columns, df.Length));
  }

  /** The row loop of `prepare_csv`: each row's conversion written back in place. */
  method ConvertRows(df: array<CsvRow>, levels: seq<seq<seq<string>>>, functionMap: seq<seq<string>>, convert: Converter)
    requires |levels| == 3 && forall k :: 0 <= k < 3 ==> |levels[k]| == df.Length
    modifies df
    ensures df[..] == Prepared(old(df[..]), levels, functionMap, convert)
  {
    var index := 0;
    while index < df.Length
      invariant 0 <= index <= df.Length
      invariant forall i :: 0 <= i < index ==> df[i] == WithConversion(old(df[i]), ConversionAt(levels, functionMap, convert, i))
      invariant forall i :: index <= i < df.Length ==> df[i] == old(df[i])
    {
      var newFunctions := convert(functionMap, [levels[0][index], levels[1][index], levels[2][index]]);
      df[index] := WithConversion(df[index], newFunctions);
      index := index + 1;
    }
  }

  predicate LevelsShapeHolds(columns: seq<string>, rows: seq<CsvRow>) {
    LevelsOf(columns, rows).Ok? && |LevelsOf(columns, rows).value| == 3 &&
    forall k :: 0 <= k < 3 ==> |LevelsOf(columns, rows).value[k]| == |rows|
  }

  /** Row count and order are kept; each row's six label columns hold the
      converter's lists and its manual-label column the converter's flag; every
      other column is unchanged. */
  lemma PreparedRows(rows: seq<CsvRow>, levels: seq<seq<seq<string>>>, functionMap: seq<seq<string>>, convert: Converter, i: nat, c: string)
    requires |levels| == 3 && forall k :: 0 <= k < 3 ==> |levels[k]| == |rows|
    requires i < |rows|
    ensures var p := Prepared(rows, levels, functionMap, convert);
      var conv := convert(functionMap, [levels[0][i], levels[1][i], levels[2][i]]);
      |p| == |rows| &&
      CellOf(p[i], "label_level_1") == Labels(conv.petal1) &&
      CellOf(p[i], "label_level_2") == Labels(conv.petal2) &&
      CellOf(p[i], "label_level_3") == Labels(conv.petal3) &&
      CellOf(p[i], "ask_label_level_1") == Labels(conv.ask1) &&
      CellOf(p[i], "ask_label_level_2") == Labels(conv.ask2) &&
      CellOf(p[i], "ask_label_level_3") == Labels(conv.ask3) &&
      CellOf(p[i], ManualLabel) == Flag(conv.manual) &&
      (c !in LevelColumns && c !in AskColumns && c != ManualLabel ==> CellOf(p[i], c) == CellOf(rows[i], c))
  {
  }

  // ---------------------------------------------------------------------------
  // separate_manual_labels

  function FlaggedAs(rows: seq<CsvRow>, flag: bool): seq<CsvRow> {
    if |rows| == 0 then []
    else FlaggedAs(rows[..|rows| - 1], flag) + (if CellOf(rows[|rows| - 1], ManualLabel) == Flag(flag) then [rows[|rows| - 1]] else [])
  }

  /** `separate_manual_labels`: the rows whose manual-label flag is False, in order;
      KeyError when the frame has no such column. */
  function SeparateManualLabels(columns: seq<string>, rows: seq<CsvRow>): Result<seq<CsvRow>> {
    if ManualLabel !in columns then Err(KeyError) else Ok(FlaggedAs(rows, false))
  }

  /** The rows set aside for manual labelling (written to their own CSV). */
  function ManualRows(columns: seq<string>, rows: seq<CsvRow>): Result<seq<CsvRow>> {
    if ManualLabel !in columns then Err(KeyError) else Ok(FlaggedAs(rows, true))
  }

  lemma {:induction false} FlaggedAsConcat(a: seq<CsvRow>, b: seq<CsvRow>, flag: bool)
    ensures FlaggedAs(a + b, flag) == FlaggedAs(a, flag) + FlaggedAs(b, flag)
    decreases |b|
  {
    if |b| == 0 {
      assert a + b == a;
    } else {
      assert (a + b)[..|a + b| - 1] == a + b[..|b| - 1];
      FlaggedAsConcat(a, b[..|b| - 1], flag);
    }
  }

  /** A row is kept exactly when it is one of the input rows and carries the
      flag; the kept rows are in input order (filtering distributes over
      concatenation), and no more rows are kept than there were. */
  lemma {:induction false} FlaggedAsMeaning(rows: seq<CsvRow>, flag: bool)
    ensures forall x :: x in FlaggedAs(rows, flag) <==> x in rows && CellOf(x, ManualLabel) == Flag(flag)
    ensures |FlaggedAs(rows, flag)| <= |rows|
  {
    if |rows| > 0 {
      var init := rows[..|rows| - 1];
      FlaggedAsMeaning(init, flag);
      assert rows == init + [rows[|rows| - 1]];
    }
  }

  /** The kept rows and the manual rows are disjoint, no manual row is kept, and
      a row flagged neither True nor False is in neither; together they are all
      the rows when every row is flagged. */
  lemma SeparationPartition(columns: seq<string>, rows: seq<CsvRow>)
    requires ManualLabel in columns
    ensures var kept := SeparateManualLabels(columns, rows).value;
      var manual := ManualRows(columns, rows).value;
      (forall x :: x in kept ==> x !in manual) &&
      (forall x :: x in rows && !CellOf(x, ManualLabel).Flag? ==> x !in kept && x !in manual) &&
      |kept| + |manual| <= |rows| &&
      ((forall i :: 0 <= i < |rows| ==> CellOf(rows[i], ManualLabel).Flag?) ==> |kept| + |manual| == |rows|)
  {
    FlaggedAsMeaning(rows, false);
    FlaggedAsMeaning(rows, true);
    FlaggedCount(rows);
  }

  lemma {:induction false} FlaggedCount(rows: seq<CsvRow>)
    ensures |FlaggedAs(rows, false)| + |FlaggedAs(rows, true)| <= |rows|
    ensures (forall i :: 0 <= i < |rows| ==> CellOf(rows[i], ManualLabel).Flag?) ==>
      |FlaggedAs(rows, false)| + |FlaggedAs(rows, true)| == |rows|
  {
    if |rows| > 0 {
      var init := rows[..|rows| - 1];
      FlaggedCount(init);
      assert forall i :: 0 <= i < |init| ==> init[i] == rows[i];
    }
  }
}
