/** LabeledData/convert_with_api.py: the record assembly that joins labelled
    rows with the scholarly-works API's responses. The HTTP requests of
    `get_api_data` are not modelled; the lists it builds from the responses
    are, and arrive at the record builder as `apiRes` and `apiDois`. The
    stringified lists the converter passes to `eval` arrive already parsed. */
module ConvertWithApi {
  import opened Base
  import opened Strings
  import opened DoiPattern
  import JsonFraming

  // ---------------------------------------------------------------------------
  // clean_labels

  /** One label with each whitespace character replaced by '_' and lowercased. */
  function CleanLabel(name: string): string {
    Lower(ReplaceSpaces(name))
  }

  function ReplaceSpaces(s: string): (r: string)
    ensures |r| == |s|
    ensures forall k :: 0 <= k < |s| ==> r[k] == (if IsSpace(s[k]) then '_' else s[k])
  {
    seq(|s|, k requires 0 <= k < |s| => if IsSpace(s[k]) then '_' else s[k])
  }

  /** `clean_labels`: every label of the list cleaned, in order. The test against
      "" at the end of the source never fails, so the list is always returned. */
  function CleanLabels(labels: seq<string>): (r: seq<string>)
    ensures |r| == |labels|
    ensures forall i :: 0 <= i < |labels| ==> |r[i]| == |labels[i]|
    ensures forall i, k :: 0 <= i < |labels| && 0 <= k < |labels[i]| ==>
      r[i][k] == (if IsSpace(labels[i][k]) then '_' else LowerChar(labels[i][k]))
  {
    seq(|labels|, i requires 0 <= i < |labels| => CleanLabel(labels[i]))
  }

  /** A cleaned label is lowercase and holds no whitespace; cleaning twice is
      cleaning once. */
  lemma CleanLabelsNormalised(labels: seq<string>)
    ensures forall i, k :: 0 <= i < |labels| && 0 <= k < |labels[i]| ==>
      !IsSpace(CleanLabels(labels)[i][k]) && !IsUpperLetter(CleanLabels(labels)[i][k])
    ensures CleanLabels(CleanLabels(labels)) == CleanLabels(labels)
  {
    var once := CleanLabels(labels);
    var twice := CleanLabels(once);
    forall i | 0 <= i < |labels|
      ensures twice[i] == once[i]
    {
      forall k | 0 <= k < |labels[i]|
        ensures twice[i][k] == once[i][k]
      {
        var c := labels[i][k];
        if !IsSpace(c) {
          assert !IsSpace(LowerChar(c));
          assert LowerChar(LowerChar(c)) == LowerChar(c);
        }
      }
    }
  }

  // ---------------------------------------------------------------------------
  // build_abstract

  /** An `abstract_inverted_index`: each word with the positions it occupies, in
      the dictionary's key order. */
  type InvertedIndex = seq<(string, seq<int>)>

  predicate AllNonEmpty(inv: InvertedIndex) {
    forall k :: 0 <= k < |inv| ==> |inv[k].1| > 0
  }

  function SeqMax(ix: seq<int>): (m: int)
    requires |ix| > 0
    ensures forall k :: 0 <= k < |ix| ==> ix[k] <= m
    ensures exists k :: 0 <= k < |ix| && ix[k] == m
  {
    if |ix| == 1 then ix[0]
    else
      var m := SeqMax(ix[..|ix| - 1]);
      assert forall k :: 0 <= k < |ix| - 1 ==> ix[..|ix| - 1][k] == ix[k];
      if ix[|ix| - 1] > m then ix[|ix| - 1] else m
  }

  /** The first loop: the largest position, starting from 0. It bounds every
      position and is 0 or one of them. */
  function MaxPosition(inv: InvertedIndex): (m: nat)
    requires AllNonEmpty(inv)
    ensures forall k, j :: 0 <= k < |inv| && 0 <= j < |inv[k].1| ==> inv[k].1[j] <= m
    ensures m == 0 || exists k, j :: 0 <= k < |inv| && 0 <= j < |inv[k].1| && inv[k].1[j] == m
  {
    if |inv| == 0 then 0
    else
      var init := inv[..|inv| - 1];
      assert forall k :: 0 <= k < |init| ==> init[k] == inv[k];
      var m := MaxPosition(init);
      var last := SeqMax(inv[|inv| - 1].1);
      if last > m then last else m
  }

  /** One more word extends the first loop's maximum the way the loop does. */
  lemma MaxPositionStep(inv: InvertedIndex, i: nat)
    requires i < |inv| && AllNonEmpty(inv[..i]) && |inv[i].1| > 0
    ensures AllNonEmpty(inv[..i + 1])
    ensures var m := MaxPosition(inv[..i]);
      MaxPosition(inv[..i + 1]) == if SeqMax(inv[i].1) > m then SeqMax(inv[i].1) else m
  {
    var next := inv[..i + 1];
    assert next[..|next| - 1] == inv[..i];
    assert next[|next| - 1] == inv[i];
    assert forall k :: 0 <= k < i ==> next[k] == inv[..i][k];
  }

  /** A Python list index is valid for a list of length n. */
  predicate InRange(x: int, n: nat) { -(n as int) <= x < n }

  /** The slot a valid Python index names: negative indexes count from the end. */
  function Slot(x: int, n: nat): (p: nat)
    requires InRange(x, n)
    ensures p < n
  {
    if x >= 0 then x else x + n
  }

  predicate AllInRange(inv: InvertedIndex, n: nat) {
    forall k, j :: 0 <= k < |inv| && 0 <= j < |inv[k].1| ==> InRange(inv[k].1[j], n)
  }

  /** The inner loop: write `word` at each position of `ix`, in order. */
  function Place(list: seq<string>, word: string, ix: seq<int>): (r: seq<string>)
    requires forall k :: 0 <= k < |ix| ==> InRange(ix[k], |list|)
    ensures |r| == |list|
  {
    if |ix| == 0 then list
    else Place(list, word, ix[..|ix| - 1])[Slot(ix[|ix| - 1], |list|) := word]
  }

  /** The outer loop: every word placed, the dictionary's keys in order. */
  function FillAll(list: seq<string>, inv: InvertedIndex): (r: seq<string>)
    requires AllInRange(inv, |list|)
    ensures |r| == |list|
  {
    if |inv| == 0 then list
    else
      assert AllInRange(inv[..|inv| - 1], |list|) by {
        assert forall k :: 0 <= k < |inv| - 1 ==> inv[..|inv| - 1][k] == inv[k];
      }
      Place(FillAll(list, inv[..|inv| - 1]), inv[|inv| - 1].0, inv[|inv| - 1].1)
  }

  function Dashes(n: nat): (r: seq<string>)
    ensures |r| == n && forall p :: 0 <= p < n ==> r[p] == "-"
  {
    seq(n, p => "-")
  }

  /** `build_abstract` on what the source does: ValueError when a word has no
      positions (`max` of an empty list), IndexError when a negative position
      reaches past the front of the list, otherwise the space-joined list. The
      regular-expression collapse at line 64 is computed and thrown away, so it
      is not part of the result. */
  function AbstractOf(inv: InvertedIndex): Result<string> {
    if !AllNonEmpty(inv) then Err(ValueError)
    else
      var n := MaxPosition(inv) + 1;
      if !AllInRange(inv, n) then Err(IndexError)
      else Ok(Join(FillAll(Dashes(n), inv), " "))
  }

  /** The word a position ends up holding: that of the last key listing it. */
  predicate Covers(ix: seq<int>, n: nat, p: nat) {
    exists k :: 0 <= k < |ix| && InRange(ix[k], n) && Slot(ix[k], n) == p
  }

  function Covering(inv: InvertedIndex, n: nat, p: nat): Option<string> {
    if |inv| == 0 then None
    else if Covers(inv[|inv| - 1].1, n, p) then Some(inv[|inv| - 1].0)
    else Covering(inv[..|inv| - 1], n, p)
  }

  lemma {:induction false} PlaceAt(list: seq<string>, word: string, ix: seq<int>, p: nat)
    requires forall k :: 0 <= k < |ix| ==> InRange(ix[k], |list|)
    requires p < |list|
    ensures Place(list, word, ix)[p] == if Covers(ix, |list|, p) then word else list[p]
  {
    if |ix| > 0 {
      var init := ix[..|ix| - 1];
      PlaceAt(list, word, init, p);
      if Covers(init, |list|, p) {
        var k :| 0 <= k < |init| && InRange(init[k], |list|) && Slot(init[k], |list|) == p;
        assert ix[k] == init[k];
      }
      if Covers(ix, |list|, p) && Slot(ix[|ix| - 1], |list|) != p {
        var k :| 0 <= k < |ix| && InRange(ix[k], |list|) && Slot(ix[k], |list|) == p;
        assert init[k] == ix[k];
      }
    }
  }

  lemma {:induction false} FillAllAt(list: seq<string>, inv: InvertedIndex, p: nat)
    requires AllInRange(inv, |list|) && p < |list|
    ensures FillAll(list, inv)[p] == match Covering(inv, |list|, p) case Some(w) => w case None => list[p]
  {
    if |inv| > 0 {
      var init := inv[..|inv| - 1];
      assert AllInRange(init, |list|) by {
        assert forall k :: 0 <= k < |init| ==> init[k] == inv[k];
      }
      FillAllAt(list, init, p);
      PlaceAt(FillAll(list, init), inv[|inv| - 1].0, inv[|inv| - 1].1, p);
    }
  }

  /** The abstract is the largest position plus one tokens joined by spaces; each
      position listed in the index holds the word of the last key listing it, and
      every other position holds "-". */
  lemma AbstractTokens(inv: InvertedIndex)
    requires AbstractOf(inv).Ok?
    ensures AllNonEmpty(inv)
    ensures var n := MaxPosition(inv) + 1;
      AllInRange(inv, n) && AbstractOf(inv) == Ok(Join(FillAll(Dashes(n), inv), " ")) &&
      forall p :: 0 <= p < n ==>
        FillAll(Dashes(n), inv)[p] == match Covering(inv, n, p) case Some(w) => w case None => "-"
  {
    var n := MaxPosition(inv) + 1;
    forall p | 0 <= p < n
      ensures FillAll(Dashes(n), inv)[p] == match Covering(inv, n, p) case Some(w) => w case None => "-"
    {
      FillAllAt(Dashes(n), inv, p);
    }
  }

  /** `{"the": [0, 2], "fox": [1]}` gives "the fox the". */
  lemma AbstractExample()
    ensures AbstractOf([("the", [0, 2]), ("fox", [1])]) == Ok("the fox the")
  {
    AbstractExampleMax();
    AbstractExampleFill();
    AbstractExampleJoin();
  }

  /** The example's largest position is 2, so its list has three slots. */
  lemma AbstractExampleMax()
    ensures AllNonEmpty([("the", [0, 2]), ("fox", [1])])
    ensures MaxPosition([("the", [0, 2]), ("fox", [1])]) == 2
    ensures AllInRange([("the", [0, 2]), ("fox", [1])], 3)
  {
    var inv: InvertedIndex := [("the", [0, 2]), ("fox", [1])];
    assert SeqMax([0, 2]) == 2 by {
      assert [0, 2][..1] == [0];
    }
    assert SeqMax([1]) == 1;
    assert inv[..1][..0] == [];
    assert MaxPosition(inv[..1]) == 2;
  }

  lemma AbstractExampleJoin()
    ensures Join(["the", "fox", "the"], " ") == "the fox the"
  {
    assert ["the", "fox", "the"][1..] == ["fox", "the"];
    assert ["fox", "the"][1..] == ["the"];
  }

  /** The example's words placed over three dashes. */
  lemma AbstractExampleFill()
    ensures FillAll(Dashes(3), [("the", [0, 2]), ("fox", [1])]) == ["the", "fox", "the"]
  {
    var inv: InvertedIndex := [("the", [0, 2]), ("fox", [1])];
    var dashes := Dashes(3);
    assert dashes == ["-", "-", "-"];
    assert [0, 2][..1] == [0] && [0][..0] == [] && [1][..0] == [];
    assert inv[..1][..0] == [];
    var once := Place(dashes, "the", [0, 2]);
    assert Place(dashes, "the", [0]) == ["the", "-", "-"];
    assert once == ["the", "-", "the"];
    assert FillAll(dashes, inv[..1]) == once;
    assert Place(once, "fox", [1]) == ["the", "fox", "the"];
  }

  /** The first loop of `build_abstract`: the largest position over all words,
      starting from 0; `max` of a word without positions raises ValueError. */
  method LargestPosition(inv: InvertedIndex) returns (r: Result<nat>)
    ensures AllNonEmpty(inv) ==> r == Ok(MaxPosition(inv))
    ensures !AllNonEmpty(inv) ==> r == Err(ValueError)
  {
    var maxInd := 0;
    var i := 0;
    while i < |inv|
      invariant 0 <= i <= |inv|
      invariant AllNonEmpty(inv[..i]) && maxInd == MaxPosition(inv[..i])
    {
      var indices := inv[i].1;
      if |indices| == 0 {
        return Err(ValueError);
      }
      MaxPositionStep(inv, i);
      if SeqMax(indices) > maxInd {
        maxInd := SeqMax(indices);
      }
      i := i + 1;
    }
    assert inv[..i] == inv;
    r := Ok(maxInd);
  }

  /** The inner loop: `word` written at each of its positions, or false when a
      negative position reaches past the front of the list (IndexError). */
  method PlaceWord(a: array<string>, word: string, indices: seq<int>) returns (ok: bool)
    requires forall j :: 0 <= j < |indices| ==> indices[j] < a.Length
    modifies a
    ensures ok <==> forall j :: 0 <= j < |indices| ==> InRange(indices[j], a.Length)
    ensures ok ==> a[..] == Place(old(a[..]), word, indices)
  {
    var k := 0;
    while k < |indices|
      invariant 0 <= k <= |indices|
      invariant forall j :: 0 <= j < k ==> InRange(indices[j], a.Length)
      invariant a[..] == Place(old(a[..]), word, indices[..k])
    {
      var index := indices[k];
      if index < -a.Length {
        return false;
      }
      a[Slot(index, a.Length)] := word;
      assert indices[..k + 1][..k] == indices[..k];
      k := k + 1;
    }
    assert indices[..k] == indices;
    ok := true;
  }

  lemma AllInRangeSnoc(n: nat, inv: InvertedIndex, i: nat)
    requires i < |inv| && AllInRange(inv[..i], n)
    requires forall j :: 0 <= j < |inv[i].1| ==> InRange(inv[i].1[j], n)
    ensures AllInRange(inv[..i + 1], n)
  {
    var longer := inv[..i + 1];
    forall k, j | 0 <= k < |longer| && 0 <= j < |longer[k].1|
      ensures InRange(longer[k].1[j], n)
    {
      if k < i {
        assert longer[k] == inv[..i][k];
      }
    }
  }

  lemma FillAllSnoc(list: seq<string>, inv: InvertedIndex, i: nat)
    requires i < |inv| && AllInRange(inv[..i + 1], |list|) && AllInRange(inv[..i], |list|)
    ensures forall j :: 0 <= j < |inv[i].1| ==> InRange(inv[i].1[j], |list|)
    ensures FillAll(list, inv[..i + 1]) == Place(FillAll(list, inv[..i]), inv[i].0, inv[i].1)
  {
    var longer := inv[..i + 1];
    assert longer[i] == inv[i];
    assert longer[..i] == inv[..i];
  }

  /** `build_abstract`: the two loops of the source, filling a list of "-" in place. */
  method BuildAbstract(inv: InvertedIndex) returns (r: Result<string>)
    ensures r == AbstractOf(inv)
  {
    var largest := LargestPosition(inv);
    if largest.Err? {
      return Err(largest.error);
    }
    var n := largest.value + 1;
    var abstractList := new string[n](p => "-");
    assert abstractList[..] == Dashes(n);
    var i := 0;
    while i < |inv|
      invariant 0 <= i <= |inv|
      invariant AllInRange(inv[..i], n)
      invariant abstractList[..] == FillAll(Dashes(n), inv[..i])
    {
      var ok := PlaceWord(abstractList, inv[i].0, inv[i].1);
      if !ok {
        return Err(IndexError);
      }
      AllInRangeSnoc(n, inv, i);
      FillAllSnoc(Dashes(n), inv, i);
      i := i + 1;
    }
    assert inv[..i] == inv;
    r := Ok(Join(abstractList[..], " "));
  }

  // ---------------------------------------------------------------------------
  // extract_dois and extract_oa_id

  /** `extract_dois`: the leftmost match of the DOI pattern, uppercased, or "". */
  function ExtractDois(doi: string): string {
    match FirstMatch(doi)
    case None => ""
    case Some(m) => Upper(m)
  }

  /** The result is "" exactly when nothing matches; otherwise it is the
      uppercased leftmost match, shaped like a DOI name. */
  lemma ExtractDoisMeaning(doi: string)
    ensures ExtractDois(doi) == "" <==> Search(doi).None?
    ensures Search(doi).Some? ==>
      var (p, e) := Search(doi).value;
      p + 9 <= e <= |doi| && ExtractDois(doi) == Upper(doi[p..e]) &&
      DoiShaped(ExtractDois(doi)) &&
      forall q :: 0 <= q < p ==> MatchEnd(doi, q).None?
  {
    if Search(doi).Some? {
      var (p, e) := Search(doi).value;
      MatchIsDoiShaped(doi, p);
      UpperDoiShaped(doi[p..e]);
    }
  }

  /** Extracting from an extracted DOI gives it back unchanged, which keeps the
      re-extraction of API and CSV identifiers stable. */
  lemma ExtractDoisIdempotent(doi: string)
    ensures ExtractDois(ExtractDois(doi)) == ExtractDois(doi)
  {
    match Search(doi)
    case None =>
      assert ExtractDois(doi) == "";
      assert Search("") == None;
    case Some((p, e)) =>
      UpperMatchSearch(doi, p);
      UpperIdempotent(doi[p..e]);
      var u := Upper(doi[p..e]);
      assert u[0..|u|] == u;
  }

  const ExampleDoi := "10.1234/abcd.5678"
  const ExampleUrl := "https://doi.org/" + ExampleDoi

  lemma ExampleMatch()
    ensures MatchEnd(ExampleUrl, 16) == Some(33)
  {
    var s := ExampleUrl;
    assert s[16..19] == "10.";
    assert !WordAt(s, 15);
    assert SkipDigitsDots(s, 19) == 23 by {
      assert !IsDigitOrDot(s[23]);
      assert forall k :: 19 <= k < 23 ==> IsDigitOrDot(s[k]);
    }
    assert s[19..23] == "1234";
    assert LeadingDigits("1234") == 4;
    assert Registrant(s[19..23]);
    assert SkipSuffixChars(s, 24) == 33 by {
      assert forall k :: 24 <= k < 33 ==> IsSuffixChar(s[k]);
    }
    assert IsWordChar(s[32]);
  }

  /** "https://doi.org/10.1234/abcd.5678" gives "10.1234/ABCD.5678". */
  lemma ExtractDoisExample(url: string)
    requires url == ExampleUrl
    ensures ExtractDois(url) == "10.1234/ABCD.5678"
  {
    ExampleSearch(url);
    ExampleUpper();
    ExtractDoisMeaning(url);
    assert url[16..33] == ExampleDoi;
  }

  lemma ExampleUpper()
    ensures Upper(ExampleDoi) == "10.1234/ABCD.5678"
  {
    var m := ExampleDoi;
    var u := Upper(m);
    assert UpperChar('a') == 'A' && UpperChar('b') == 'B' && UpperChar('c') == 'C' && UpperChar('d') == 'D';
    assert forall k :: 0 <= k < 17 ==> u[k] == "10.1234/ABCD.5678"[k];
  }

  lemma ExampleSearch(url: string)
    requires url == ExampleUrl
    ensures Search(url) == Some((16, 33))
  {
    assert forall k :: 0 <= k < 16 ==> url[k] != '1';
    SkipNoOne(url, 0, 16);
    ExampleMatch();
  }

  /** A text with no digit 1 holds no DOI, and gives "". */
  lemma ExtractDoisNone(doi: string)
    requires '1' !in doi
    ensures ExtractDois(doi) == ""
  {
    SkipNoOne(doi, 0, |doi|);
  }

  const OaPrefix := "https://openalex.org/"

  /** The look-behind `https://openalex.org/` matches the text starting at `i`:
      every character as written, except that its unescaped '.' (index 16) stands
      for any character but a line break. */
  predicate OaPrefixAt(s: string, i: nat) {
    i + |OaPrefix| <= |s| && s[i + 16] != '\n' &&
    forall k :: 0 <= k < |OaPrefix| && k != 16 ==> s[i + k] == OaPrefix[k]
  }

  /** The first position at or after `from` where the look-behind matches. */
  function OaPrefixFrom(s: string, from: nat): (r: Option<nat>)
    requires from <= |s|
    ensures r.Some? ==> from <= r.value && OaPrefixAt(s, r.value)
    ensures r.Some? ==> forall j :: from <= j < r.value ==> !OaPrefixAt(s, j)
    ensures r.None? ==> forall j :: from <= j ==> !OaPrefixAt(s, j)
    decreases |s| - from
  {
    if OaPrefixAt(s, from) then Some(from)
    else if from == |s| then None
    else OaPrefixFrom(s, from + 1)
  }

  /** `extract_oa_id`: "" for what is not a string (None here); otherwise the text
      after the leftmost match of the look-behind up to the end of its line; with
      no match `re.search` gives None and `.group()` raises. */
  function ExtractOaId(urlId: Option<string>): (r: Result<string>)
    ensures r.Err? ==> r.error == AttributeError
  {
    match urlId
    case None => Ok("")
    case Some(s) =>
      match OaPrefixFrom(s, 0)
      case None => Err(AttributeError)
      case Some(i) => Ok(UpToNewline(s[i + |OaPrefix|..]))
  }

  /** What is not a string gives ""; an OpenAlex URL gives back the identifier
      after the prefix; a string raises exactly when the look-behind matches
      nowhere in it, and otherwise gives the line after its leftmost match. */
  lemma ExtractOaIdMeaning(id: string, s: string)
    requires '\n' !in id
    ensures ExtractOaId(None) == Ok("")
    ensures ExtractOaId(Some(OaPrefix + id)) == Ok(id)
    ensures ExtractOaId(Some(s)).Err? <==> forall i: nat :: !OaPrefixAt(s, i)
    ensures ExtractOaId(Some(s)).Ok? ==>
      exists i: nat :: OaPrefixAt(s, i) && (forall j: nat :: j < i ==> !OaPrefixAt(s, j)) &&
        ExtractOaId(Some(s)).value == UpToNewline(s[i + |OaPrefix|..])
  {
    var u := OaPrefix + id;
    assert OaPrefixAt(u, 0) by {
      forall k | 0 <= k < |OaPrefix|
        ensures u[k] == OaPrefix[k]
      {
      }
    }
    assert u[|OaPrefix|..] == id;
    UpToNewlineWhole(id);
  }

  /** The unescaped '.' lets a look-alike host through: "https://openalex-org/W1"
      gives "W1". */
  lemma OaWildcardExample()
    ensures ExtractOaId(Some("https://openalex-org/W1")) == Ok("W1")
  {
    var s := "https://openalex-org/W1";
    assert OaPrefixAt(s, 0);
    assert s[|OaPrefix|..] == "W1";
    UpToNewlineWhole("W1");
  }

  /** `extract_oa_id` over a list, failing on the first entry that raises. */
  function OaIds(ids: seq<Option<string>>): Result<seq<string>> {
    if |ids| == 0 then Ok([])
    else
      match OaIds(ids[..|ids| - 1])
      case Err(e) => Err(e)
      case Ok(init) =>
        match ExtractOaId(ids[|ids| - 1])
        case Err(e) => Err(e)
        case Ok(id) => Ok(init + [id])
  }

  /** One more entry of a list whose ids so far were all extracted appends its id. */
  lemma OaIdsSnoc(ids: seq<Option<string>>, i: nat)
    requires i < |ids| && OaIds(ids[..i]).Ok? && ExtractOaId(ids[i]).Ok?
    ensures OaIds(ids[..i + 1]) == Ok(OaIds(ids[..i]).value + [ExtractOaId(ids[i]).value])
  {
    assert ids[..i + 1][..i] == ids[..i];
  }

  /** An entry whose id cannot be extracted fails the whole list with its error. */
  lemma OaIdsFails(ids: seq<Option<string>>, i: nat)
    requires i < |ids| && ExtractOaId(ids[i]).Err?
    ensures OaIds(ids) == Err(ExtractOaId(ids[i]).error)
  {
    OaIdsMeaning(ids);
  }

  /** The list fails exactly when one of its entries does, always with
      AttributeError; otherwise it holds each entry's id in order. */
  lemma {:induction false} OaIdsMeaning(ids: seq<Option<string>>)
    ensures OaIds(ids).Err? <==> exists k :: 0 <= k < |ids| && ExtractOaId(ids[k]).Err?
    ensures OaIds(ids).Err? ==> OaIds(ids).error == AttributeError
    ensures OaIds(ids).Ok? ==>
      |OaIds(ids).value| == |ids| &&
      forall k :: 0 <= k < |ids| ==> ExtractOaId(ids[k]) == Ok(OaIds(ids).value[k])
  {
    if |ids| > 0 {
      var init := ids[..|ids| - 1];
      OaIdsMeaning(init);
      assert forall k :: 0 <= k < |init| ==> init[k] == ids[k];
      if OaIds(init).Err? {
        var k :| 0 <= k < |init| && ExtractOaId(init[k]).Err?;
        assert ExtractOaId(ids[k]).Err?;
      }
    }
  }

  // ---------------------------------------------------------------------------
  // convert_to_json

  /** One row of the labelled CSV after `fillna("")`. Optional fields are the
      columns read with `row.get`; `meshTerms` and `authorNames` are their
      cells' text, which the converter copies without `eval`; `venueNames` is
      Some exactly when the cell holds a list literal (its first character is
      '['); `petalId` is None when the cell is not a number. */
  datatype LocalRow = LocalRow(
    doi: string,
    paper: Option<string>,
    meshTerms: Option<string>,
    authorNames: Option<string>,
    abstractText: string,
    title: string,
    petalId: Option<int>,
    venueNames: Option<seq<string>>,
    level1: seq<string>,
    level2: seq<string>,
    level3: seq<string>,
    isBiomimicry: Option<string>,
    url: string,
    species: seq<string>,
    absoluteRelevancy: seq<string>,
    relativeRelevancy: seq<string>,
    magTerms: seq<string>)

  /** A venue of the API response; an id of None is JSON null. */
  datatype Venue = Venue(id: Option<string>, displayName: string)

  datatype Authorship = Authorship(authorId: Option<string>, displayName: string)

  /** The fields of one API response that the converter reads; `hostVenue` is
      None when the field is missing or empty. */
  datatype ApiPaper = ApiPaper(
    id: Option<string>,
    doi: string,
    mesh: seq<string>,
    hostVenue: Option<Venue>,
    alternateHostVenues: seq<Venue>,
    authorships: seq<Authorship>,
    referencedWorks: seq<Option<string>>,
    title: string,
    abstractInvertedIndex: InvertedIndex,
    isOa: bool,
    oaUrl: string)

  /** A record field that holds a list, as the API fields and the defaults
      give it, or the text of a CSV cell copied as it is. */
  datatype TextList = Listed(items: seq<string>) | CellText(text: string)

  /** One emitted record. `isOpenAccess` and `fullDocLink` are only set from API data. */
  datatype GoldenJson = GoldenJson(
    paper: string,
    meshTerms: TextList,
    venueIds: seq<string>,
    venueNames: seq<string>,
    authorIds: seq<string>,
    authorNames: TextList,
    referenceIds: seq<string>,
    title: string,
    abstractText: string,
    isOpenAccess: Option<bool>,
    fullDocLink: Option<string>,
    petalId: Option<int>,
    doi: string,
    level1: seq<string>,
    level2: seq<string>,
    level3: seq<string>,
    isBiomimicry: string,
    url: string,
    species: seq<string>,
    absoluteRelevancy: seq<string>,
    relativeRelevancy: seq<string>,
    magTerms: seq<string>)

  /** The response list and the DOI list line up: the i-th DOI is the one
      extracted from the i-th response. The lookup by position relies on it. */
  predicate Aligned(apiRes: seq<ApiPaper>, apiDois: seq<string>) {
    |apiRes| == |apiDois| && forall i :: 0 <= i < |apiRes| ==> ExtractDois(apiRes[i].doi) == apiDois[i]
  }

  /** The result of `get_api_data` as written, from the HTTP 200 responses in
      row order: every response is kept, but a DOI only when one is found. */
  function ApiDataAsWritten(responses: seq<ApiPaper>): (seq<ApiPaper>, seq<string>) {
    if |responses| == 0 then ([], [])
    else
      var prev := ApiDataAsWritten(responses[..|responses| - 1]);
      var last := responses[|responses| - 1];
      var found := ExtractDois(last.doi);
      (prev.0 + [last], if |found| > 0 then prev.1 + [found] else prev.1)
  }

  /** A response without a DOI, followed by one with a DOI, misaligns the two
      lists: the second paper's DOI is found at position 0, where the first
      paper's response sits. */
  lemma MisalignedLookup(p0: ApiPaper, p1: ApiPaper)
    requires ExtractDois(p0.doi) == "" && ExtractDois(p1.doi) != ""
    ensures var data := ApiDataAsWritten([p0, p1]);
      data.0 == [p0, p1] && data.1 == [ExtractDois(p1.doi)] &&
      FirstIndex(data.1, ExtractDois(p1.doi)) == Some(0) && data.0[0] == p0 &&
      !Aligned(data.0, data.1)
  {
    var one := [p0];
    var empty: seq<ApiPaper> := [];
    assert one[..|one| - 1] == empty;
    assert ApiDataAsWritten(empty) == ([], []);
    assert one[|one| - 1] == p0;
    assert |ExtractDois(one[|one| - 1].doi)| == 0;
    assert ApiDataAsWritten(one) == (ApiDataAsWritten(empty).0 + [p0], ApiDataAsWritten(empty).1);
    var two := [p0, p1];
    assert two[..|two| - 1] == one;
    var d := ExtractDois(p1.doi);
    var data := ApiDataAsWritten(two);
    assert two[|two| - 1] == p1;
    assert |ExtractDois(two[|two| - 1].doi)| > 0;
    assert data == (ApiDataAsWritten(one).0 + [p1], ApiDataAsWritten(one).1 + [d]);
    assert |data.0| != |data.1|;
    assert FirstIndex([d], d) == Some(0);
  }

  /** `get_api_data` as evidently intended: a response is kept together with
      its DOI, and only when a DOI is found. */
  function ApiData(responses: seq<ApiPaper>): (r: (seq<ApiPaper>, seq<string>))
    ensures |r.0| == |r.1| <= |responses|
  {
    if |responses| == 0 then ([], [])
    else
      var prev := ApiData(responses[..|responses| - 1]);
      var last := responses[|responses| - 1];
      var found := ExtractDois(last.doi);
      if |found| > 0 then (prev.0 + [last], prev.1 + [found]) else prev
  }

  /** The corrected lists line up, and keep exactly the responses with a DOI. */
  lemma {:induction false} ApiDataAligned(responses: seq<ApiPaper>)
    ensures Aligned(ApiData(responses).0, ApiData(responses).1)
    ensures forall p :: p in ApiData(responses).0 <==> p in responses && ExtractDois(p.doi) != ""
  {
    if |responses| > 0 {
      var init := responses[..|responses| - 1];
      var last := responses[|responses| - 1];
      ApiDataAligned(init);
      assert responses == init + [last];
      var prev := ApiData(init);
      if |ExtractDois(last.doi)| > 0 {
        assert ApiData(responses) == (prev.0 + [last], prev.1 + [ExtractDois(last.doi)]);
      } else {
        assert ApiData(responses) == prev;
      }
    }
  }

  /** Alternate venues contribute their ids and names only when non-empty. */
  function AltVenueIds(alts: seq<Venue>): seq<string> {
    if |alts| == 0 then []
    else
      var last := alts[|alts| - 1];
      AltVenueIds(alts[..|alts| - 1]) + (if last.id.Some? && last.id.value != "" then [last.id.value] else [])
  }

  function AltVenueNames(alts: seq<Venue>): seq<string> {
    if |alts| == 0 then []
    else
      var last := alts[|alts| - 1];
      AltVenueNames(alts[..|alts| - 1]) + (if last.displayName != "" then [last.displayName] else [])
  }

  /** The venue ids and names: those of the alternate venues, then the host
      venue's, whose id goes through `extract_oa_id`; none without a host venue. */
  function VenuesOf(p: ApiPaper): Result<(seq<string>, seq<string>)> {
    match p.hostVenue
    case None => Ok(([], []))
    case Some(host) =>
      var hostId :- ExtractOaId(host.id);
      Ok((AltVenueIds(p.alternateHostVenues) + [hostId],
          AltVenueNames(p.alternateHostVenues) + [host.displayName]))
  }

  function AuthorIdValues(auths: seq<Authorship>): (r: seq<Option<string>>)
    ensures |r| == |auths| && forall k :: 0 <= k < |auths| ==> r[k] == auths[k].authorId
  {
    seq(|auths|, k requires 0 <= k < |auths| => auths[k].authorId)
  }

  function AuthorNames(auths: seq<Authorship>): (r: seq<string>)
    ensures |r| == |auths| && forall k :: 0 <= k < |auths| ==> r[k] == auths[k].displayName
  {
    seq(|auths|, k requires 0 <= k < |auths| => auths[k].displayName)
  }

  /** Old venue names not in the API-derived list, in their order. Membership is
      looked up in the API list only, so a repeated old name stays repeated. */
  function NewVenueNames(prior: seq<string>, current: seq<string>): (r: seq<string>)
    ensures forall v :: v in r <==> v in prior && v !in current
  {
    if |prior| == 0 then []
    else
      var init := NewVenueNames(prior[..|prior| - 1], current);
      var last := prior[|prior| - 1];
      assert prior == prior[..|prior| - 1] + [last];
      init + (if last !in current then [last] else [])
  }

  /** The fields taken from the API response at `api_index`. */
  datatype ApiFields = ApiFields(
    paper: string, meshTerms: seq<string>, venueIds: seq<string>, venueNames: seq<string>,
    authorIds: seq<string>, authorNames: seq<string>, referenceIds: seq<string>,
    title: string, abstractText: string, isOpenAccess: bool, fullDocLink: string)

  function ApiFieldsOf(p: ApiPaper): Result<ApiFields> {
    var paper :- ExtractOaId(p.id);
    var venues :- VenuesOf(p);
    var authorIds :- OaIds(AuthorIdValues(p.authorships));
    var referenceIds :- OaIds(p.referencedWorks);
    var abstractText :- if |p.abstractInvertedIndex| == 0 then Ok("") else AbstractOf(p.abstractInvertedIndex);
    Ok(ApiFields(paper, p.mesh, venues.0, venues.1, authorIds, AuthorNames(p.authorships),
                 referenceIds, p.title, abstractText, p.isOa, p.oaUrl))
  }

  /** What the API fields are: one author id and one author name per authorship,
      one reference id per referenced work, the host venue's id last among the
      venue ids, the abstract rebuilt from a non-empty index; and the conditions
      under which building them raises. */
  lemma ApiFieldsMeaning(p: ApiPaper)
    ensures ApiFieldsOf(p).Err? <==>
      ExtractOaId(p.id).Err? ||
      (p.hostVenue.Some? && ExtractOaId(p.hostVenue.value.id).Err?) ||
      (exists k :: 0 <= k < |p.authorships| && ExtractOaId(p.authorships[k].authorId).Err?) ||
      (exists k :: 0 <= k < |p.referencedWorks| && ExtractOaId(p.referencedWorks[k]).Err?) ||
      (|p.abstractInvertedIndex| > 0 && AbstractOf(p.abstractInvertedIndex).Err?)
    ensures ApiFieldsOf(p).Ok? ==>
      var f := ApiFieldsOf(p).value;
      Ok(f.paper) == ExtractOaId(p.id) &&
      |f.authorIds| == |p.authorships| && |f.authorNames| == |p.authorships| &&
      (forall k :: 0 <= k < |p.authorships| ==>
        Ok(f.authorIds[k]) == ExtractOaId(p.authorships[k].authorId) &&
        f.authorNames[k] == p.authorships[k].displayName) &&
      |f.referenceIds| == |p.referencedWorks| &&
      (p.hostVenue.Some? ==>
        |f.venueIds| > 0 && Ok(f.venueIds[|f.venueIds| - 1]) == ExtractOaId(p.hostVenue.value.id) &&
        |f.venueNames| > 0 && f.venueNames[|f.venueNames| - 1] == p.hostVenue.value.displayName) &&
      (p.hostVenue.None? ==> f.venueIds == [] && f.venueNames == []) &&
      (|p.abstractInvertedIndex| > 0 ==> Ok(f.abstractText) == AbstractOf(p.abstractInvertedIndex)) &&
      (|p.abstractInvertedIndex| == 0 ==> f.abstractText == "") &&
      f.title == p.title && f.isOpenAccess == p.isOa && f.fullDocLink == p.oaUrl
  {
    OaIdsMeaning(AuthorIdValues(p.authorships));
    OaIdsMeaning(p.referencedWorks);
    AuthorIdsFail(p.authorships);
  }

  /** The author id list fails exactly when one authorship's id does. */
  lemma AuthorIdsFail(auths: seq<Authorship>)
    ensures OaIds(AuthorIdValues(auths)).Err? <==>
      exists k :: 0 <= k < |auths| && ExtractOaId(auths[k].authorId).Err?
  {
    var raw := AuthorIdValues(auths);
    OaIdsMeaning(raw);
    if exists k :: 0 <= k < |auths| && ExtractOaId(auths[k].authorId).Err? {
      var k :| 0 <= k < |auths| && ExtractOaId(auths[k].authorId).Err?;
      assert ExtractOaId(raw[k]).Err?;
    }
  }

  function GetOr<T>(o: Option<T>, default: T): T {
    match o
    case Some(v) => v
    case None => default
  }

  /** The fields both branches set: DOI uppercased, labels cleaned, defaults for
      the optional columns. */
  function SharedOf(row: LocalRow): GoldenJson {
    GoldenJson("", Listed([]), [], [], [], Listed([]), [], "", "", None, None,
      row.petalId, Upper(row.doi),
      CleanLabels(row.level1), CleanLabels(row.level2), CleanLabels(row.level3),
      GetOr(row.isBiomimicry, "undetermined"), row.url,
      row.species, row.absoluteRelevancy, row.relativeRelevancy, row.magTerms)
  }

  function WithApi(rec: GoldenJson, f: ApiFields): GoldenJson {
    rec.(paper := f.paper, meshTerms := Listed(f.meshTerms), venueIds := f.venueIds,
         venueNames := f.venueNames, authorIds := f.authorIds, authorNames := Listed(f.authorNames),
         referenceIds := f.referenceIds, title := f.title, abstractText := f.abstractText,
         isOpenAccess := Some(f.isOpenAccess), fullDocLink := Some(f.fullDocLink))
  }

  /** `row.get(key, [])` of a cell that is copied as text. */
  function CellOr(cell: Option<string>): TextList {
    match cell
    case None => Listed([])
    case Some(t) => CellText(t)
  }

  function WithLocal(rec: GoldenJson, row: LocalRow): GoldenJson {
    rec.(paper := GetOr(row.paper, ""), meshTerms := CellOr(row.meshTerms),
         authorNames := CellOr(row.authorNames), abstractText := row.abstractText, title := row.title)
  }

  /** The record before the row's old venue names are merged in. */
  function OwnRecord(row: LocalRow, apiRes: seq<ApiPaper>, apiDois: seq<string>): Result<GoldenJson>
    requires Aligned(apiRes, apiDois)
  {
    match FirstIndex(apiDois, Upper(row.doi))
    case Some(k) =>
      (match ApiFieldsOf(apiRes[k])
       case Ok(f) => Ok(WithApi(SharedOf(row), f))
       case Err(e) => Err(e))
    case None => Ok(WithLocal(SharedOf(row), row))
  }

  function MergeVenues(rec: GoldenJson, prior: Option<seq<string>>): GoldenJson {
    match prior
    case None => rec
    case Some(names) => rec.(venueNames := rec.venueNames + NewVenueNames(names, rec.venueNames))
  }

  /** The record for one row, or the exception that makes the loop skip it. */
  function RecordOf(row: LocalRow, apiRes: seq<ApiPaper>, apiDois: seq<string>): Result<GoldenJson>
    requires Aligned(apiRes, apiDois)
  {
    match OwnRecord(row, apiRes, apiDois)
    case Ok(rec) => Ok(MergeVenues(rec, row.venueNames))
    case Err(e) => Err(e)
  }

  lemma {:induction false} NewVenueNamesAll(prior: seq<string>)
    ensures NewVenueNames(prior, []) == prior
  {
    if |prior| > 0 {
      NewVenueNamesAll(prior[..|prior| - 1]);
    }
  }

  /** A row whose DOI has no API response keeps its own title, abstract, paper,
      terms and author names, and has no venue, author or reference ids; its
      venue names are its old ones. The terms and author names are the cells'
      text, not lists, and the empty list only when the column is absent. */
  lemma NoMatchRecord(row: LocalRow, apiRes: seq<ApiPaper>, apiDois: seq<string>)
    requires Aligned(apiRes, apiDois) && Upper(row.doi) !in apiDois
    ensures RecordOf(row, apiRes, apiDois).Ok?
    ensures var r := RecordOf(row, apiRes, apiDois).value;
      r.venueIds == [] && r.authorIds == [] && r.referenceIds == [] &&
      r.title == row.title && r.abstractText == row.abstractText &&
      r.paper == GetOr(row.paper, "") &&
      (row.meshTerms.Some? ==> r.meshTerms == CellText(row.meshTerms.value)) &&
      (row.meshTerms.None? ==> r.meshTerms == Listed([])) &&
      (row.authorNames.Some? ==> r.authorNames == CellText(row.authorNames.value)) &&
      (row.authorNames.None? ==> r.authorNames == Listed([])) &&
      r.venueNames == GetOr(row.venueNames, []) &&
      r.isOpenAccess.None? && r.fullDocLink.None?
  {
    match row.venueNames
    case None =>
    case Some(prior) =>
      NewVenueNamesAll(prior);
  }

  /** A row whose uppercased DOI is in the DOI list takes the API fields of the
      response the DOI list points to, whose own DOI extracts to the row's; it
      converts exactly when those fields can be built. */
  lemma MatchRecord(row: LocalRow, apiRes: seq<ApiPaper>, apiDois: seq<string>)
    requires Aligned(apiRes, apiDois) && Upper(row.doi) in apiDois
    ensures var k := FirstIndex(apiDois, Upper(row.doi)).value;
      var p := apiRes[k];
      ExtractDois(p.doi) == Upper(row.doi) &&
      (RecordOf(row, apiRes, apiDois).Ok? <==> ApiFieldsOf(p).Ok?) &&
      (ApiFieldsOf(p).Ok? ==>
        var r := RecordOf(row, apiRes, apiDois).value;
        var f := ApiFieldsOf(p).value;
        r.paper == f.paper && r.meshTerms == Listed(f.meshTerms) &&
        r.authorIds == f.authorIds && r.authorNames == Listed(f.authorNames) &&
        r.venueIds == f.venueIds && r.venueNames[..|f.venueNames|] == f.venueNames &&
        r.referenceIds == f.referenceIds && r.title == f.title && r.abstractText == f.abstractText &&
        r.isOpenAccess == Some(f.isOpenAccess) && r.fullDocLink == Some(f.fullDocLink))
  {
    var k := FirstIndex(apiDois, Upper(row.doi)).value;
    match ApiFieldsOf(apiRes[k])
    case Err(e) =>
      assert OwnRecord(row, apiRes, apiDois) == Err(e);
    case Ok(f) =>
      var own := WithApi(SharedOf(row), f);
      assert OwnRecord(row, apiRes, apiDois) == Ok(own);
      var r := MergeVenues(own, row.venueNames);
      assert RecordOf(row, apiRes, apiDois) == Ok(r);
      match row.venueNames
      case None =>
      case Some(prior) =>
        assert r.venueNames == f.venueNames + NewVenueNames(prior, f.venueNames);
  }

  /** Every record carries the row's uppercased DOI, cleaned labels and petal id;
      the record's venue names start with the ones it had before the merge, and
      then hold each old venue name that was not among them, so no old name is
      lost. */
  lemma RecordCommon(row: LocalRow, apiRes: seq<ApiPaper>, apiDois: seq<string>)
    requires Aligned(apiRes, apiDois) && RecordOf(row, apiRes, apiDois).Ok?
    ensures OwnRecord(row, apiRes, apiDois).Ok?
    ensures var r := RecordOf(row, apiRes, apiDois).value;
      var own := OwnRecord(row, apiRes, apiDois).value;
      r.doi == Upper(row.doi) && r.petalId == row.petalId &&
      r.level1 == CleanLabels(row.level1) && r.level2 == CleanLabels(row.level2) &&
      r.level3 == CleanLabels(row.level3) &&
      |own.venueNames| <= |r.venueNames| && r.venueNames[..|own.venueNames|] == own.venueNames &&
      (forall v :: v in r.venueNames[|own.venueNames|..] ==> v !in own.venueNames) &&
      (row.venueNames.Some? ==> forall v :: v in row.venueNames.value ==> v in r.venueNames)
  {
    var r := RecordOf(row, apiRes, apiDois).value;
    var own := OwnRecord(row, apiRes, apiDois).value;
    match row.venueNames
    case None =>
    case Some(prior) =>
      var extra := NewVenueNames(prior, own.venueNames);
      assert r.venueNames == own.venueNames + extra;
      assert r.venueNames[|own.venueNames|..] == extra;
      forall v | v in prior
        ensures v in r.venueNames
      {
        if v !in own.venueNames {
          assert v in extra;
        }
      }
  }

  /** The venue loop: alternate venues first, the host venue's id and name last. */
  method CollectVenues(p: ApiPaper) returns (r: Result<(seq<string>, seq<string>)>)
    ensures r == VenuesOf(p)
  {
    if p.hostVenue.None? {
      return Ok(([], []));
    }
    var hostId := ExtractOaId(p.hostVenue.value.id);
    if hostId.Err? {
      return Err(hostId.error);
    }
    var tempIds: seq<string> := [];
    var tempNames: seq<string> := [];
    var alts := p.alternateHostVenues;
    var i := 0;
    while i < |alts|
      invariant 0 <= i <= |alts|
      invariant tempIds == AltVenueIds(alts[..i]) && tempNames == AltVenueNames(alts[..i])
    {
      assert alts[..i + 1][..i] == alts[..i];
      if alts[i].id.Some? && alts[i].id.value != "" {
        tempIds := tempIds + [alts[i].id.value];
      }
      if alts[i].displayName != "" {
        tempNames := tempNames + [alts[i].displayName];
      }
      i := i + 1;
    }
    assert alts[..i] == alts;
    r := Ok((tempIds + [hostId.value], tempNames + [p.hostVenue.value.displayName]));
  }

  /** The author loop: one id and one name per authorship. */
  method CollectAuthors(auths: seq<Authorship>) returns (ids: Result<seq<string>>, names: seq<string>)
    ensures ids == OaIds(AuthorIdValues(auths))
    ensures ids.Ok? ==> names == AuthorNames(auths)
  {
    var raw := AuthorIdValues(auths);
    var tempIds: seq<string> := [];
    var tempNames: seq<string> := [];
    var i := 0;
    while i < |auths|
      invariant 0 <= i <= |auths|
      invariant OaIds(raw[..i]) == Ok(tempIds)
      invariant |tempNames| == i && forall k :: 0 <= k < i ==> tempNames[k] == auths[k].displayName
    {
      var authorId := ExtractOaId(auths[i].authorId);
      if authorId.Err? {
        OaIdsFails(raw, i);
        return Err(authorId.error), [];
      }
      OaIdsSnoc(raw, i);
      tempIds := tempIds + [authorId.value];
      tempNames := tempNames + [auths[i].displayName];
      i := i + 1;
    }
    assert raw[..i] == raw;
    assert tempNames == AuthorNames(auths);
    ids, names := Ok(tempIds), tempNames;
  }

  /** The API branch of the loop body, in the source's order of evaluation. */
  method CollectApiFields(p: ApiPaper) returns (r: Result<ApiFields>)
    ensures r == ApiFieldsOf(p)
  {
    var paper := ExtractOaId(p.id);
    if paper.Err? {
      return Err(paper.error);
    }
    var venues := CollectVenues(p);
    if venues.Err? {
      return Err(venues.error);
    }
    var authorIds, authorNames := CollectAuthors(p.authorships);
    if authorIds.Err? {
      return Err(authorIds.error);
    }
    var referenceIds := OaIds(p.referencedWorks);
    if referenceIds.Err? {
      return Err(referenceIds.error);
    }
    var abstractText := "";
    if |p.abstractInvertedIndex| > 0 {
      var built := BuildAbstract(p.abstractInvertedIndex);
      if built.Err? {
        return Err(built.error);
      }
      abstractText := built.value;
    }
    r := Ok(ApiFields(paper.value, p.mesh, venues.value.0, venues.value.1, authorIds.value, authorNames,
                      referenceIds.value, p.title, abstractText, p.isOa, p.oaUrl));
  }

  /** The loop over the row's old venue names. */
  method CollectOldVenueNames(prior: seq<string>, current: seq<string>) returns (names: seq<string>)
    ensures names == NewVenueNames(prior, current)
  {
    names := [];
    var j := 0;
    while j < |prior|
      invariant 0 <= j <= |prior|
      invariant names == NewVenueNames(prior[..j], current)
    {
      assert prior[..j + 1][..j] == prior[..j];
      if prior[j] !in current {
        names := names + [prior[j]];
      }
      j := j + 1;
    }
    assert prior[..j] == prior;
  }

  /** One row of the loop: the temporary dictionary built field by field; an
      exception ends the row with an error. */
  method ConvertRow(row: LocalRow, apiRes: seq<ApiPaper>, apiDois: seq<string>) returns (r: Result<GoldenJson>)
    requires Aligned(apiRes, apiDois)
    ensures r == RecordOf(row, apiRes, apiDois)
  {
    var apiIndex := FirstIndex(apiDois, Upper(row.doi));
    var rec := SharedOf(row);
    if apiIndex.Some? {
      var f := CollectApiFields(apiRes[apiIndex.value]);
      if f.Err? {
        return Err(f.error);
      }
      rec := WithApi(rec, f.value);
    } else {
      rec := WithLocal(rec, row);
    }
    if row.venueNames.Some? {
      var extra := CollectOldVenueNames(row.venueNames.value, rec.venueNames);
      rec := rec.(venueNames := rec.venueNames + extra);
    }
    r := Ok(rec);
  }

  /** What one row adds to the output list: its record, or nothing when it raises. */
  function Emitted(row: LocalRow, apiRes: seq<ApiPaper>, apiDois: seq<string>): seq<GoldenJson>
    requires Aligned(apiRes, apiDois)
  {
    match RecordOf(row, apiRes, apiDois)
    case Ok(rec) => [rec]
    case Err(_) => []
  }

  function Converted(rows: seq<LocalRow>, apiRes: seq<ApiPaper>, apiDois: seq<string>): seq<GoldenJson>
    requires Aligned(apiRes, apiDois)
  {
    if |rows| == 0 then []
    else Converted(rows[..|rows| - 1], apiRes, apiDois) + Emitted(rows[|rows| - 1], apiRes, apiDois)
  }

  lemma {:induction false} ConvertedBound(rows: seq<LocalRow>, apiRes: seq<ApiPaper>, apiDois: seq<string>)
    requires Aligned(apiRes, apiDois)
    ensures |Converted(rows, apiRes, apiDois)| <= |rows|
  {
    if |rows| > 0 {
      ConvertedBound(rows[..|rows| - 1], apiRes, apiDois);
    }
  }

  /** Rows are converted independently: the records of two stretches of rows are
      the records of the first followed by those of the second, so a failing row
      does not stop the rows after it. At most one record comes from each row. */
  lemma {:induction false} ConvertedSplit(a: seq<LocalRow>, b: seq<LocalRow>, apiRes: seq<ApiPaper>, apiDois: seq<string>)
    requires Aligned(apiRes, apiDois)
    ensures Converted(a + b, apiRes, apiDois) == Converted(a, apiRes, apiDois) + Converted(b, apiRes, apiDois)
    ensures |Converted(a, apiRes, apiDois)| <= |a|
    decreases |b|
  {
    if |b| == 0 {
      assert a + b == a;
      ConvertedBound(a, apiRes, apiDois);
    } else {
      var init := b[..|b| - 1];
      var last := b[|b| - 1];
      assert (a + b)[..|a + b| - 1] == a + init;
      assert (a + b)[|a + b| - 1] == last;
      ConvertedSplit(a, init, apiRes, apiDois);
      assert Converted(a + b, apiRes, apiDois) == Converted(a + init, apiRes, apiDois) + Emitted(last, apiRes, apiDois);
      assert Converted(b, apiRes, apiDois) == Converted(init, apiRes, apiDois) + Emitted(last, apiRes, apiDois);
    }
  }

  /** `convert_to_json`: one record per row that converts, in row order; a row
      that raises is reported and skipped. */
  method ConvertToJson(rows: seq<LocalRow>, apiRes: seq<ApiPaper>, apiDois: seq<string>) returns (goldenJsons: seq<GoldenJson>)
    requires Aligned(apiRes, apiDois)
    ensures goldenJsons == Converted(rows, apiRes, apiDois)
  {
    goldenJsons := [];
    var index := 0;
    while index < |rows|
      invariant 0 <= index <= |rows|
      invariant goldenJsons == Converted(rows[..index], apiRes, apiDois)
    {
      assert rows[..index + 1][..index] == rows[..index];
      var r := ConvertRow(rows[index], apiRes, apiDois);
      if r.Ok? {
        goldenJsons := goldenJsons + [r.value];
      }
      index := index + 1;
    }
    assert rows[..index] == rows;
  }

  /** The output file of the main block: the records' JSON texts in the array framing. */
  method WriteGoldenFile(texts: seq<string>) returns (file: string)
    ensures file == JsonFraming.JsonArray(texts)
  {
    file := JsonFraming.WriteJsonArray(texts);
  }
}
