/** AskNature/algolia_downloader: flattening the AskNature search hits into one
    CSV row per source link (`process_papers`), and the constant columns the
    script adds before writing the CSV. The Algolia search itself is not part of
    this model: the hits arrive as values. */
module AlgoliaDownloader {
  import opened Base
  import opened Strings

  /** A paper's source object: attribute name to its list of values, e.g.
      "source_link" to the links of the paper's references. */
  type Sources = map<string, seq<string>>

  /** What a hit holds under a source key: nothing, an object, or some other
      JSON value (null, a string, a list, a number, a boolean), which has no
      `.get` and is only asked for its truthiness. */
  datatype SourceField = Absent | Object(fields: Sources) | NonObject(truthy: bool)

  /** One hit. `taxonomies` is `taxonomies_hierarchical`, None when absent, and
      maps "function" to the level lists "lvl0", "lvl1", "lvl2". */
  datatype Paper = Paper(
    referenceSources: SourceField,
    sources: SourceField,
    taxonomies: Option<map<string, map<string, seq<string>>>>)

  /** The three level label lists of a paper. */
  datatype Levels = Levels(level1: seq<string>, level2: seq<string>, level3: seq<string>)

  /** One row of the downloaded frame. */
  datatype PaperRow = PaperRow(doi: string, url: string, labels: Levels)

  const LevelSeparator := " > "

  const LevelKeys: seq<string> := ["lvl0", "lvl1", "lvl2"]

  /** Python truthiness of a source field; an absent `reference_sources` is the
      default `False`. */
  predicate Truthy(f: SourceField) {
    match f
    case Absent => false
    case Object(fields) => |fields| > 0
    case NonObject(t) => t
  }

  /** `paper.get("reference_sources", False) or paper.get("sources", {})`,
      followed by the `.get` of the next line: the reference sources when they
      are truthy, else the sources, else the empty object; AttributeError when
      the value chosen is not an object. */
  function SourcesOf(p: Paper): Result<Sources> {
    var chosen := if Truthy(p.referenceSources) then p.referenceSources
      else if p.sources.Absent? then Object(map[]) else p.sources;
    match chosen
    case Object(fields) => Ok(fields)
    case _ => Err(AttributeError)
  }

  /** The source links the rows are built from; none when the sources cannot be read. */
  function LinksOf(p: Paper): seq<string> {
    match SourcesOf(p)
    case Ok(s) => SourceLinks(s)
    case Err(_) => []
  }

  /** `sources.get("source_link", [])` */
  function SourceLinks(s: Sources): seq<string> {
    if "source_link" in s then s["source_link"] else []
  }

  /** `get_doi`: the DOI of every source is left empty. */
  function GetDoi(p: Paper, index: nat, s: Sources): (r: string)
    ensures r == ""
  {
    ""
  }

  /** `get_url`: the index-th source link. */
  function GetUrl(index: nat, s: Sources): (r: string)
    requires index < |SourceLinks(s)|
    ensures "source_link" in s && r == s["source_link"][index]
  {
    s["source_link"][index]
  }

  /** Component k of every label, `label.split(" > ")[k]`; IndexError when a
      label has too few components. */
  function Components(labels: seq<string>, k: nat): Result<seq<string>> {
    if |labels| == 0 then Ok([])
    else
      match Components(labels[..|labels| - 1], k)
      case Err(e) => Err(e)
      case Ok(init) =>
        var parts := Split(labels[|labels| - 1], LevelSeparator);
        if k < |parts| then Ok(init + [parts[k]]) else Err(IndexError)
  }

  /** The k-th level list: component k of every label listed under "lvl<k>",
      the empty list when that key is missing. */
  function LevelLabels(functions: map<string, seq<string>>, k: nat): Result<seq<string>>
    requires k < 3
  {
    Components(if LevelKeys[k] in functions then functions[LevelKeys[k]] else [], k)
  }

  /** `get_labels`: KeyError without `taxonomies_hierarchical["function"]`. */
  function LabelsOf(p: Paper): Result<Levels> {
    if p.taxonomies.None? || "function" !in p.taxonomies.value then Err(KeyError)
    else
      var functions := p.taxonomies.value["function"];
      var l1 :- LevelLabels(functions, 0);
      var l2 :- LevelLabels(functions, 1);
      var l3 :- LevelLabels(functions, 2);
      Ok(Levels(l1, l2, l3))
  }

  /** The rows of one paper: one per source link, in link order, all with the
      paper's labels; the labels are read only when there is a link. */
  function PaperRows(p: Paper): Result<seq<PaperRow>> {
    match SourcesOf(p)
    case Err(e) => Err(e)
    case Ok(sources) =>
      var links := SourceLinks(sources);
      if |links| == 0 then Ok([])
      else
        match LabelsOf(p)
        case Err(e) => Err(e)
        case Ok(labels) => Ok(seq(|links|, i requires 0 <= i < |links| => PaperRow("", links[i], labels)))
  }

  /** The rows of a list of papers, paper by paper, where `rowsOf` gives one
      paper's rows; the first paper that fails decides the result. */
  function Flattened(papers: seq<Paper>, rowsOf: Paper -> Result<seq<PaperRow>>): Result<seq<PaperRow>> {
    if |papers| == 0 then Ok([])
    else
      match Flattened(papers[..|papers| - 1], rowsOf)
      case Err(e) => Err(e)
      case Ok(init) =>
        match rowsOf(papers[|papers| - 1])
        case Err(e) => Err(e)
        case Ok(rows) => Ok(init + rows)
  }

  /** `process_papers` on values: the papers' rows, paper by paper. */
  function Processed(papers: seq<Paper>): Result<seq<PaperRow>> {
    Flattened(papers, PaperRows)
  }

  /** The number of source links of all papers. */
  function LinkCount(papers: seq<Paper>): nat {
    if |papers| == 0 then 0
    else LinkCount(papers[..|papers| - 1]) + |LinksOf(papers[|papers| - 1])|
  }

  /** `process_papers`: the loop over the papers. */
  method ProcessPapers(asknatureResponse: seq<Paper>) returns (r: Result<seq<PaperRow>>)
    ensures r == Processed(asknatureResponse)
  {
    var formattedPapers: seq<PaperRow> := [];
    var n := 0;
    while n < |asknatureResponse|
      invariant 0 <= n <= |asknatureResponse|
      invariant Processed(asknatureResponse[..n]) == Ok(formattedPapers)
    {
      assert asknatureResponse[..n + 1][..n] == asknatureResponse[..n];
      var rows := ProcessPaper(asknatureResponse[n]);
      if rows.Err? {
        ProcessedFailure(asknatureResponse, n);
        return Err(rows.error);
      }
      formattedPapers := formattedPapers + rows.value;
      n := n + 1;
    }
    assert asknatureResponse[..n] == asknatureResponse;
    r := Ok(formattedPapers);
  }

  /** The inner loop over one paper's source links: one row per link, the
      labels read anew for each. */
  method ProcessPaper(paper: Paper) returns (r: Result<seq<PaperRow>>)
    ensures r == PaperRows(paper)
  {
    var chosen := SourcesOf(paper);
    if chosen.Err? {
      return Err(chosen.error);
    }
    var sources := chosen.value;
    var refCount := |SourceLinks(sources)|;
    var rows: seq<PaperRow> := [];
    var i := 0;
    while i < refCount
      invariant 0 <= i <= refCount
      invariant i > 0 ==> LabelsOf(paper).Ok?
      invariant |rows| == i
      invariant forall j :: 0 <= j < i ==> rows[j] == PaperRow("", SourceLinks(sources)[j], LabelsOf(paper).value)
    {
      var labels := LabelsOf(paper);
      if labels.Err? {
        return Err(labels.error);
      }
      var paperObject := PaperRow(GetDoi(paper, i, sources), GetUrl(i, sources), labels.value);
      rows := rows + [paperObject];
      i := i + 1;
    }
    if refCount == 0 {
      return Ok([]);
    }
    assert rows == PaperRows(paper).value;
    r := Ok(rows);
  }

  /** A paper whose labels cannot be read, once earlier papers were read, makes
      the whole call fail with that paper's error. */
  lemma ProcessedFailure(papers: seq<Paper>, n: nat)
    requires n < |papers| && Processed(papers[..n]).Ok? && PaperRows(papers[n]).Err?
    ensures Processed(papers).Err? && Processed(papers).error == PaperRows(papers[n]).error
  {
    FlattenedFailure(papers, PaperRows, n);
  }

  lemma {:induction false} FlattenedFailure(papers: seq<Paper>, rowsOf: Paper -> Result<seq<PaperRow>>, n: nat)
    requires n < |papers| && Flattened(papers[..n], rowsOf).Ok? && rowsOf(papers[n]).Err?
    ensures Flattened(papers, rowsOf).Err? && Flattened(papers, rowsOf).error == rowsOf(papers[n]).error
    decreases |papers|
  {
    if n + 1 < |papers| {
      var init := papers[..|papers| - 1];
      assert init[..n] == papers[..n];
      FlattenedFailure(init, rowsOf, n);
    } else {
      assert papers[..n] == papers[..|papers| - 1];
    }
  }

  /** Processing distributes over concatenation: the rows of `a + b` are those of
      `a` followed by those of `b`, so rows are ordered by paper. */
  lemma ProcessedConcat(a: seq<Paper>, b: seq<Paper>)
    requires Processed(a).Ok? && Processed(b).Ok?
    ensures Processed(a + b) == Ok(Processed(a).value + Processed(b).value)
  {
    FlattenedConcat(a, b, PaperRows);
  }

  lemma {:induction false} FlattenedConcat(a: seq<Paper>, b: seq<Paper>, rowsOf: Paper -> Result<seq<PaperRow>>)
    requires Flattened(a, rowsOf).Ok? && Flattened(b, rowsOf).Ok?
    ensures Flattened(a + b, rowsOf) == Ok(Flattened(a, rowsOf).value + Flattened(b, rowsOf).value)
    decreases |b|
  {
    var pa := Flattened(a, rowsOf).value;
    if |b| == 0 {
      assert a + b == a;
      assert pa + Flattened(b, rowsOf).value == pa;
    } else {
      var init, last := b[..|b| - 1], b[|b| - 1];
      var ab := a + b;
      assert ab[..|ab| - 1] == a + init;
      assert ab[|ab| - 1] == last;
      FlattenedConcat(a, init, rowsOf);
      var pInit, pLast := Flattened(init, rowsOf).value, rowsOf(last).value;
      assert (pa + pInit) + pLast == pa + (pInit + pLast);
    }
  }

  /** With every paper readable there are exactly as many rows as source links;
      a paper without links gives no row at all, whatever its labels. */
  lemma {:induction false} ProcessedCount(papers: seq<Paper>)
    requires Processed(papers).Ok?
    ensures |Processed(papers).value| == LinkCount(papers)
  {
    if |papers| > 0 {
      ProcessedCount(papers[..|papers| - 1]);
    }
  }

  /** The rows of one paper: `refCount` of them, row i with doi "", url the i-th
      link and the paper's labels; the call fails only when the sources are not
      an object, or when there is a link and the labels cannot be read. */
  lemma PaperRowsMeaning(p: Paper)
    ensures var links := LinksOf(p);
      PaperRows(p).Err? <==> SourcesOf(p).Err? || (|links| > 0 && LabelsOf(p).Err?)
    ensures var links := LinksOf(p);
      PaperRows(p).Ok? ==> (|PaperRows(p).value| == |links| &&
        forall i :: 0 <= i < |links| ==>
          PaperRows(p).value[i] == PaperRow("", links[i], LabelsOf(p).value))
  {
  }

  /** Which source object is used: the reference sources when non-empty, else
      the sources, else nothing, which gives no rows; a chosen value that is not
      an object makes the paper raise AttributeError. */
  lemma SourcesChoice(p: Paper)
    ensures p.referenceSources.Object? && |p.referenceSources.fields| > 0 ==> SourcesOf(p) == Ok(p.referenceSources.fields)
    ensures p.referenceSources == NonObject(true) ==> PaperRows(p) == Err(AttributeError)
    ensures !Truthy(p.referenceSources) && p.sources.Object? ==> SourcesOf(p) == Ok(p.sources.fields)
    ensures !Truthy(p.referenceSources) && p.sources.NonObject? ==> PaperRows(p) == Err(AttributeError)
    ensures !Truthy(p.referenceSources) && p.sources.Absent? ==> PaperRows(p) == Ok([])
  {
  }

  /** The k-th level list has one entry per listed label, the label's k-th
      component; it fails exactly when some label has k components or fewer. */
  lemma {:induction false} ComponentsMeaning(labels: seq<string>, k: nat)
    ensures Components(labels, k).Ok? <==> forall j :: 0 <= j < |labels| ==> k < |Split(labels[j], LevelSeparator)|
    ensures Components(labels, k).Err? ==> Components(labels, k).error == IndexError
    ensures Components(labels, k).Ok? ==> (|Components(labels, k).value| == |labels| &&
      forall j :: 0 <= j < |labels| ==> Components(labels, k).value[j] == Split(labels[j], LevelSeparator)[k])
  {
    if |labels| > 0 {
      var init := labels[..|labels| - 1];
      ComponentsMeaning(init, k);
      assert forall j :: 0 <= j < |init| ==> init[j] == labels[j];
      var parts := Split(labels[|labels| - 1], LevelSeparator);
      if Components(init, k).Ok? && k < |parts| {
        assert Components(labels, k) == Ok(Components(init, k).value + [parts[k]]);
      }
    }
  }

  /** A label without " > " is its own first component and has no second one. */
  lemma SingleComponent(name: string)
    requires !Contains(name, LevelSeparator)
    ensures Components([name], 0) == Ok([name])
    ensures Components([name], 1) == Err(IndexError)
  {
    var one := [name];
    assert one[..|one| - 1] == [];
    assert one[|one| - 1] == name;
    assert Split(name, LevelSeparator) == [name];
    var none: seq<string> := [];
    assert Components(none, 0) == Ok(none);
    assert none + [name] == [name];
  }

  /** A missing level key gives an empty level list. */
  lemma MissingLevel(functions: map<string, seq<string>>, k: nat)
    requires k < 3 && LevelKeys[k] !in functions
    ensures LevelLabels(functions, k) == Ok([])
  {
  }

  // ---------------------------------------------------------------------------
  // The columns added before writing the CSV

  /** A row of the written CSV. */
  datatype CsvRecord = CsvRecord(
    doi: string, url: string, labels: Levels,
    title: string, abstractText: string, venueNames: string,
    fullDocLink: string, isOpenAccess: string, isBiomimicry: string)

  /** Every row gets the same constant columns. */
  function WithConstantColumns(rows: seq<PaperRow>): (r: seq<CsvRecord>)
    ensures |r| == |rows|
    ensures forall i :: 0 <= i < |rows| ==>
      r[i].doi == rows[i].doi && r[i].url == rows[i].url && r[i].labels == rows[i].labels &&
      r[i].title == "" && r[i].abstractText == "" && r[i].venueNames == "" &&
      r[i].fullDocLink == "" && r[i].isOpenAccess == "" && r[i].isBiomimicry == "Y"
  {
    seq(|rows|, i requires 0 <= i < |rows| =>
      CsvRecord(rows[i].doi, rows[i].url, rows[i].labels, "", "", "", "", "", "Y"))
  }

  /** Every written row has an empty doi, is marked as biomimicry, and its url is
      one of the papers' source links. */
  lemma {:induction false} WrittenRows(papers: seq<Paper>)
    requires Processed(papers).Ok?
    ensures forall x :: x in WithConstantColumns(Processed(papers).value) ==>
      x.doi == "" && x.isBiomimicry == "Y" &&
      exists n :: 0 <= n < |papers| && x.url in LinksOf(papers[n])
  {
    if |papers| > 0 {
      var init := papers[..|papers| - 1];
      var last := papers[|papers| - 1];
      WrittenRows(init);
      PaperRowsMeaning(last);
      var r := Processed(papers).value;
      var a := Processed(init).value;
      var b := PaperRows(last).value;
      assert r == a + b;
      forall x | x in WithConstantColumns(r)
        ensures x.doi == "" && x.isBiomimicry == "Y" &&
          exists n :: 0 <= n < |papers| && x.url in LinksOf(papers[n])
      {
        var i :| 0 <= i < |r| && WithConstantColumns(r)[i] == x;
        if i < |a| {
          assert WithConstantColumns(a)[i] == x;
          var n :| 0 <= n < |init| && x.url in LinksOf(init[n]);
          assert init[n] == papers[n];
        } else {
          assert b[i - |a|] == r[i];
          assert x.url == LinksOf(last)[i - |a|];
          assert papers[|papers| - 1] == last;
        }
      }
    }
  }
}
