/** AskNature/doi_scraper/get_dois.py: recovering a paper's DOI from its web
    page (`pull_doi`) and storing it in the downloaded frame (`merge_dois`). The
    HTTP request and the HTML parsing are not part of this model: a page arrives
    as its links and the texts the soup search returned. */
module GetDois {
  import opened Base
  import opened Strings
  import DoiPattern

  /** What `pull_doi` reads from a fetched page: the `href` of every anchor, in
      document order, and the texts `soup(text=...)` found. */
  datatype Page = Page(hrefs: seq<string>, soupTexts: seq<string>)

  /** The page behind a URL; None when the request raises. */
  type Fetch = string -> Option<Page>

  const DoiHost := "doi.org"

  const DoiPath := "doi.org/"

  // ---------------------------------------------------------------------------
  // pull_doi

  /** `link.split('doi.org/')[1]`: IndexError when the link has no "doi.org/". */
  function SegmentAfter(link: string): Result<string> {
    var parts := Split(link, DoiPath);
    if |parts| >= 2 then Ok(parts[1]) else Err(IndexError)
  }

  /** The anchor loop: the segment of the first link mentioning "doi.org", or ""
      when no link does. */
  function HrefDoi(hrefs: seq<string>): Result<string> {
    if |hrefs| == 0 then Ok("")
    else if Contains(hrefs[0], DoiHost) then SegmentAfter(hrefs[0])
    else HrefDoi(hrefs[1..])
  }

  /** The first digit of `s`. */
  function FirstDigit(s: string): (r: Option<nat>)
    ensures r.Some? ==> r.value < |s| && IsDigit(s[r.value])
    ensures r.Some? ==> forall k :: 0 <= k < r.value ==> !IsDigit(s[k])
    ensures r.None? ==> forall k :: 0 <= k < |s| ==> !IsDigit(s[k])
  {
    if |s| == 0 then None
    else if IsDigit(s[0]) then Some(0)
    else match FirstDigit(s[1..]) case None => None case Some(d) => Some(d + 1)
  }

  /** `re.search('[0-9].*', s)[0]`: from the first digit to the end of its line;
      with no digit the search gives None and indexing it raises TypeError. */
  function FromFirstDigit(s: string): Result<string> {
    match FirstDigit(s)
    case None => Err(TypeError)
    case Some(d) => Ok(UpToNewline(s[d..]))
  }

  /** `re.search(pattern, url).groups()[0]`; `.groups()` on None raises. */
  function UrlGroup(url: string): Result<string> {
    match DoiPattern.FirstMatch(url)
    case None => Err(AttributeError)
    case Some(m) => Ok(m)
  }

  /** `pull_doi` on a fetched page. A non-empty link segment is returned as it is;
      otherwise the first soup text, or failing that the DOI pattern's match in
      the URL, is stripped and cut to start at its first digit. */
  function PullDoi(page: Page, url: string): Result<string> {
    match HrefDoi(page.hrefs)
    case Err(e) => Err(e)
    case Ok(fromHref) =>
      if |fromHref| > 0 then Ok(fromHref)
      else
        match (if |page.soupTexts| > 0 then Ok(page.soupTexts[0]) else UrlGroup(url))
        case Err(e) => Err(e)
        case Ok(found) => FromFirstDigit(Strip(found))
  }

  /** The search-and-break loop over the anchors. */
  method FindHrefDoi(hrefs: seq<string>) returns (doi: Result<string>)
    ensures doi == HrefDoi(hrefs)
  {
    doi := Ok("");
    var i := 0;
    while i < |hrefs|
      invariant 0 <= i <= |hrefs|
      invariant HrefDoi(hrefs) == HrefDoi(hrefs[i..])
    {
      assert hrefs[i..][1..] == hrefs[i + 1..];
      var link := hrefs[i];
      if Contains(link, DoiHost) {
        doi := SegmentAfter(link);
        return;
      }
      i := i + 1;
    }
  }

  /** `pull_doi`'s steps after the page is fetched. */
  method PullDoiSteps(page: Page, url: string) returns (r: Result<string>)
    ensures r == PullDoi(page, url)
  {
    var doi := FindHrefDoi(page.hrefs);
    if doi.Err? {
      return Err(doi.error);
    }
    if |doi.value| > 0 {
      return doi;
    }
    var found: Result<string>;
    if |page.soupTexts| > 0 {
      found := Ok(page.soupTexts[0]);
    } else {
      found := UrlGroup(url);
    }
    if found.Err? {
      return Err(found.error);
    }
    r := FromFirstDigit(Strip(found.value));
  }

  /** The anchor loop takes the first link that mentions "doi.org"; with none it
      gives "". */
  lemma {:induction false} HrefDoiFirst(hrefs: seq<string>, i: nat)
    requires i <= |hrefs|
    requires forall j :: 0 <= j < i ==> !Contains(hrefs[j], DoiHost)
    ensures i < |hrefs| && Contains(hrefs[i], DoiHost) ==> HrefDoi(hrefs) == SegmentAfter(hrefs[i])
    ensures i == |hrefs| ==> HrefDoi(hrefs) == Ok("")
    decreases i
  {
    if i > 0 {
      HrefDoiFirst(hrefs[1..], i - 1);
    }
  }

  /** The segment is the text after the first "doi.org/" up to the next one (or
      the end), with no trimming; a link with "doi.org" but without
      "doi.org/" raises IndexError. */
  lemma SegmentAfterMeaning(link: string)
    ensures SegmentAfter(link).Err? <==> !Contains(link, DoiPath)
    ensures SegmentAfter(link).Err? ==> SegmentAfter(link).error == IndexError
    ensures Contains(link, DoiPath) ==>
      var rest := link[IndexOf(link, DoiPath).value + |DoiPath|..];
      SegmentAfter(link).value == (match IndexOf(rest, DoiPath) case None => rest case Some(j) => rest[..j]) &&
      !Contains(SegmentAfter(link).value, DoiPath)
  {
    if Contains(link, DoiPath) {
      var i := IndexOf(link, DoiPath).value;
      var rest := link[i + |DoiPath|..];
      assert Split(link, DoiPath) == [link[..i]] + Split(rest, DoiPath);
      match IndexOf(rest, DoiPath)
      case None => {
        NoOccurrencePrefix(rest, |rest|);
      }
      case Some(j) => {
        NoOccurrencePrefix(rest, j);
      }
    }
  }

  /** A prefix of `s` that ends before the first occurrence of `sub` holds none. */
  lemma NoOccurrencePrefix(s: string, j: nat)
    requires j <= |s|
    requires forall k :: 0 <= k < j ==> !OccursAt(s, DoiPath, k)
    ensures !Contains(s[..j], DoiPath)
  {
    forall k | 0 <= k
      ensures !OccursAt(s[..j], DoiPath, k)
    {
      if OccursAt(s[..j], DoiPath, k) {
        assert s[..j][k..k + |DoiPath|] == s[k..k + |DoiPath|];
        assert OccursAt(s, DoiPath, k);
      }
    }
  }

  /** With no usable link and no soup text the result is exactly the DOI pattern's
      first match in the URL: the match has no surrounding whitespace, starts
      with a digit and holds no line break, so stripping and trimming keep it
      whole. Without a match the call raises. */
  lemma UrlFallback(page: Page, url: string)
    requires HrefDoi(page.hrefs) == Ok("") && page.soupTexts == []
    ensures DoiPattern.FirstMatch(url).None? ==> PullDoi(page, url) == Err(AttributeError)
    ensures DoiPattern.FirstMatch(url).Some? ==> PullDoi(page, url) == Ok(DoiPattern.FirstMatch(url).value)
  {
    match DoiPattern.Search(url)
    case None => {}
    case Some((p, e)) => {
      DoiPattern.MatchIsDoiShaped(url, p);
      assert DoiPattern.FirstMatch(url) == Some(url[p..e]);
      TrimKeepsDoi(url[p..e]);
    }
  }

  /** Stripping a DOI-shaped text and cutting it at its first digit keeps all of it. */
  lemma TrimKeepsDoi(m: string)
    requires DoiPattern.DoiShaped(m)
    ensures FromFirstDigit(Strip(m)) == Ok(m)
  {
    assert !IsSpace(m[0]) by {
      assert m[..3] == "10.";
      assert m[0] == '1';
    }
    StripNoSpace(m);
    assert IsDigit(m[0]);
    assert FirstDigit(m) == Some(0);
    assert m[0..] == m;
    assert '\n' !in m by {
      forall k | 0 <= k < |m|
        ensures m[k] != '\n'
      {
        assert DoiPattern.IsSuffixChar(m[k]);
      }
    }
    UpToNewlineWhole(m);
  }

  // ---------------------------------------------------------------------------
  // merge_dois

  /** A row of the downloaded frame: column to text. */
  type AskRow = map<string, string>

  /** `row.get("doi", False)` is truthy. */
  predicate HasDoi(row: AskRow) {
    "doi" in row && row["doi"] != ""
  }

  /** `row["url"]` raises KeyError for a row that is not skipped. */
  predicate Fails(row: AskRow) {
    HasDoi(row) && "url" !in row
  }

  /** The DOI the scraper settles on: "" when fetching or `pull_doi` raises. */
  function Scraped(fetch: Fetch, url: string): string {
    match fetch(url)
    case None => ""
    case Some(page) =>
      match PullDoi(page, url)
      case Err(_) => ""
      case Ok(d) => d
  }

  /** One row after `merge_dois`: a scraped non-empty DOI, with every '%' made
      '/', replaces the old one; otherwise the row is left alone. */
  function MergedRow(row: AskRow, fetch: Fetch): AskRow
    requires !Fails(row)
  {
    if !HasDoi(row) then row
    else
      var doi := Scraped(fetch, row["url"]);
      if doi != "" then row["doi" := ReplaceChar(doi, '%', '/')] else row
  }

  /** The index of the first row that raises, or the row count if none does. */
  function FirstFailure(rows: seq<AskRow>): (r: nat)
    ensures r <= |rows|
    ensures forall k :: 0 <= k < r ==> !Fails(rows[k])
    ensures r < |rows| ==> Fails(rows[r])
  {
    if |rows| == 0 then 0
    else if Fails(rows[0]) then 0
    else 1 + FirstFailure(rows[1..])
  }

  /** `merge_dois`: every row is visited in order and updated in place; a row
      whose doi is truthy but which has no url ends the loop with KeyError,
      leaving it and the rows after it as they were. */
  method MergeDois(algoliaDf: array<AskRow>, fetch: Fetch) returns (r: Result<()>)
    modifies algoliaDf
    ensures r.Ok? <==> FirstFailure(old(algoliaDf[..])) == algoliaDf.Length
    ensures r.Err? ==> r.error == KeyError
    ensures forall i :: 0 <= i < algoliaDf.Length ==>
      algoliaDf[i] == (if i < FirstFailure(old(algoliaDf[..])) then MergedRow(old(algoliaDf[i]), fetch) else old(algoliaDf[i]))
  {
    ghost var rows := algoliaDf[..];
    var index := 0;
    while index < algoliaDf.Length
      invariant 0 <= index <= algoliaDf.Length
      invariant forall k :: 0 <= k < index ==> !Fails(rows[k]) && algoliaDf[k] == MergedRow(rows[k], fetch)
      invariant forall k :: index <= k < algoliaDf.Length ==> algoliaDf[k] == rows[k]
    {
      var row := algoliaDf[index];
      if !HasDoi(row) {
        index := index + 1;
        continue;
      }
      if "url" !in row {
        assert FirstFailure(rows) == index;
        return Err(KeyError);
      }
      var doi := ScrapeDoi(fetch, row["url"]);
      if doi != "" {
        doi := ReplaceChar(doi, '%', '/');
        algoliaDf[index] := row["doi" := doi];
      }
      index := index + 1;
    }
    assert FirstFailure(rows) == algoliaDf.Length;
    r := Ok(());
  }

  /** The `try`/`except` around `pull_doi`: any exception gives "". */
  method ScrapeDoi(fetch: Fetch, url: string) returns (doi: string)
    ensures doi == Scraped(fetch, url)
  {
    doi := "";
    var page := fetch(url);
    if page.Some? {
      var pulled := PullDoiSteps(page.value, url);
      if pulled.Ok? {
        doi := pulled.value;
      }
    }
  }

  /** What merging does to one row: it keeps the row's columns, changes nothing
      but the doi, leaves a row without a truthy doi or without a scraped DOI as
      it was, and stores a scraped DOI with every '%' replaced by '/'. */
  lemma MergedRowMeaning(row: AskRow, fetch: Fetch)
    requires !Fails(row)
    ensures MergedRow(row, fetch).Keys == row.Keys
    ensures forall c :: c in row && c != "doi" ==> MergedRow(row, fetch)[c] == row[c]
    ensures !HasDoi(row) || Scraped(fetch, row["url"]) == "" ==> MergedRow(row, fetch) == row
    ensures HasDoi(row) && Scraped(fetch, row["url"]) != "" ==>
      (MergedRow(row, fetch)["doi"] == ReplaceChar(Scraped(fetch, row["url"]), '%', '/') &&
       '%' !in MergedRow(row, fetch)["doi"])
  {
    if HasDoi(row) && Scraped(fetch, row["url"]) != "" {
      var d := ReplaceChar(Scraped(fetch, row["url"]), '%', '/');
      assert forall k :: 0 <= k < |d| ==> d[k] != '%';
    }
  }

  /** A page that offers no DOI, or a request that raises, keeps the row's doi. */
  lemma FailedScrapeKeepsRow(row: AskRow, fetch: Fetch)
    requires HasDoi(row) && "url" in row
    requires fetch(row["url"]).None? || PullDoi(fetch(row["url"]).value, row["url"]).Err? ||
      PullDoi(fetch(row["url"]).value, row["url"]) == Ok("")
    ensures MergedRow(row, fetch) == row
  {
  }
}
