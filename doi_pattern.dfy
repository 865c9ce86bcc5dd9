// The DOI pattern both scripts search with,
//     \b(10[.][0-9]{4,}(?:[.][0-9]+)*/(?:(?![\"&\'<>])\S)+)\b
// modelled as the result a backtracking `re.search` produces. For a start
// position p the prefix leaves no choice: "10." must be followed by a run of
// digits and dots ending in '/', and that run must read as four or more digits
// followed by dot-and-digits groups. The suffix quantifier first takes the whole
// run of allowed characters after the '/', then gives characters back until a
// word boundary holds; that is right after the last word character of the run.
// `re.search` returns the match at the leftmost start that has one.
module DoiPattern {
  import opened Base
  import opened Strings

  /** `(?![\"&\'<>])\S`: a non-space character other than " & ' < >. */
  predicate IsSuffixChar(c: char) {
    !IsSpace(c) && c != '"' && c != '&' && c != '\'' && c != '<' && c != '>'
  }

  predicate IsDigitOrDot(c: char) { IsDigit(c) || c == '.' }

  predicate WordAt(s: string, i: int) {
    0 <= i < |s| && IsWordChar(s[i])
  }

  /** The first index at or after `i` whose character is neither a digit nor a dot. */
  function SkipDigitsDots(s: string, i: nat): (j: nat)
    requires i <= |s|
    ensures i <= j <= |s|
    ensures forall k :: i <= k < j ==> IsDigitOrDot(s[k])
    ensures j < |s| ==> !IsDigitOrDot(s[j])
    decreases |s| - i
  {
    if i < |s| && IsDigitOrDot(s[i]) then SkipDigitsDots(s, i + 1) else i
  }

  /** The first index at or after `i` whose character may not be in the suffix. */
  function SkipSuffixChars(s: string, i: nat): (j: nat)
    requires i <= |s|
    ensures i <= j <= |s|
    ensures forall k :: i <= k < j ==> IsSuffixChar(s[k])
    ensures j < |s| ==> !IsSuffixChar(s[j])
    decreases |s| - i
  {
    if i < |s| && IsSuffixChar(s[i]) then SkipSuffixChars(s, i + 1) else i
  }

  /** The number of leading digits of `x`. */
  function LeadingDigits(x: string): (n: nat)
    ensures n <= |x|
    ensures forall k :: 0 <= k < n ==> IsDigit(x[k])
    ensures n < |x| ==> !IsDigit(x[n])
  {
    if |x| > 0 && IsDigit(x[0]) then 1 + LeadingDigits(x[1..]) else 0
  }

  /** `(?:[.][0-9]+)*` matches all of `y`. */
  predicate DotGroups(y: string)
    decreases |y|
  {
    y == "" ||
    (y[0] == '.' && LeadingDigits(y[1..]) >= 1 && DotGroups(y[1 + LeadingDigits(y[1..])..]))
  }

  /** `[0-9]{4,}(?:[.][0-9]+)*` matches all of `x`: the registrant code after "10.". */
  predicate Registrant(x: string) {
    LeadingDigits(x) >= 4 && DotGroups(x[LeadingDigits(x)..])
  }

  /** The last word character of `s[from..to]`, if there is one. */
  function LastWordIn(s: string, from: nat, to: nat): (r: Option<nat>)
    requires from <= to <= |s|
    ensures r.Some? ==> from <= r.value < to && IsWordChar(s[r.value])
    ensures r.Some? ==> forall k :: r.value < k < to ==> !IsWordChar(s[k])
    ensures r.None? ==> (forall k :: from <= k < to ==> !IsWordChar(s[k]))
  {
    if to == from then None
    else if IsWordChar(s[to - 1]) then Some(to - 1)
    else LastWordIn(s, from, to - 1)
  }

  /** The end of the match of the pattern that starts at `p`, if one does. */
  function MatchEnd(s: string, p: nat): Option<nat>
    requires p <= |s|
  {
    if p + 3 <= |s| && s[p..p + 3] == "10." && !WordAt(s, p - 1) then
      var j := SkipDigitsDots(s, p + 3);
      if j < |s| && s[j] == '/' && Registrant(s[p + 3..j]) then
        match LastWordIn(s, j + 1, SkipSuffixChars(s, j + 1))
        case Some(w) => Some(w + 1)
        case None => None
      else None
    else None
  }

  /** The leftmost match at or after `p`, as its start and end. */
  function SearchFrom(s: string, p: nat): (m: Option<(nat, nat)>)
    requires p <= |s|
    ensures m.Some? ==> p <= m.value.0 <= |s| && MatchEnd(s, m.value.0) == Some(m.value.1)
    ensures m.Some? ==> forall q :: p <= q < m.value.0 ==> MatchEnd(s, q).None?
    ensures m.None? ==> (forall q :: p <= q <= |s| ==> MatchEnd(s, q).None?)
    decreases |s| - p
  {
    if MatchEnd(s, p).Some? then Some((p, MatchEnd(s, p).value))
    else if p == |s| then None
    else SearchFrom(s, p + 1)
  }

  /** `re.search(pattern, s)`, as the span of the match. */
  function Search(s: string): Option<(nat, nat)> {
    SearchFrom(s, 0)
  }

  /** The matched text, `re.search(pattern, s).group()`, if there is a match. */
  function FirstMatch(s: string): (m: Option<string>)
  {
    match Search(s)
    case None => None
    case Some((p, e)) =>
      MatchEndBounds(s, p);
      Some(s[p..e])
  }

  /** What every matched text looks like: "10." and at least four digits, a '/',
      nothing but suffix characters (no whitespace, none of " & ' < >), and a
      word character at the end. */
  predicate DoiShaped(m: string) {
    && |m| >= 9
    && m[..3] == "10."
    && (forall k :: 3 <= k < 7 ==> IsDigit(m[k]))
    && '/' in m
    && (forall k :: 0 <= k < |m| ==> IsSuffixChar(m[k]))
    && IsWordChar(m[|m| - 1])
  }

  lemma MatchEndBounds(s: string, p: nat)
    requires p <= |s|
    ensures MatchEnd(s, p).Some? ==> p + 9 <= MatchEnd(s, p).value <= |s|
  {
    if MatchEnd(s, p).Some? {
      var j := SkipDigitsDots(s, p + 3);
      RegistrantLength(s[p + 3..j]);
    }
  }

  lemma RegistrantLength(x: string)
    requires Registrant(x)
    ensures |x| >= 4 && forall k :: 0 <= k < 4 ==> IsDigit(x[k])
  {
  }

  /** A match is shaped like a DOI name. */
  lemma {:induction false} MatchIsDoiShaped(s: string, p: nat)
    requires p <= |s| && MatchEnd(s, p).Some?
    ensures p + 9 <= MatchEnd(s, p).value <= |s|
    ensures DoiShaped(s[p..MatchEnd(s, p).value])
  {
    MatchEndBounds(s, p);
    var e := MatchEnd(s, p).value;
    var j := SkipDigitsDots(s, p + 3);
    var m := s[p..e];
    RegistrantLength(s[p + 3..j]);
    assert m[..3] == s[p..p + 3];
    forall k | 3 <= k < 7
      ensures IsDigit(m[k])
    {
      assert m[k] == s[p + 3..j][k - 3];
    }
    assert m[j - p] == '/';
    forall k | 0 <= k < |m|
      ensures IsSuffixChar(m[k])
    {
      assert m[k] == s[p + k];
      if p + k < p + 3 {
        assert s[p + k] == "10."[k];
      }
    }
  }

  lemma UpperKeepsSuffixChar(c: char)
    ensures IsSuffixChar(UpperChar(c)) == IsSuffixChar(c)
  {
  }

  /** Uppercasing keeps a DOI's shape: digits, dots, '/' and the allowed
      characters are kept, and word characters stay word characters. */
  lemma UpperDoiShaped(m: string)
    requires DoiShaped(m)
    ensures DoiShaped(Upper(m))
  {
    var u := Upper(m);
    assert u[..3] == m[..3] by {
      assert forall k :: 0 <= k < 3 ==> u[k] == m[k];
    }
    var slash :| 0 <= slash < |m| && m[slash] == '/';
    assert u[slash] == '/';
    forall k | 0 <= k < |u|
      ensures IsSuffixChar(u[k])
    {
      UpperKeepsSuffixChar(m[k]);
    }
  }

  /** What a match starting at `p` and ending at `e` is made of. */
  lemma MatchParts(s: string, p: nat) returns (j: nat, e: nat)
    requires p <= |s| && MatchEnd(s, p).Some?
    ensures e == MatchEnd(s, p).value
    ensures p + 3 < j && j + 1 < e <= |s| && j == SkipDigitsDots(s, p + 3)
    ensures s[p..p + 3] == "10." && s[j] == '/' && Registrant(s[p + 3..j])
    ensures forall k :: j + 1 <= k < e ==> IsSuffixChar(s[k])
    ensures IsWordChar(s[e - 1])
  {
    MatchEndBounds(s, p);
    e := MatchEnd(s, p).value;
    j := SkipDigitsDots(s, p + 3);
  }

  /** A string the pattern matches entirely from its first character. */
  lemma MatchesWhole(t: string, jt: nat)
    requires 3 < jt && jt + 1 < |t|
    requires t[..3] == "10." && t[jt] == '/' && Registrant(t[3..jt])
    requires forall k :: 3 <= k < jt ==> IsDigitOrDot(t[k])
    requires forall k :: jt + 1 <= k < |t| ==> IsSuffixChar(t[k])
    requires IsWordChar(t[|t| - 1])
    ensures MatchEnd(t, 0) == Some(|t|)
  {
    assert t[0..3] == "10.";
    var j := SkipDigitsDots(t, 3);
    assert j == jt;
    assert SkipSuffixChars(t, jt + 1) == |t|;
    assert LastWordIn(t, jt + 1, |t|) == Some(|t| - 1);
  }

  /** Uppercasing a matched text gives a string the pattern matches whole, from
      its first character. */
  lemma UpperMatchMatchesWhole(s: string, p: nat)
    requires p <= |s| && MatchEnd(s, p).Some?
    ensures p + 9 <= MatchEnd(s, p).value <= |s|
    ensures MatchEnd(Upper(s[p..MatchEnd(s, p).value]), 0) == Some((MatchEnd(s, p).value - p) as nat)
  {
    MatchEndBounds(s, p);
    var j, e := MatchParts(s, p);
    var m := s[p..e];
    var t := Upper(m);
    var jt := j - p;
    UpperKeepsRegistrant(s, p, j, e);
    assert t[..3] == s[p..p + 3];
    assert t[3..jt] == s[p + 3..j];
    UpperKeepsSuffix(m, jt);
    assert m[|t| - 1] == s[e - 1];
    MatchesWhole(t, jt);
  }

  /** The fixed "10." and the registrant run are digits, dots and '/', which
      uppercasing keeps. */
  lemma UpperKeepsRegistrant(s: string, p: nat, j: nat, e: nat)
    requires p + 3 < j && j + 1 < e <= |s|
    requires s[p..p + 3] == "10." && s[j] == '/'
    requires forall k :: p + 3 <= k < j ==> IsDigitOrDot(s[k])
    ensures forall k :: 0 <= k < j - p + 1 ==> Upper(s[p..e])[k] == s[p + k]
  {
    var m := s[p..e];
    forall k | 0 <= k < j - p + 1
      ensures Upper(m)[k] == s[p + k]
    {
      assert m[k] == s[p + k];
      if k < 3 {
        assert s[p + k] == s[p..p + 3][k];
      }
    }
  }

  /** Uppercasing keeps the suffix characters after position `jt` allowed. */
  lemma UpperKeepsSuffix(m: string, jt: nat)
    requires forall k :: jt + 1 <= k < |m| ==> IsSuffixChar(m[k])
    ensures forall k :: jt + 1 <= k < |m| ==> IsSuffixChar(Upper(m)[k])
  {
    forall k | jt + 1 <= k < |m|
      ensures IsSuffixChar(Upper(m)[k])
    {
      UpperKeepsSuffixChar(m[k]);
    }
  }

  /** Searching the uppercased first match finds all of it again. */
  lemma UpperMatchSearch(s: string, p: nat)
    requires p <= |s| && MatchEnd(s, p).Some?
    ensures p + 9 <= MatchEnd(s, p).value <= |s|
    ensures Search(Upper(s[p..MatchEnd(s, p).value])) == Some((0, (MatchEnd(s, p).value - p) as nat))
  {
    UpperMatchMatchesWhole(s, p);
  }

  /** No match can start where there is no '1'. */
  lemma {:induction false} SkipNoOne(s: string, p: nat, q: nat)
    requires p <= q <= |s|
    requires forall k :: p <= k < q ==> s[k] != '1'
    ensures SearchFrom(s, p) == SearchFrom(s, q)
    decreases q - p
  {
    if p < q {
      assert s[p] != "10."[0];
      assert MatchEnd(s, p).None?;
      SkipNoOne(s, p + 1, q);
    }
  }
}
