/** The regular expressions the builders use to locate a block inside an HTML
    template, each written out as the match Python's `re.search` returns:
    the leftmost starting position, and from there the shortest lazy part. */
module Patterns {
  import opened Strings

  /** `let\s+NAME\s*=\s*` OPEN `.*?` CLOSE `\s*;` (with `\b` in front when
      `wordBoundary`), `<title>.*?</title>` and
      `<div[^>]*\bid="headerTitle"[^>]*>.*?</div>`; the last two ignore case. */
  datatype Pattern =
    | LetAssignment(name: string, open: char, close: char, wordBoundary: bool)
    | TitleElement
    | HeaderTitleDiv

  /** A match covers `t[start..end]`; `t[valueStart..valueEnd]` is the part a
      builder replaces: the bracketed value of an assignment, the text
      between the tags of an element. */
  datatype Span = Span(start: nat, valueStart: nat, valueEnd: nat, end: nat)

  predicate WellFormed(t: string, m: Span) {
    m.start <= m.valueStart <= m.valueEnd <= m.end <= |t|
  }

  /** The value of an assignment match runs from `open` to `close`, and
      the statement ends with `;`. */
  predicate Bracketed(t: string, m: Span, open: char, close: char) {
    && m.valueStart < m.valueEnd < m.end <= |t|
    && t[m.valueStart] == open && t[m.valueEnd - 1] == close && t[m.end - 1] == ';'
  }

  /** `\s*`, greedy. */
  function SkipSpaces(t: string, i: nat): (j: nat)
    requires i <= |t|
    ensures i <= j <= |t|
    ensures forall k :: i <= k < j ==> IsSpace(t[k])
    ensures j < |t| ==> !IsSpace(t[j])
    decreases |t| - i
  {
    if i < |t| && IsSpace(t[i]) then SkipSpaces(t, i + 1) else i
  }

  /** `\s*;` right after `i`: the position of the `;`. */
  function SemicolonAfter(t: string, i: nat): (r: Option<nat>)
    requires i <= |t|
    ensures r.Some? ==> i <= r.value < |t| && t[r.value] == ';'
  {
    var s := SkipSpaces(t, i);
    if s < |t| && t[s] == ';' then Some(s) else None
  }

  /** `CLOSE\s*;` can match at `q`. */
  predicate ClosesAt(t: string, q: nat, close: char) {
    q < |t| && t[q] == close && SemicolonAfter(t, q + 1).Some?
  }

  /** The lazy `.*?` of an assignment: the first `q >= from` where `CLOSE\s*;` matches. */
  function ClosingFrom(t: string, from: nat, close: char): (r: Option<nat>)
    requires from <= |t|
    decreases |t| - from
    ensures r.Some? ==> from <= r.value && ClosesAt(t, r.value, close)
    ensures r.Some? ==> forall q :: from <= q < r.value ==> !ClosesAt(t, q, close)
    ensures r.None? ==> forall q :: from <= q ==> !ClosesAt(t, q, close)
  {
    if from == |t| then None
    else if ClosesAt(t, from, close) then Some(from)
    else ClosingFrom(t, from + 1, close)
  }

  /** `let\s+NAME\s*=\s*` at `p`: where the text after the prefix begins. */
  function LetPrefixEnd(t: string, p: nat, name: string): (r: Option<nat>)
    requires p <= |t|
    ensures r.Some? ==> p + 3 < r.value <= |t| && OccursAt(t, "let", p)
  {
    if !OccursAt(t, "let", p) then None
    else
      var a := SkipSpaces(t, p + 3);
      if a == p + 3 || !OccursAt(t, name, a) then None
      else
        var b := SkipSpaces(t, a + |name|);
        if b < |t| && t[b] == '=' then Some(SkipSpaces(t, b + 1)) else None
  }

  /** `\b` in front of a word character at `p`. */
  predicate BoundaryBefore(t: string, p: nat)
    requires p <= |t|
  {
    p == 0 || !IsWordChar(t[p - 1])
  }

  const HeaderTitleId := "id=\"headertitle\""

  /** `[^>]*\bid="headerTitle"[^>]*` fits between `lo` and the `>` at `hi`. */
  predicate HasHeaderTitleId(t: string, lower: string, lo: nat, hi: nat)
    requires |lower| == |t| && 1 <= lo && hi <= |t|
  {
    exists k :: lo <= k && k + |HeaderTitleId| <= hi && OccursAt(lower, HeaderTitleId, k) && !IsWordChar(t[k - 1])
  }

  /** `let\s+NAME\s*=\s*` OPEN `.*?` CLOSE `\s*;` at `p`. */
  function AssignmentAt(t: string, p: nat, name: string, open: char, close: char, wordBoundary: bool): (r: Option<Span>)
    requires p <= |t|
    ensures r.Some? ==> r.value.start == p && WellFormed(t, r.value)
    ensures r.Some? ==> Bracketed(t, r.value, open, close)
  {
    if wordBoundary && !BoundaryBefore(t, p) then None
    else
      match LetPrefixEnd(t, p, name)
      case None => None
      case Some(v) =>
        if v < |t| && t[v] == open then
          match ClosingFrom(t, v + 1, close)
          case None => None
          case Some(q) =>
            assert ClosesAt(t, q, close);
            var e := SemicolonAfter(t, q + 1).value;
            assert q < e < |t| && t[e] == ';';
            Some(Span(p, v, q + 1, e + 1))
        else None
  }

  /** An assignment match is `let` at its start, the opening bracket at the
      value's start, the closing one at the value's end and `;` at the end,
      with no earlier closing bracket followed by `;` after the opening one. */
  lemma AssignmentAtShape(t: string, p: nat, name: string, open: char, close: char, wordBoundary: bool)
    requires p <= |t| && AssignmentAt(t, p, name, open, close, wordBoundary).Some?
    ensures var m := AssignmentAt(t, p, name, open, close, wordBoundary).value;
      && OccursAt(t, "let", p) && (wordBoundary ==> BoundaryBefore(t, p))
      && m.valueStart < m.valueEnd < m.end
      && t[m.valueStart] == open
      && t[m.valueEnd - 1] == close
      && t[m.end - 1] == ';'
      && forall q :: m.valueStart < q < m.valueEnd - 1 ==> !ClosesAt(t, q, close)
  {
  }

  /** `<title>.*?</title>` at `p`, ignoring case; `lower` is the lower-cased text. */
  function TitleAt(t: string, lower: string, p: nat): (r: Option<Span>)
    requires p <= |t| && |lower| == |t|
    ensures r.Some? ==> r.value.start == p && WellFormed(t, r.value)
    ensures r.Some? ==>
      && OccursAt(lower, "<title>", p) && r.value.valueStart == p + 7
      && OccursAt(lower, "</title>", r.value.valueEnd) && r.value.end == r.value.valueEnd + 8
  {
    if !OccursAt(lower, "<title>", p) then None
    else
      match Find(lower, "</title>", p + 7)
      case None => None
      case Some(q) => Some(Span(p, p + 7, q, q + 8))
  }

  /** `<div[^>]*\bid="headerTitle"[^>]*>.*?</div>` at `p`, ignoring case. */
  function HeaderTitleDivAt(t: string, lower: string, p: nat): (r: Option<Span>)
    requires p <= |t| && |lower| == |t|
    ensures r.Some? ==> r.value.start == p && WellFormed(t, r.value)
    ensures r.Some? ==>
      && OccursAt(lower, "<div", p) && p + 4 < r.value.valueStart && t[r.value.valueStart - 1] == '>'
      && OccursAt(lower, "</div>", r.value.valueEnd) && r.value.end == r.value.valueEnd + 6
  {
    if !OccursAt(lower, "<div", p) then None
    else
      match Find(t, ">", p + 4)
      case None => None
      case Some(g) =>
        if !HasHeaderTitleId(t, lower, p + 4, g) then None
        else
          match Find(lower, "</div>", g + 1)
          case None => None
          case Some(q) => Some(Span(p, g + 1, q, q + 6))
  }

  /** The match of `pat` that starts exactly at `p`, if any. */
  function MatchAt(pat: Pattern, t: string, p: nat): (r: Option<Span>)
    requires p <= |t|
    ensures r.Some? ==> r.value.start == p && WellFormed(t, r.value)
    ensures r.Some? && pat.LetAssignment? ==> Bracketed(t, r.value, pat.open, pat.close)
  {
    match pat
    case LetAssignment(name, open, close, wordBoundary) => AssignmentAt(t, p, name, open, close, wordBoundary)
    case TitleElement => TitleAt(t, Lower(t), p)
    case HeaderTitleDiv => HeaderTitleDivAt(t, Lower(t), p)
  }

  /** No match starts at `lo`, `lo + 1`, ..., `hi - 1`. */
  predicate NoMatchIn(pat: Pattern, t: string, lo: nat, hi: nat)
    requires hi <= |t| + 1
    decreases hi - lo
  {
    lo >= hi || (MatchAt(pat, t, lo).None? && NoMatchIn(pat, t, lo + 1, hi))
  }

  /** `re.search(pat, t[from:])`: the leftmost match at or after `from`. */
  function FirstMatch(pat: Pattern, t: string, from: nat): (r: Option<Span>)
    requires from <= |t|
    decreases |t| - from
    ensures r.Some? ==> from <= r.value.start <= |t| && MatchAt(pat, t, r.value.start) == r
    ensures r.Some? && pat.LetAssignment? ==> Bracketed(t, r.value, pat.open, pat.close)
  {
    var here := MatchAt(pat, t, from);
    if from == |t| || here.Some? then here
    else FirstMatch(pat, t, from + 1)
  }

  /** The match found is the leftmost one: none starts earlier, and when
      nothing is found, nothing matches anywhere. */
  lemma {:induction false} FirstMatchIsLeftmost(pat: Pattern, t: string, from: nat)
    requires from <= |t|
    ensures FirstMatch(pat, t, from).Some? ==> NoMatchIn(pat, t, from, FirstMatch(pat, t, from).value.start)
    ensures FirstMatch(pat, t, from).None? ==> NoMatchIn(pat, t, from, |t| + 1)
    decreases |t| - from
  {
    if MatchAt(pat, t, from).Some? {
      assert FirstMatch(pat, t, from) == MatchAt(pat, t, from);
    } else if from < |t| {
      FirstMatchIsLeftmost(pat, t, from + 1);
      assert FirstMatch(pat, t, from) == FirstMatch(pat, t, from + 1);
    } else {
      assert FirstMatch(pat, t, from) == None;
      assert NoMatchIn(pat, t, from + 1, |t| + 1);
    }
  }

  /** `re.search(pat, t) is not None`. */
  predicate Matches(pat: Pattern, t: string) {
    FirstMatch(pat, t, 0).Some?
  }

  /** Replaces the value part of the first match with `v`, keeping everything
      around it (`re.sub(..., r"\1v\3", t, count=1)` with a literal `v`). */
  function ReplaceValue(pat: Pattern, t: string, v: string): (r: string)
    ensures !Matches(pat, t) ==> r == t
  {
    match FirstMatch(pat, t, 0)
    case None => t
    case Some(m) => Splice(t, m.valueStart, m.valueEnd, v)
  }

  /** Replaces the value and everything after it up to the end of the first
      match with `v`, keeping the text before the value
      (`re.sub(..., lambda m: m.group("prefix") + v, t, count=1)`). */
  function ReplaceTail(pat: Pattern, t: string, v: string): (r: string)
    ensures !Matches(pat, t) ==> r == t
  {
    match FirstMatch(pat, t, 0)
    case None => t
    case Some(m) => Splice(t, m.valueStart, m.end, v)
  }

  /** Only the first match changes: the text before its value and the text
      after its end are kept, and `v` sits between them. */
  lemma ReplaceTailKeepsOutside(pat: Pattern, t: string, v: string)
    requires Matches(pat, t)
    ensures var m := FirstMatch(pat, t, 0).value; var r := ReplaceTail(pat, t, v);
      && |r| == m.valueStart + |v| + (|t| - m.end)
      && r[..m.valueStart] == t[..m.valueStart]
      && r[m.valueStart..m.valueStart + |v|] == v
      && r[m.valueStart + |v|..] == t[m.end..]
      && NoMatchIn(pat, t, 0, m.start)
  {
    FirstMatchIsLeftmost(pat, t, 0);
    var m := FirstMatch(pat, t, 0).value;
  }

  /** The same for `ReplaceValue`, which keeps the text after the value. */
  lemma ReplaceValueKeepsOutside(pat: Pattern, t: string, v: string)
    requires Matches(pat, t)
    ensures var m := FirstMatch(pat, t, 0).value; var r := ReplaceValue(pat, t, v);
      && |r| == m.valueStart + |v| + (|t| - m.valueEnd)
      && r[..m.valueStart] == t[..m.valueStart]
      && r[m.valueStart..m.valueStart + |v|] == v
      && r[m.valueStart + |v|..] == t[m.valueEnd..]
      && r == t[..m.valueStart] + v + t[m.valueEnd..]
      && NoMatchIn(pat, t, 0, m.start)
  {
    FirstMatchIsLeftmost(pat, t, 0);
    var m := FirstMatch(pat, t, 0).value;
  }

  /** The first `<title>` match: the opening tag at its start, the closing one right after its value. */
  lemma TitleElementShape(t: string)
    requires Matches(TitleElement, t)
    ensures var m := FirstMatch(TitleElement, t, 0).value;
      && OccursAt(Lower(t), "<title>", m.start) && m.valueStart == m.start + 7
      && OccursAt(Lower(t), "</title>", m.valueEnd) && m.end == m.valueEnd + 8
  {
    var m := FirstMatch(TitleElement, t, 0).value;
    assert TitleAt(t, Lower(t), m.start) == Some(m);
  }

  /** The first header-title match: `<div` at its start, `>` right before its
      value and `</div>` right after it. */
  lemma HeaderTitleDivShape(t: string)
    requires Matches(HeaderTitleDiv, t)
    ensures var m := FirstMatch(HeaderTitleDiv, t, 0).value;
      && OccursAt(Lower(t), "<div", m.start) && m.start + 4 < m.valueStart && t[m.valueStart - 1] == '>'
      && OccursAt(Lower(t), "</div>", m.valueEnd) && m.end == m.valueEnd + 6
  {
    var m := FirstMatch(HeaderTitleDiv, t, 0).value;
    assert HeaderTitleDivAt(t, Lower(t), m.start) == Some(m);
  }

  /** For an assignment pattern, the replaced value is the bracketed one. */
  lemma LetValueSpliced(pat: Pattern, t: string, v: string)
    requires pat.LetAssignment? && Matches(pat, t)
    ensures var m := FirstMatch(pat, t, 0).value;
      && Bracketed(t, m, pat.open, pat.close)
      && ReplaceValue(pat, t, v) == t[..m.valueStart] + v + t[m.valueEnd..]
      && NoMatchIn(pat, t, 0, m.start)
  {
    ReplaceValueKeepsOutside(pat, t, v);
  }
}
