/** The pieces of Python's `str` that the checklist builders lean on:
    `strip`, `lower`, `in`, `replace`, `join`, `str(int)` and `int(str)`.
    Character classes are the ASCII part of Python's (see README). */
module Strings {

  datatype Option<T> = None | Some(value: T)

  /** The outcome of an operation that raises `error` instead of returning. */
  datatype Result<T, E> = Ok(value: T) | Err(error: E)

  /** A prefix one longer is the prefix with the next element appended. */
  lemma PrefixNext<T>(s: seq<T>, k: nat)
    requires k < |s|
    ensures s[..k + 1] == s[..k] + [s[k]]
  {
  }

  /** `str.isspace` restricted to ASCII: tab to carriage return, the four
      information separators and the space. */
  predicate IsSpace(c: char) {
    ('\t' <= c <= '\r') || ('\U{1C}' <= c <= ' ')
  }

  predicate IsDigit(c: char) { '0' <= c <= '9' }

  predicate IsLetter(c: char) { ('A' <= c <= 'Z') || ('a' <= c <= 'z') }

  predicate IsAlnum(c: char) { IsLetter(c) || IsDigit(c) }

  /** The regular-expression class `\w`, ASCII part. */
  predicate IsWordChar(c: char) { IsAlnum(c) || c == '_' }

  function LowerChar(c: char): char {
    if 'A' <= c <= 'Z' then (c as int + 32) as char else c
  }

  /** `str.lower()`. */
  function Lower(s: string): string {
    seq(|s|, i requires 0 <= i < |s| => LowerChar(s[i]))
  }

  /** `str.lstrip()`. */
  function TrimStart(s: string): string {
    if s != [] && IsSpace(s[0]) then TrimStart(s[1..]) else s
  }

  /** `str.rstrip()`. */
  function TrimEnd(s: string): string {
    if s != [] && IsSpace(s[|s| - 1]) then TrimEnd(s[..|s| - 1]) else s
  }

  /** `lstrip` drops the leading run of spaces and nothing else. */
  lemma {:induction false} TrimStartDropsLeadingSpaces(s: string)
    ensures |TrimStart(s)| <= |s| && TrimStart(s) == s[|s| - |TrimStart(s)|..]
    ensures forall k :: 0 <= k < |s| - |TrimStart(s)| ==> IsSpace(s[k])
    ensures TrimStart(s) != [] ==> !IsSpace(TrimStart(s)[0])
  {
    if s != [] && IsSpace(s[0]) {
      TrimStartDropsLeadingSpaces(s[1..]);
      var t := TrimStart(s[1..]);
      assert TrimStart(s) == t;
      assert s[1..][|s| - 1 - |t|..] == s[|s| - |t|..];
      forall k | 0 <= k < |s| - |t|
        ensures IsSpace(s[k])
      {
        if k > 0 {
          assert s[k] == s[1..][k - 1];
        }
      }
    }
  }

  /** `rstrip` drops the trailing run of spaces and nothing else. */
  lemma {:induction false} TrimEndDropsTrailingSpaces(s: string)
    ensures |TrimEnd(s)| <= |s| && TrimEnd(s) == s[..|TrimEnd(s)|]
    ensures forall k :: |TrimEnd(s)| <= k < |s| ==> IsSpace(s[k])
    ensures TrimEnd(s) != [] ==> !IsSpace(TrimEnd(s)[|TrimEnd(s)| - 1])
  {
    if s != [] && IsSpace(s[|s| - 1]) {
      TrimEndDropsTrailingSpaces(s[..|s| - 1]);
      var t := TrimEnd(s[..|s| - 1]);
      assert TrimEnd(s) == t;
      assert s[..|s| - 1][..|t|] == s[..|t|];
      forall k | |t| <= k < |s|
        ensures IsSpace(s[k])
      {
        if k < |s| - 1 {
          assert s[k] == s[..|s| - 1][k];
        }
      }
    }
  }

  /** `str.strip()`. */
  function Trim(s: string): string {
    TrimEnd(TrimStart(s))
  }

  predicate NoSpace(s: string) {
    forall k :: 0 <= k < |s| ==> !IsSpace(s[k])
  }

  lemma TrimNoSpace(s: string)
    requires NoSpace(s)
    ensures Trim(s) == s
  {
  }

  /** Stripping leaves nothing exactly when every character is a space. */
  lemma TrimEmptyIff(s: string)
    ensures Trim(s) == "" <==> forall k :: 0 <= k < |s| ==> IsSpace(s[k])
  {
    TrimStartDropsLeadingSpaces(s);
    var u := TrimStart(s);
    TrimEndDropsTrailingSpaces(u);
    if Trim(s) == "" {
      assert u == [];
    } else {
      assert u != [] && !IsSpace(u[0]) && u[0] == s[|s| - |u|];
    }
  }

  /** A text that is not blank has a character that is not a space. */
  lemma VisibleCharIn(s: string) returns (k: nat)
    requires Trim(s) != ""
    ensures k < |s| && !IsSpace(s[k])
  {
    TrimEmptyIff(s);
    k :| 0 <= k < |s| && !IsSpace(s[k]);
  }

  /** `rstrip` never turns a text that is not blank into a blank one, nor back. */
  lemma TrimEndBlankIff(s: string)
    ensures Trim(TrimEnd(s)) == "" <==> Trim(s) == ""
  {
    TrimEndDropsTrailingSpaces(s);
    TrimEmptyIff(s);
    TrimEmptyIff(TrimEnd(s));
    var e := TrimEnd(s);
    assert forall k :: 0 <= k < |e| ==> e[k] == s[k];
  }

  /** Stripping twice is stripping once. */
  lemma TrimIdempotent(s: string)
    ensures Trim(Trim(s)) == Trim(s)
  {
    var u := TrimStart(s);
    var t := TrimEnd(u);
    TrimStartDropsLeadingSpaces(s);
    TrimEndDropsTrailingSpaces(u);
    TrimEndDropsTrailingSpaces(t);
    if t != [] {
      assert t == u[..|t|];
      assert !IsSpace(t[0]) by { assert t[0] == u[0]; }
    }
  }

  /** Text with no space at either end. */
  predicate Stripped(s: string) {
    s == [] || (!IsSpace(s[0]) && !IsSpace(s[|s| - 1]))
  }

  /** `strip()` leaves no space at either end. */
  lemma TrimStripped(s: string)
    ensures Stripped(Trim(s))
  {
    var u := TrimStart(s);
    var t := TrimEnd(u);
    TrimStartDropsLeadingSpaces(s);
    TrimEndDropsTrailingSpaces(u);
    if t != [] {
      assert t == u[..|t|];
      assert t[0] == u[0];
    }
  }

  /** Lower-casing keeps a stripped text stripped, and a second lower-casing
      changes nothing. */
  lemma LowerStripped(s: string)
    requires Stripped(s)
    ensures Trim(Lower(s)) == Lower(s)
    ensures Lower(Lower(s)) == Lower(s)
  {
    var l := Lower(s);
    if l != [] {
      assert l[0] == LowerChar(s[0]) && l[|l| - 1] == LowerChar(s[|s| - 1]);
      assert TrimStart(l) == l;
    }
  }

  /** `t[:i] + v + t[j:]`: everything before `i` and from `j` on is kept. */
  function Splice(t: string, i: nat, j: nat, v: string): (r: string)
    requires i <= j <= |t|
    ensures |r| == i + |v| + (|t| - j)
    ensures r[..i] == t[..i] && r[i..i + |v|] == v && r[i + |v|..] == t[j..]
  {
    var r := t[..i] + v + t[j..];
    assert r[..i] == t[..i];
    assert r[i..i + |v|] == v;
    r
  }

  // ---------------------------------------------------------------------
  // Searching and literal replacement
  // ---------------------------------------------------------------------

  predicate OccursAt(s: string, p: string, i: nat) {
    i + |p| <= |s| && s[i..i + |p|] == p
  }

  /** `s.find(p, from)`: the leftmost occurrence of `p` at or after `from`. */
  function Find(s: string, p: string, from: nat): (r: Option<nat>)
    decreases |s| - from
    ensures r.Some? ==> from <= r.value && OccursAt(s, p, r.value)
    ensures r.Some? ==> forall j :: from <= j < r.value ==> !OccursAt(s, p, j)
    ensures r.None? ==> forall j :: from <= j ==> !OccursAt(s, p, j)
  {
    if from + |p| > |s| then None
    else if OccursAt(s, p, from) then Some(from)
    else Find(s, p, from + 1)
  }

  /** Python's `p in s`. */
  predicate Contains(s: string, p: string) {
    Find(s, p, 0).Some?
  }

  lemma ContainsIff(s: string, p: string)
    ensures Contains(s, p) <==> exists i :: 0 <= i <= |s| && OccursAt(s, p, i)
  {
  }

  lemma OccursInPrefix(s: string, p: string, n: nat, j: nat)
    requires n <= |s| && OccursAt(s[..n], p, j)
    ensures OccursAt(s, p, j)
  {
    assert s[..n][j..j + |p|] == s[j..j + |p|];
  }

  lemma OccursInSuffix(s: string, p: string, n: nat, j: nat)
    requires n <= |s| && OccursAt(s[n..], p, j)
    ensures OccursAt(s, p, n + j)
  {
    assert s[n..][j..j + |p|] == s[n + j..n + j + |p|];
  }

  /** A text holding `p` also holds every prefix of `p`. */
  lemma ContainsPrefixOf(s: string, p: string, q: string)
    requires Contains(s, p) && q <= p
    ensures Contains(s, q)
  {
    var i := Find(s, p, 0).value;
    assert s[i..i + |q|] == s[i..i + |p|][..|q|];
    assert OccursAt(s, q, i);
  }

  /** A text none of whose characters is the first one of `p` does not contain `p`. */
  lemma ContainsNeedsFirstChar(s: string, p: string)
    requires p != [] && forall k :: 0 <= k < |s| ==> s[k] != p[0]
    ensures !Contains(s, p)
  {
    forall i | 0 <= i <= |s|
      ensures !OccursAt(s, p, i)
    {
      if i + |p| <= |s| {
        assert s[i..i + |p|][0] == s[i];
      }
    }
    ContainsIff(s, p);
  }

  lemma ContainsAt(s: string, p: string, i: nat)
    requires OccursAt(s, p, i)
    ensures Contains(s, p)
  {
  }

  /** Text around an occurrence does not hide it. */
  lemma ContainsInConcat(a: string, s: string, b: string, p: string)
    requires Contains(s, p)
    ensures Contains(a + s + b, p)
  {
    var i := Find(s, p, 0).value;
    assert (a + s + b)[|a| + i..|a| + i + |p|] == s[i..i + |p|];
    ContainsAt(a + s + b, p, |a| + i);
  }

  /** Whatever one piece holds, the joined text holds too. */
  lemma {:induction false} ContainsJoinPiece(pieces: seq<string>, sep: string, m: nat, p: string)
    requires m < |pieces| && Contains(pieces[m], p)
    ensures Contains(Join(pieces, sep), p)
    decreases |pieces|
  {
    if |pieces| > 1 {
      var rest := Join(pieces[1..], sep);
      if m == 0 {
        ContainsInConcat([], pieces[0], sep + rest, p);
        assert [] + pieces[0] + (sep + rest) == Join(pieces, sep);
      } else {
        ContainsJoinPiece(pieces[1..], sep, m - 1, p);
        ContainsInConcat(pieces[0] + sep, rest, [], p);
        assert pieces[0] + sep + rest + [] == Join(pieces, sep);
      }
    }
  }

  /** Stripping never removes text that begins and ends with a non-space. */
  lemma ContainsTrim(s: string, p: string)
    requires Contains(s, p) && p != [] && !IsSpace(p[0]) && !IsSpace(p[|p| - 1])
    ensures Contains(Trim(s), p)
  {
    ContainsTrimStart(s, p);
    ContainsTrimEnd(TrimStart(s), p);
  }

  lemma ContainsTrimStart(s: string, p: string)
    requires Contains(s, p) && p != [] && !IsSpace(p[0])
    ensures Contains(TrimStart(s), p)
  {
    var i := Find(s, p, 0).value;
    assert s[i] == p[0] by {
      assert s[i..i + |p|] == p;
    }
    var u := TrimStart(s);
    TrimStartDropsLeadingSpaces(s);
    var k := |s| - |u|;
    assert k <= i;
    assert u[i - k..i - k + |p|] == s[i..i + |p|];
    ContainsAt(u, p, i - k);
  }

  lemma ContainsTrimEnd(u: string, p: string)
    requires Contains(u, p) && p != [] && !IsSpace(p[|p| - 1])
    ensures Contains(TrimEnd(u), p)
  {
    var i := Find(u, p, 0).value;
    assert u[i + |p| - 1] == p[|p| - 1] by {
      assert u[i..i + |p|] == p;
    }
    var t := TrimEnd(u);
    TrimEndDropsTrailingSpaces(u);
    assert |t| >= i + |p|;
    assert t[i..i + |p|] == u[i..i + |p|];
    ContainsAt(t, p, i);
  }

  /** `s.replace(p, r)` for a non-empty `p`: every non-overlapping occurrence,
      scanning left to right, becomes `r`. */
  function ReplaceAll(s: string, p: string, r: string): string
    requires p != []
    decreases |s|
  {
    match Find(s, p, 0)
    case None => s
    case Some(i) => s[..i] + r + ReplaceAll(s[i + |p|..], p, r)
  }

  /** `s.split(p)`: the text between the occurrences that ReplaceAll replaces. */
  function Split(s: string, p: string): (pieces: seq<string>)
    requires p != []
    decreases |s|
    ensures |pieces| >= 1
    ensures forall k :: 0 <= k < |pieces| ==> !Contains(pieces[k], p)
  {
    match Find(s, p, 0)
    case None => [s]
    case Some(i) =>
      var rest := Split(s[i + |p|..], p);
      assert !Contains(s[..i], p) by {
        if Contains(s[..i], p) {
          var j := Find(s[..i], p, 0).value;
          OccursInPrefix(s, p, i, j);
        }
      }
      [s[..i]] + rest
  }

  /** `sep.join(pieces)`. */
  function Join(pieces: seq<string>, sep: string): string {
    if |pieces| == 0 then ""
    else if |pieces| == 1 then pieces[0]
    else pieces[0] + sep + Join(pieces[1..], sep)
  }

  /** ReplaceAll keeps every piece of text between occurrences and puts `r`
      exactly where the occurrences were. */
  lemma {:induction false} ReplaceAllIsJoinOfSplit(s: string, p: string, r: string)
    requires p != []
    ensures ReplaceAll(s, p, r) == Join(Split(s, p), r)
    decreases |s|
  {
    match Find(s, p, 0)
    case None =>
    case Some(i) =>
      var tail := s[i + |p|..];
      var rest := Split(tail, p);
      ReplaceAllIsJoinOfSplit(tail, p, r);
      assert Split(s, p) == [s[..i]] + rest;
      assert ([s[..i]] + rest)[1..] == rest;
      assert Join(Split(s, p), r) == s[..i] + r + Join(rest, r);
  }

  /** Joining the pieces with the pattern gives back the original text. */
  lemma {:induction false} JoinOfSplitRestores(s: string, p: string)
    requires p != []
    ensures Join(Split(s, p), p) == s
    decreases |s|
  {
    match Find(s, p, 0)
    case None =>
    case Some(i) =>
      var tail := s[i + |p|..];
      var rest := Split(tail, p);
      JoinOfSplitRestores(tail, p);
      assert Split(s, p) == [s[..i]] + rest;
      assert ([s[..i]] + rest)[1..] == rest;
      assert Join(Split(s, p), p) == s[..i] + p + Join(rest, p);
      assert s == s[..i] + p + tail;
  }

  /** Only the occurrences change: replacing a pattern by itself is the identity. */
  lemma ReplaceAllSelf(s: string, p: string)
    requires p != []
    ensures ReplaceAll(s, p, p) == s
  {
    ReplaceAllIsJoinOfSplit(s, p, p);
    JoinOfSplitRestores(s, p);
  }

  /** A text without the pattern comes back unchanged. */
  lemma ReplaceAllAbsent(s: string, p: string, r: string)
    requires p != [] && !Contains(s, p)
    ensures ReplaceAll(s, p, r) == s
  {
  }

  /** After a replacement that happened at least once, the replacement text is there. */
  lemma {:induction false} ReplaceAllInserts(s: string, p: string, r: string)
    requires p != [] && Contains(s, p)
    ensures Contains(ReplaceAll(s, p, r), r)
  {
    var i := Find(s, p, 0).value;
    var t := ReplaceAll(s, p, r);
    assert t == s[..i] + r + ReplaceAll(s[i + |p|..], p, r);
    assert OccursAt(t, r, i) by { assert t[i..i + |r|] == r; }
  }

  /** Applies `(pattern, value)` pairs one after another, each on the output of the previous. */
  function ReplaceEach(s: string, pairs: seq<(string, string)>): string
    requires forall k :: 0 <= k < |pairs| ==> pairs[k].0 != []
    decreases |pairs|
  {
    if pairs == [] then s
    else ReplaceEach(ReplaceAll(s, pairs[0].0, pairs[0].1), pairs[1..])
  }

  /** Applying the first `n` pairs and then pair `n` is applying the first `n + 1`. */
  lemma {:induction false} ReplaceEachStep(s: string, pairs: seq<(string, string)>, n: nat)
    requires n < |pairs|
    requires forall k :: 0 <= k < |pairs| ==> pairs[k].0 != []
    ensures ReplaceEach(s, pairs[..n + 1]) == ReplaceAll(ReplaceEach(s, pairs[..n]), pairs[n].0, pairs[n].1)
    decreases n
  {
    if n > 0 {
      var s1 := ReplaceAll(s, pairs[0].0, pairs[0].1);
      ReplaceEachStep(s1, pairs[1..], n - 1);
      assert pairs[..n + 1][1..] == pairs[1..][..n];
      assert pairs[..n][1..] == pairs[1..][..n - 1];
    }
  }

  /** A text that holds none of the patterns comes back unchanged. */
  lemma {:induction false} ReplaceEachAbsent(s: string, pairs: seq<(string, string)>)
    requires forall k :: 0 <= k < |pairs| ==> pairs[k].0 != [] && !Contains(s, pairs[k].0)
    ensures ReplaceEach(s, pairs) == s
  {
    if pairs != [] {
      ReplaceAllAbsent(s, pairs[0].0, pairs[0].1);
      ReplaceEachAbsent(s, pairs[1..]);
    }
  }

  /** A text that lacks `q` is unchanged by pairs whose patterns all start with `q`. */
  lemma ReplaceEachNeedsPrefix(s: string, pairs: seq<(string, string)>, q: string)
    requires q != [] && !Contains(s, q)
    requires forall k :: 0 <= k < |pairs| ==> q <= pairs[k].0
    ensures ReplaceEach(s, pairs) == s
  {
    forall k | 0 <= k < |pairs|
      ensures pairs[k].0 != [] && !Contains(s, pairs[k].0)
    {
      if Contains(s, pairs[k].0) {
        ContainsPrefixOf(s, pairs[k].0, q);
      }
    }
    ReplaceEachAbsent(s, pairs);
  }

  // ---------------------------------------------------------------------
  // Integers as decimal text
  // ---------------------------------------------------------------------

  predicate AllDigits(s: string) {
    forall k :: 0 <= k < |s| ==> IsDigit(s[k])
  }

  function DigitChar(d: nat): char
    requires d < 10
  {
    ('0' as int + d) as char
  }

  function NatToString(n: nat): (r: string)
    ensures r != [] && AllDigits(r)
    decreases n
  {
    if n < 10 then [DigitChar(n)] else NatToString(n / 10) + [DigitChar(n % 10)]
  }

  /** `str(n)` for an int. */
  function IntToString(n: int): string {
    if n < 0 then "-" + NatToString(-n) else NatToString(n)
  }

  function DigitsValue(s: string): nat
    requires AllDigits(s)
  {
    if s == [] then 0 else DigitsValue(s[..|s| - 1]) * 10 + (s[|s| - 1] as int - '0' as int)
  }

  /** `int(s)` on text that is already stripped: an optional sign and at least one digit. */
  function ParseInt(s: string): Option<int> {
    if |s| > 1 && (s[0] == '-' || s[0] == '+') && AllDigits(s[1..]) then
      var v: int := DigitsValue(s[1..]);
      Some(if s[0] == '-' then -v else v)
    else if |s| > 0 && AllDigits(s) then Some(DigitsValue(s))
    else None
  }

  /** `int(s)` for a string, which strips surrounding spaces itself: an
      optional sign and ASCII digits (no `_` separators). */
  function PyInt(s: string): Option<int> {
    ParseInt(Trim(s))
  }

  lemma {:induction false} NatToStringRoundTrip(n: nat)
    ensures DigitsValue(NatToString(n)) == n
    decreases n
  {
    if n >= 10 {
      NatToStringRoundTrip(n / 10);
      var s := NatToString(n);
      assert s[..|s| - 1] == NatToString(n / 10);
    }
  }

  /** A run of digits reads as its value. */
  lemma ParseUnsigned(d: string)
    requires d != [] && AllDigits(d)
    ensures ParseInt(d) == Some(DigitsValue(d))
  {
    assert IsDigit(d[0]);
  }

  /** A minus sign before a run of digits negates its value. */
  lemma ParseNegative(d: string)
    requires d != [] && AllDigits(d)
    ensures ParseInt("-" + d) == Some(0 - DigitsValue(d) as int)
  {
    assert ("-" + d)[1..] == d;
  }

  /** `int(str(n)) == n`. */
  lemma IntToStringRoundTrip(n: int)
    ensures ParseInt(IntToString(n)) == Some(n)
  {
    if n < 0 {
      NatToStringRoundTrip(-n);
      ParseNegative(NatToString(-n));
    } else {
      NatToStringRoundTrip(n);
      ParseUnsigned(NatToString(n));
    }
  }

  lemma IntToStringInjective(a: int, b: int)
    requires IntToString(a) == IntToString(b)
    ensures a == b
  {
    IntToStringRoundTrip(a);
    IntToStringRoundTrip(b);
  }

  lemma IntToStringNoSpace(n: int)
    ensures NoSpace(IntToString(n)) && IntToString(n) != []
  {
    var d := NatToString(if n < 0 then -n else n);
    assert forall k :: 0 <= k < |d| ==> !IsSpace(d[k]);
  }
}
