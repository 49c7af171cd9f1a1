/** Python's `re.sub(pattern, template, text, count=1)` with a replacement
    template string: the template is parsed for backslash escapes and group
    references before any match is looked for, and a malformed template
    raises `re.error`. */
module RegexTemplate {
  import opened Strings
  import opened Patterns

  /** A parsed template: a literal character or a reference to a group. */
  datatype Piece = Lit(c: char) | Group(n: nat)

  predicate IsOctDigit(c: char) { '0' <= c <= '7' }

  function DigitValue(c: char): nat
    requires IsDigit(c)
  {
    c as int - '0' as int
  }

  /** The one-letter escapes the template understands, `\\` included. */
  function SimpleEscape(c: char): Option<char> {
    if c == 'a' then Some(7 as char)
    else if c == 'b' then Some(8 as char)
    else if c == 'f' then Some(12 as char)
    else if c == 'n' then Some('\n')
    else if c == 'r' then Some('\r')
    else if c == 't' then Some('\t')
    else if c == 'v' then Some(11 as char)
    else if c == '\\' then Some('\\')
    else None
  }

  /** Puts `p` in front of a parse that succeeded. */
  function Prepend(p: seq<Piece>, rest: Option<seq<Piece>>): (r: Option<seq<Piece>>)
    ensures r.Some? <==> rest.Some?
  {
    match rest
    case None => None
    case Some(ps) => Some(p + ps)
  }

  /** A reference to group `n`, an error when the pattern has fewer groups. */
  function GroupRef(n: nat, groups: nat, rest: Option<seq<Piece>>): Option<seq<Piece>> {
    if n > groups then None else Prepend([Group(n)], rest)
  }

  /** The template from position `i` on, for a pattern with `groups` groups;
      `None` stands for the `re.error` the parse raises. */
  function ParseFrom(t: string, i: nat, groups: nat): (r: Option<seq<Piece>>)
    requires i <= |t|
    ensures r.Some? ==> forall k :: 0 <= k < |r.value| && r.value[k].Group? ==> r.value[k].n <= groups
    decreases |t| - i, 1
  {
    if i == |t| then Some([])
    else if t[i] != '\\' then Prepend([Lit(t[i])], ParseFrom(t, i + 1, groups))
    else ParseEscape(t, i, groups)
  }

  /** The escape that starts with the backslash at `i`, then the rest. */
  function ParseEscape(t: string, i: nat, groups: nat): (r: Option<seq<Piece>>)
    requires i < |t| && t[i] == '\\'
    ensures r.Some? ==> forall k :: 0 <= k < |r.value| && r.value[k].Group? ==> r.value[k].n <= groups
    decreases |t| - i, 0
  {
    // a backslash at the very end
    if i + 1 == |t| then None
    else
      var c := t[i + 1];
      if c == 'g' then
        // `\g<digits>`
        if i + 2 == |t| || t[i + 2] != '<' then None
        else
          match Find(t, ">", i + 3)
          case None => None
          case Some(e) =>
            var name := t[i + 3..e];
            if name == [] || !AllDigits(name) then None
            else GroupRef(DigitsValue(name), groups, ParseFrom(t, e + 1, groups))
      else if c == '0' then
        // `\0`, `\0o` or `\0oo`: an octal character code
        if i + 2 < |t| && IsOctDigit(t[i + 2]) then
          if i + 3 < |t| && IsOctDigit(t[i + 3]) then
            Prepend([Lit((8 * DigitValue(t[i + 2]) + DigitValue(t[i + 3])) as char)], ParseFrom(t, i + 4, groups))
          else Prepend([Lit(DigitValue(t[i + 2]) as char)], ParseFrom(t, i + 3, groups))
        else Prepend([Lit(0 as char)], ParseFrom(t, i + 2, groups))
      else if IsDigit(c) then
        if i + 2 < |t| && IsDigit(t[i + 2]) then
          if IsOctDigit(c) && IsOctDigit(t[i + 2]) && i + 3 < |t| && IsOctDigit(t[i + 3]) then
            // three octal digits: a character code up to 0o377
            var code := 64 * DigitValue(c) + 8 * DigitValue(t[i + 2]) + DigitValue(t[i + 3]);
            if code > 255 then None else Prepend([Lit(code as char)], ParseFrom(t, i + 4, groups))
          else GroupRef(10 * DigitValue(c) + DigitValue(t[i + 2]), groups, ParseFrom(t, i + 3, groups))
        else GroupRef(DigitValue(c), groups, ParseFrom(t, i + 2, groups))
      else if SimpleEscape(c).Some? then Prepend([Lit(SimpleEscape(c).value)], ParseFrom(t, i + 2, groups))
      // any other ASCII letter is a bad escape
      else if IsLetter(c) then None
      // anything else keeps its backslash
      else Prepend([Lit('\\'), Lit(c)], ParseFrom(t, i + 2, groups))
  }

  function ParseTemplate(t: string, groups: nat): Option<seq<Piece>> {
    ParseFrom(t, 0, groups)
  }

  /** The text a parsed template stands for, `values[n]` being group `n`. */
  function Expand(pieces: seq<Piece>, values: seq<string>): string
    requires forall k :: 0 <= k < |pieces| && pieces[k].Group? ==> pieces[k].n < |values|
  {
    if pieces == [] then ""
    else
      (match pieces[0]
       case Lit(c) => [c]
       case Group(n) => values[n])
      + Expand(pieces[1..], values)
  }

  /** The literal pieces of a text. */
  function Lits(s: string): (r: seq<Piece>)
    ensures |r| == |s| && forall k :: 0 <= k < |r| ==> r[k] == Lit(s[k])
  {
    seq(|s|, k requires 0 <= k < |s| => Lit(s[k]))
  }

  /** The template `\1` + v + `\3` the builders pass to `re.sub`. */
  function ValueTemplate(v: string): string {
    "\\1" + v + "\\3"
  }

  /** `re.sub` with a template parsed for a three-group pattern whose groups
      are the text before the value, the value and the text after it. */
  function SubParsed(pat: Pattern, t: string, parsed: Option<seq<Piece>>): Option<string>
    requires parsed.Some? ==> forall k :: 0 <= k < |parsed.value| && parsed.value[k].Group? ==> parsed.value[k].n <= 3
  {
    match parsed
    case None => None
    case Some(pieces) =>
      match FirstMatch(pat, t, 0)
      case None => Some(t)
      case Some(m) =>
        Some(t[..m.start]
          + Expand(pieces, [t[m.start..m.end], t[m.start..m.valueStart], t[m.valueStart..m.valueEnd], t[m.valueEnd..m.end]])
          + t[m.end..])
  }

  /** `re.sub(pat, rf"\1{v}\3", t, count=1)`; `None` is the `re.error` a
      malformed template raises, even when nothing matches. */
  function SubValueAsWritten(pat: Pattern, t: string, v: string): Option<string> {
    SubParsed(pat, t, ParseTemplate(ValueTemplate(v), 3))
  }

  /** A run of characters without a backslash parses to its literals. */
  lemma {:induction false} ParseLiteralRun(t: string, i: nat, j: nat, groups: nat)
    requires i <= j <= |t| && forall k :: i <= k < j ==> t[k] != '\\'
    ensures ParseFrom(t, i, groups) == Prepend(Lits(t[i..j]), ParseFrom(t, j, groups))
    decreases j - i
  {
    if i < j {
      ParseLiteralRun(t, i + 1, j, groups);
      ParseFromLiteral(t, i, groups);
      assert Lits(t[i..j]) == [Lit(t[i])] + Lits(t[i + 1..j]);
      PrependTwice([Lit(t[i])], Lits(t[i + 1..j]), ParseFrom(t, j, groups));
    } else {
      assert Lits(t[i..j]) == [];
      PrependNothing(ParseFrom(t, j, groups));
    }
  }

  /** A character other than a backslash is a literal. */
  lemma ParseFromLiteral(t: string, i: nat, groups: nat)
    requires i < |t| && t[i] != '\\'
    ensures ParseFrom(t, i, groups) == Prepend([Lit(t[i])], ParseFrom(t, i + 1, groups))
  {
  }

  /** Prepending twice is prepending the concatenation. */
  lemma PrependTwice(a: seq<Piece>, b: seq<Piece>, rest: Option<seq<Piece>>)
    ensures Prepend(a, Prepend(b, rest)) == Prepend(a + b, rest)
  {
    if rest.Some? {
      ConcatAssoc(a, b, rest.value);
    }
  }

  /** Prepending nothing changes nothing. */
  lemma PrependNothing(rest: Option<seq<Piece>>)
    ensures Prepend([], rest) == rest
  {
    if rest.Some? {
      assert [] + rest.value == rest.value;
    }
  }


  /** `\d` at the end of the template, for a group the pattern has. */
  lemma ParseEndGroup(t: string, g: nat)
    requires |t| >= 2 && t[|t| - 2] == '\\' && '1' <= t[|t| - 1] <= '9' && DigitValue(t[|t| - 1]) <= g
    ensures ParseFrom(t, |t| - 2, g) == Some([Group(DigitValue(t[|t| - 1]))])
  {
    assert ParseFrom(t, |t|, g) == Some([]);
    assert [Group(DigitValue(t[|t| - 1]))] + [] == [Group(DigitValue(t[|t| - 1]))];
    assert ParseFrom(t, |t| - 2, g) == ParseEscape(t, |t| - 2, g);
  }

  /** `\d` followed by something other than a digit: a group reference. */
  lemma ParseOneDigitGroup(t: string, i: nat, g: nat)
    requires i + 2 < |t| && t[i] == '\\' && '1' <= t[i + 1] <= '9' && !IsDigit(t[i + 2])
    ensures ParseFrom(t, i, g) == GroupRef(DigitValue(t[i + 1]), g, ParseFrom(t, i + 2, g))
  {
    assert ParseFrom(t, i, g) == ParseEscape(t, i, g);
  }

  /** `\ooo` with three octal digits, the first of them not `0`. */
  lemma ParseOctalEscape(t: string, i: nat, g: nat)
    requires i + 3 < |t| && t[i] == '\\' && '1' <= t[i + 1] <= '7' && IsOctDigit(t[i + 2]) && IsOctDigit(t[i + 3])
    ensures var code := 64 * DigitValue(t[i + 1]) + 8 * DigitValue(t[i + 2]) + DigitValue(t[i + 3]);
      ParseFrom(t, i, g) == if code > 255 then None else Prepend([Lit(code as char)], ParseFrom(t, i + 4, g))
  {
    assert ParseFrom(t, i, g) == ParseEscape(t, i, g);
  }

  /** One of the one-letter escapes. */
  lemma ParseSimpleEscape(t: string, i: nat, g: nat)
    requires i + 1 < |t| && t[i] == '\\' && t[i + 1] != 'g' && !IsDigit(t[i + 1]) && SimpleEscape(t[i + 1]).Some?
    ensures ParseFrom(t, i, g) == Prepend([Lit(SimpleEscape(t[i + 1]).value)], ParseFrom(t, i + 2, g))
  {
    assert ParseFrom(t, i, g) == ParseEscape(t, i, g);
  }

  /** A backslash before an ASCII letter that is not a known escape is a bad
      escape: a value holding one, after a run without backslashes that does
      not start with a digit, makes the whole template fail to parse. */
  lemma BadEscapeRejected(v: string, j: nat)
    requires j + 1 < |v| && v[j] == '\\' && IsLetter(v[j + 1]) && v[j + 1] != 'g' && SimpleEscape(v[j + 1]).None?
    requires forall k :: 0 <= k < j ==> v[k] != '\\'
    requires j == 0 || !IsDigit(v[0])
    ensures ParseTemplate(ValueTemplate(v), 3) == None
  {
    var t := ValueTemplate(v);
    assert forall k :: 0 <= k < |v| ==> t[2 + k] == v[k];
    assert ParseFrom(t, 2 + j, 3) == ParseEscape(t, 2 + j, 3);
    assert ParseFrom(t, 2 + j, 3) == None;
    ParseLiteralRun(t, 2, 2 + j, 3);
    assert t[0] == '\\' && t[1] == '1' && !IsDigit(t[2]);
    ParseOneDigitGroup(t, 0, 3);
  }

  lemma {:induction false} ExpandConcat(a: seq<Piece>, b: seq<Piece>, values: seq<string>)
    requires forall k :: 0 <= k < |a| && a[k].Group? ==> a[k].n < |values|
    requires forall k :: 0 <= k < |b| && b[k].Group? ==> b[k].n < |values|
    ensures Expand(a + b, values) == Expand(a, values) + Expand(b, values)
  {
    if a == [] {
      assert a + b == b;
    } else {
      var head := match a[0] case Lit(c) => [c] case Group(n) => values[n];
      ExpandConcat(a[1..], b, values);
      TailOfConcat(a, b);
      assert Expand(a, values) == head + Expand(a[1..], values);
      ConcatAssoc(head, Expand(a[1..], values), Expand(b, values));
    }
  }

  lemma ConcatAssoc<T>(x: seq<T>, y: seq<T>, z: seq<T>)
    ensures x + (y + z) == (x + y) + z
  {
  }

  lemma TailOfConcat<T>(a: seq<T>, b: seq<T>)
    requires a != []
    ensures (a + b)[0] == a[0] && (a + b)[1..] == a[1..] + b
  {
  }

  lemma {:induction false} ExpandLits(s: string, values: seq<string>)
    ensures Expand(Lits(s), values) == s
  {
    if s != [] {
      ExpandLits(s[1..], values);
      assert Lits(s)[1..] == Lits(s[1..]);
    }
  }

  /** A value without a backslash that does not start with a digit parses as
      group 1, the value's characters, group 3. */
  lemma ParsePlainValue(v: string)
    requires forall k :: 0 <= k < |v| ==> v[k] != '\\'
    requires v == [] || !IsDigit(v[0])
    ensures ParseTemplate(ValueTemplate(v), 3) == Some([Group(1)] + Lits(v) + [Group(3)])
  {
    var t := ValueTemplate(v);
    var n := |t|;
    assert t[0] == '\\' && t[1] == '1';
    assert t[n - 2] == '\\' && t[n - 1] == '3';
    assert ParseFrom(t, n, 3) == Some([]);
    assert ParseFrom(t, n - 2, 3) == ParseEscape(t, n - 2, 3) == GroupRef(3, 3, ParseFrom(t, n, 3));
    assert [Group(3)] + [] == [Group(3)];
    assert ParseFrom(t, n - 2, 3) == Some([Group(3)]);
    assert t[2..n - 2] == v;
    forall k | 2 <= k < n - 2
      ensures t[k] != '\\'
    {
      assert t[k] == v[k - 2];
    }
    ParseLiteralRun(t, 2, n - 2, 3);
    assert ParseFrom(t, 2, 3) == Prepend(Lits(v), Some([Group(3)]));
    assert !IsDigit(t[2]) by {
      if v == [] {
        assert t[2] == '\\';
      } else {
        assert t[2] == v[0];
      }
    }
    assert ParseFrom(t, 2, 3) == Some(Lits(v) + [Group(3)]);
    assert DigitValue('1') == 1;
    assert ParseEscape(t, 0, 3) == GroupRef(1, 3, ParseFrom(t, 2, 3));
    assert ParseFrom(t, 0, 3) == ParseEscape(t, 0, 3);
    assert [Group(1)] + (Lits(v) + [Group(3)]) == [Group(1)] + Lits(v) + [Group(3)];
  }

  /** A text's literals, then one group, expand to the text and that group. */
  lemma ExpandLitsThenGroup(s: string, n: nat, values: seq<string>)
    requires n < |values|
    ensures Expand(Lits(s) + [Group(n)], values) == s + values[n]
  {
    ExpandConcat(Lits(s), [Group(n)], values);
    ExpandLits(s, values);
    assert Expand([Group(n)], values) == values[n];
  }

  /** Group 1, a text's literals, group 3 expand to group 1, the text, group 3. */
  lemma ExpandPlain(v: string, values: seq<string>)
    requires |values| == 4
    ensures Expand([Group(1)] + Lits(v) + [Group(3)], values) == values[1] + v + values[3]
  {
    ExpandConcat([Group(1)] + Lits(v), [Group(3)], values);
    ExpandConcat([Group(1)], Lits(v), values);
    ExpandLits(v, values);
    assert Expand([Group(3)], values) == values[3];
    assert Expand([Group(1)], values) == values[1];
  }

  /** The text before a match, the expanded template and the text after it. */
  lemma SpliceAround(t: string, m: Span, v: string)
    requires WellFormed(t, m)
    ensures t[..m.start] + (t[m.start..m.valueStart] + v + t[m.valueEnd..m.end]) + t[m.end..]
         == Splice(t, m.valueStart, m.valueEnd, v)
  {
    assert t[..m.start] + t[m.start..m.valueStart] == t[..m.valueStart];
    assert t[m.valueEnd..m.end] + t[m.end..] == t[m.valueEnd..];
  }

  /** The parsed plain template substitutes `v` for the value of the first match. */
  lemma SubParsedPlain(pat: Pattern, t: string, v: string)
    ensures SubParsed(pat, t, Some([Group(1)] + Lits(v) + [Group(3)])) == Some(ReplaceValue(pat, t, v))
  {
    var found := FirstMatch(pat, t, 0);
    if found.Some? {
      var m := found.value;
      var values := [t[m.start..m.end], t[m.start..m.valueStart], t[m.valueStart..m.valueEnd], t[m.valueEnd..m.end]];
      ExpandPlain(v, values);
      SpliceAround(t, m, v);
    }
  }

  /** A template without group 1 drops the text before the value: the
      match, from its start to the value's end, gives way to `s`. */
  lemma SubParsedDropsPrefix(pat: Pattern, t: string, s: string)
    requires Matches(pat, t)
    ensures var m := FirstMatch(pat, t, 0).value;
      SubParsed(pat, t, Some(Lits(s) + [Group(3)])) == Some(t[..m.start] + s + t[m.valueEnd..])
  {
    var found := FirstMatch(pat, t, 0);
    var m := found.value;
    var values := [t[m.start..m.end], t[m.start..m.valueStart], t[m.valueStart..m.valueEnd], t[m.valueEnd..m.end]];
    ExpandLitsThenGroup(s, 3, values);
    DropAround(t, m, s);
  }

  lemma DropAround(t: string, m: Span, s: string)
    requires WellFormed(t, m)
    ensures t[..m.start] + (s + t[m.valueEnd..m.end]) + t[m.end..] == t[..m.start] + s + t[m.valueEnd..]
  {
    assert t[m.valueEnd..m.end] + t[m.end..] == t[m.valueEnd..];
  }

  /** For such a value the template does what a literal replacement does:
      the value part of the first match becomes `v`, and the rest is kept. */
  lemma SubValueAgrees(pat: Pattern, t: string, v: string)
    requires forall k :: 0 <= k < |v| ==> v[k] != '\\'
    requires v == [] || !IsDigit(v[0])
    ensures SubValueAsWritten(pat, t, v) == Some(ReplaceValue(pat, t, v))
  {
    ParsePlainValue(v);
    SubParsedPlain(pat, t, v);
  }
}
