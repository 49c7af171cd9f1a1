/** `checklist_builder_v4f1.py`: the pandas builder that turns each StepID
    into a DOM-safe slug and makes the ids unique, and whose reminder also
    names the expected output file and folder. */
module ChecklistBuilderV4f1 {
  import opened Strings
  import opened OrderedDict
  import opened Sheet
  import opened StableSort
  import opened PandasCommon

  // ---------------------------------------------------------------------
  // slugify_step_id
  // ---------------------------------------------------------------------

  /** `re.sub(r"[^A-Za-z0-9]+", "_", s)`, reading `s` left to right;
      `inRun` says the previous character was already replaced. */
  function CollapseFrom(s: string, inRun: bool): string {
    if s == [] then []
    else if IsAlnum(s[0]) then [s[0]] + CollapseFrom(s[1..], false)
    else (if inRun then [] else "_") + CollapseFrom(s[1..], true)
  }

  function Collapse(s: string): string {
    CollapseFrom(s, false)
  }

  /** `s.lstrip(c)`. */
  function DropLeading(s: string, c: char): (r: string)
    ensures |r| <= |s| && r == s[|s| - |r|..]
    ensures forall k :: 0 <= k < |s| - |r| ==> s[k] == c
    ensures r != [] ==> r[0] != c
  {
    if s != [] && s[0] == c then DropLeading(s[1..], c) else s
  }

  /** `s.rstrip(c)`. */
  function DropTrailing(s: string, c: char): (r: string)
    ensures |r| <= |s| && r == s[..|r|]
    ensures forall k :: |r| <= k < |s| ==> s[k] == c
    ensures r != [] ==> r[|r| - 1] != c
  {
    if s != [] && s[|s| - 1] == c then DropTrailing(s[..|s| - 1], c) else s
  }

  /** `s.strip("_")`. */
  function StripUnderscores(s: string): string {
    DropTrailing(DropLeading(s, '_'), '_')
  }

  /** `slugify_step_id(s)`. */
  function SlugifyStepId(s: string): string {
    var t := Trim(s);
    if t == "" then ""
    else
      var u := StripUnderscores(Collapse(t));
      Lower(if u != "" && IsDigit(u[0]) then "step_" + u else u)
  }

  predicate SlugChar(c: char) {
    ('a' <= c <= 'z') || IsDigit(c) || c == '_'
  }

  predicate WordOrUnderscore(s: string) {
    forall k :: 0 <= k < |s| ==> IsAlnum(s[k]) || s[k] == '_'
  }

  predicate NoDoubleUnderscore(s: string) {
    forall k :: 0 <= k < |s| - 1 ==> !(s[k] == '_' && s[k + 1] == '_')
  }

  predicate HasAlnum(s: string) {
    exists k :: 0 <= k < |s| && IsAlnum(s[k])
  }

  /** What `slugify_step_id` promises of its result. */
  predicate IsStepSlug(y: string) {
    && (forall k :: 0 <= k < |y| ==> SlugChar(y[k]))
    && NoDoubleUnderscore(y)
    && (y != [] ==> y[0] != '_' && y[|y| - 1] != '_' && !IsDigit(y[0]))
  }

  lemma HasAlnumConcat(a: string, b: string)
    ensures HasAlnum(a + b) <==> HasAlnum(a) || HasAlnum(b)
  {
    if HasAlnum(a + b) {
      var k :| 0 <= k < |a + b| && IsAlnum((a + b)[k]);
      if k >= |a| {
        assert b[k - |a|] == (a + b)[k];
      }
    }
    if HasAlnum(a) {
      var k :| 0 <= k < |a| && IsAlnum(a[k]);
      assert (a + b)[k] == a[k];
    }
    if HasAlnum(b) {
      var k :| 0 <= k < |b| && IsAlnum(b[k]);
      assert (a + b)[|a| + k] == b[k];
    }
  }

  lemma NoDoubleUnderscoreConcat(a: string, b: string)
    requires NoDoubleUnderscore(a) && NoDoubleUnderscore(b)
    requires a != [] && b != [] ==> a[|a| - 1] != '_' || b[0] != '_'
    ensures NoDoubleUnderscore(a + b)
  {
    forall k | 0 <= k < |a + b| - 1
      ensures !((a + b)[k] == '_' && (a + b)[k + 1] == '_')
    {
      if k + 1 < |a| {
        assert (a + b)[k] == a[k] && (a + b)[k + 1] == a[k + 1];
      } else if k >= |a| {
        assert (a + b)[k] == b[k - |a|] && (a + b)[k + 1] == b[k + 1 - |a|];
      } else {
        assert (a + b)[k] == a[|a| - 1] && (a + b)[k + 1] == b[0];
      }
    }
  }

  /** The collapse keeps letters and digits and turns each run of anything
      else into one `_`; after a replaced character it does not start with `_`. */
  lemma {:induction false} CollapseShape(s: string, inRun: bool)
    ensures var r := CollapseFrom(s, inRun);
      && WordOrUnderscore(r)
      && NoDoubleUnderscore(r)
      && (inRun && r != [] ==> r[0] != '_')
    decreases |s|
  {
    if s != [] {
      CollapseShape(s[1..], !IsAlnum(s[0]));
      var rest := CollapseFrom(s[1..], !IsAlnum(s[0]));
      var head: string := if IsAlnum(s[0]) then [s[0]] else if inRun then [] else "_";
      assert CollapseFrom(s, inRun) == head + rest;
      NoDoubleUnderscoreConcat(head, rest);
    }
  }

  /** The collapse has a letter or digit exactly when its input has one. */
  lemma {:induction false} CollapseHasAlnum(s: string, inRun: bool)
    ensures HasAlnum(CollapseFrom(s, inRun)) <==> HasAlnum(s)
    decreases |s|
  {
    if s != [] {
      CollapseHasAlnum(s[1..], !IsAlnum(s[0]));
      var rest := CollapseFrom(s[1..], !IsAlnum(s[0]));
      var head: string := if IsAlnum(s[0]) then [s[0]] else if inRun then [] else "_";
      assert CollapseFrom(s, inRun) == head + rest;
      HasAlnumConcat(head, rest);
      HasAlnumConcat([s[0]], s[1..]);
      assert s == [s[0]] + s[1..];
      assert HasAlnum(head) <==> IsAlnum(s[0]) by {
        if HasAlnum(head) {
          var k :| 0 <= k < |head| && IsAlnum(head[k]);
        }
      }
      assert HasAlnum([s[0]]) <==> IsAlnum(s[0]) by {
        if HasAlnum([s[0]]) {
          var k :| 0 <= k < 1 && IsAlnum([s[0]][k]);
        }
      }
    }
  }

  /** A slug-shaped text passes through the collapse unchanged. */
  lemma {:induction false} CollapseKeeps(y: string, inRun: bool)
    requires WordOrUnderscore(y) && NoDoubleUnderscore(y)
    requires inRun && y != [] ==> y[0] != '_'
    ensures CollapseFrom(y, inRun) == y
    decreases |y|
  {
    if y != [] {
      CollapseKeeps(y[1..], !IsAlnum(y[0]));
      assert y == [y[0]] + y[1..];
    }
  }

  /** Stripping `_` keeps a substring whose ends are not `_`. */
  lemma StripShape(s: string)
    requires WordOrUnderscore(s) && NoDoubleUnderscore(s)
    ensures var r := StripUnderscores(s);
      && WordOrUnderscore(r) && NoDoubleUnderscore(r)
      && (r != [] ==> IsAlnum(r[0]) && r[|r| - 1] != '_')
  {
    DropLeadingShape(s);
    DropTrailingShape(DropLeading(s, '_'));
  }

  lemma DropLeadingShape(s: string)
    requires WordOrUnderscore(s) && NoDoubleUnderscore(s)
    ensures var a := DropLeading(s, '_');
      && WordOrUnderscore(a) && NoDoubleUnderscore(a)
      && (a != [] ==> IsAlnum(a[0]))
  {
    var a := DropLeading(s, '_');
    SliceKeepsSlugShape(s, |s| - |a|, |s|);
    assert a == s[|s| - |a|..|s|];
  }

  lemma DropTrailingShape(a: string)
    requires WordOrUnderscore(a) && NoDoubleUnderscore(a) && (a != [] ==> IsAlnum(a[0]))
    ensures var r := DropTrailing(a, '_');
      && WordOrUnderscore(r) && NoDoubleUnderscore(r)
      && (r != [] ==> IsAlnum(r[0]) && r[|r| - 1] != '_')
  {
    var r := DropTrailing(a, '_');
    SliceKeepsSlugShape(a, 0, |r|);
    assert r == a[0..|r|];
    if r != [] {
      assert r[0] == a[0];
    }
  }

  lemma SliceKeepsSlugShape(s: string, lo: nat, hi: nat)
    requires lo <= hi <= |s| && WordOrUnderscore(s) && NoDoubleUnderscore(s)
    ensures WordOrUnderscore(s[lo..hi]) && NoDoubleUnderscore(s[lo..hi])
  {
    var r := s[lo..hi];
    forall k | 0 <= k < |r| ensures IsAlnum(r[k]) || r[k] == '_' {
      assert r[k] == s[lo + k];
    }
    forall k | 0 <= k < |r| - 1 ensures !(r[k] == '_' && r[k + 1] == '_') {
      assert r[k] == s[lo + k] && r[k + 1] == s[lo + k + 1];
    }
  }

  /** Only `_` is stripped, so every letter and digit stays. */
  lemma StripHasAlnum(s: string)
    ensures HasAlnum(StripUnderscores(s)) <==> HasAlnum(s)
  {
    DropLeadingHasAlnum(s);
    DropTrailingHasAlnum(DropLeading(s, '_'));
  }

  lemma DropLeadingHasAlnum(s: string)
    ensures HasAlnum(DropLeading(s, '_')) <==> HasAlnum(s)
  {
    var a := DropLeading(s, '_');
    HasAlnumOutside(s, |s| - |a|, |s|);
  }

  lemma DropTrailingHasAlnum(a: string)
    ensures HasAlnum(DropTrailing(a, '_')) <==> HasAlnum(a)
  {
    var r := DropTrailing(a, '_');
    HasAlnumOutside(a, 0, |r|);
    assert a[0..|r|] == r;
  }

  /** Cutting off letters and digits nowhere keeps whether there are any. */
  lemma HasAlnumOutside(s: string, lo: nat, hi: nat)
    requires lo <= hi <= |s|
    requires forall k :: 0 <= k < lo ==> s[k] == '_'
    requires forall k :: hi <= k < |s| ==> s[k] == '_'
    ensures HasAlnum(s[lo..hi]) <==> HasAlnum(s)
  {
    var t := s[lo..hi];
    if HasAlnum(t) {
      var k :| 0 <= k < |t| && IsAlnum(t[k]);
      assert t[k] == s[lo + k];
    }
    if HasAlnum(s) {
      var k :| 0 <= k < |s| && IsAlnum(s[k]);
      assert lo <= k < hi;
      assert t[k - lo] == s[k];
    }
  }

  lemma LowerKeepsShape(y: string)
    requires WordOrUnderscore(y) && NoDoubleUnderscore(y)
    ensures |Lower(y)| == |y|
    ensures forall k :: 0 <= k < |y| ==>
      SlugChar(Lower(y)[k]) && (Lower(y)[k] == '_' <==> y[k] == '_') && (IsDigit(Lower(y)[k]) <==> IsDigit(y[k]))
    ensures NoDoubleUnderscore(Lower(y))
  {
  }

  /** The text the final `lower()` is applied to, with the `step_` prefix. */
  lemma PrefixedShape(u: string)
    requires WordOrUnderscore(u) && NoDoubleUnderscore(u)
    requires u != [] ==> IsAlnum(u[0]) && u[|u| - 1] != '_'
    ensures var v := if u != "" && IsDigit(u[0]) then "step_" + u else u;
      IsStepSlug(Lower(v)) && |Lower(v)| >= |u|
  {
    var v := if u != "" && IsDigit(u[0]) then "step_" + u else u;
    if u != "" && IsDigit(u[0]) {
      NoDoubleUnderscoreConcat("step_", u);
      assert WordOrUnderscore(v) by {
        forall k | 0 <= k < |v|
          ensures IsAlnum(v[k]) || v[k] == '_'
        {
          if k >= 5 {
            assert v[k] == u[k - 5];
          }
        }
      }
    }
    LowerKeepsShape(v);
  }

  /** The slug has only `[a-z0-9_]`, no `_` at either end, no `__`, and
      never a leading digit. */
  lemma SlugifyStepIdShape(s: string)
    ensures IsStepSlug(SlugifyStepId(s))
  {
    var t := Trim(s);
    if t != "" {
      var c := Collapse(t);
      CollapseShape(t, false);
      StripShape(c);
      PrefixedShape(StripUnderscores(c));
    }
  }

  /** What is left after collapsing and stripping starts with a letter or digit. */
  lemma CollapsedStartsAlnum(t: string)
    ensures var u := StripUnderscores(Collapse(t)); u != "" ==> IsAlnum(u[0])
  {
    CollapseShape(t, false);
    StripShape(Collapse(t));
  }

  /** The slug is empty exactly when the input has no ASCII letter or digit. */
  lemma SlugifyStepIdEmptyIff(s: string)
    ensures SlugifyStepId(s) == "" <==> !HasAlnum(s)
  {
    var t := Trim(s);
    TrimKeepsAlnum(s);
    if t != "" {
      var c := Collapse(t);
      CollapseHasAlnum(t, false);
      var u := StripUnderscores(c);
      StripHasAlnum(c);
      CollapsedStartsAlnum(t);
      if u != "" {
        assert HasAlnum(u) by { assert IsAlnum(u[0]); }
      }
      var v := if u != "" && IsDigit(u[0]) then "step_" + u else u;
      assert |Lower(v)| == |v| >= |u|;
    }
  }

  /** Stripping spaces keeps every letter and digit. */
  lemma TrimKeepsAlnum(s: string)
    ensures HasAlnum(Trim(s)) <==> HasAlnum(s)
  {
    var u := TrimStart(s);
    TrimStartDropsLeadingSpaces(s);
    var t := TrimEnd(u);
    TrimEndDropsTrailingSpaces(u);
    var off := |s| - |u|;
    assert t == s[off..off + |t|];
    forall k | off + |t| <= k < |s|
      ensures IsSpace(s[k])
    {
      assert s[k] == u[k - off];
    }
    SpacesAroundKeepAlnum(s, off, off + |t|);
  }

  /** A slice with only spaces outside it has a letter or digit exactly when the whole does. */
  lemma SpacesAroundKeepAlnum(s: string, lo: nat, hi: nat)
    requires lo <= hi <= |s|
    requires forall k :: 0 <= k < lo ==> IsSpace(s[k])
    requires forall k :: hi <= k < |s| ==> IsSpace(s[k])
    ensures HasAlnum(s[lo..hi]) <==> HasAlnum(s)
  {
    if HasAlnum(s) {
      var k :| 0 <= k < |s| && IsAlnum(s[k]);
      assert !IsSpace(s[k]);
      assert s[lo..hi][k - lo] == s[k];
    }
    if HasAlnum(s[lo..hi]) {
      var k :| 0 <= k < hi - lo && IsAlnum(s[lo..hi][k]);
      assert s[lo..hi][k] == s[lo + k];
    }
  }

  /** A slug comes back unchanged. */
  lemma SlugifyStepIdFixes(y: string)
    requires IsStepSlug(y)
    ensures SlugifyStepId(y) == y
  {
    TrimNoSpace(y);
    if y != "" {
      assert WordOrUnderscore(y);
      CollapseKeeps(y, false);
      assert DropLeading(y, '_') == y;
      assert DropTrailing(y, '_') == y;
      LowerKeepsSlug(y);
      calc {
        SlugifyStepId(y);
        Lower(StripUnderscores(Collapse(y)));
        Lower(y);
        y;
      }
    }
  }

  lemma LowerKeepsSlug(y: string)
    requires forall k :: 0 <= k < |y| ==> SlugChar(y[k])
    ensures Lower(y) == y
  {
    assert forall k :: 0 <= k < |y| ==> LowerChar(y[k]) == y[k];
  }

  /** Slugifying twice is slugifying once. */
  lemma SlugifyStepIdIdempotent(s: string)
    ensures SlugifyStepId(SlugifyStepId(s)) == SlugifyStepId(s)
  {
    SlugifyStepIdShape(s);
    SlugifyStepIdFixes(SlugifyStepId(s));
  }

  // ---------------------------------------------------------------------
  // ensure_unique_id
  // ---------------------------------------------------------------------

  /** `f"{candidate}_{i}"`. */
  function Suffixed(candidate: string, i: int): string {
    candidate + "_" + IntToString(i)
  }

  lemma SuffixedInjective(candidate: string, i: int, j: int)
    requires Suffixed(candidate, i) == Suffixed(candidate, j)
    ensures i == j
  {
    var n := |candidate| + 1;
    assert Suffixed(candidate, i)[n..] == IntToString(i);
    assert Suffixed(candidate, j)[n..] == IntToString(j);
    IntToStringInjective(i, j);
  }

  /** While `candidate_2`, ..., `candidate_{i-1}` are all taken, `used` has
      at least `i - 2` members: this is why the search ends. */
  lemma {:induction false} TakenSuffixesBound(candidate: string, used: set<string>, i: nat)
    requires 2 <= i
    requires forall k :: 2 <= k < i ==> Suffixed(candidate, k) in used
    ensures i - 2 <= |used|
    decreases i
  {
    if i > 2 {
      var last := Suffixed(candidate, i - 1);
      var rest := used - {last};
      forall k | 2 <= k < i - 1
        ensures Suffixed(candidate, k) in rest
      {
        if Suffixed(candidate, k) == last {
          SuffixedInjective(candidate, k, i - 1);
        }
      }
      TakenSuffixesBound(candidate, rest, i - 1);
    }
  }

  /** The `while` loop's `i`: the least `n >= i` whose suffixed name is free. */
  function FirstFreeSuffix(candidate: string, used: set<string>, i: nat): (n: nat)
    requires 2 <= i
    requires forall k :: 2 <= k < i ==> Suffixed(candidate, k) in used
    ensures i <= n && Suffixed(candidate, n) !in used
    ensures forall k :: 2 <= k < n ==> Suffixed(candidate, k) in used
    decreases |used| + 2 - i
  {
    TakenSuffixesBound(candidate, used, i);
    if Suffixed(candidate, i) !in used then i
    else
      TakenSuffixesBound(candidate, used, i + 1);
      FirstFreeSuffix(candidate, used, i + 1)
  }

  /** The id `ensure_unique_id(candidate, used)` returns. */
  function UniqueId(candidate: string, used: set<string>): string {
    if candidate !in used then candidate else Suffixed(candidate, FirstFreeSuffix(candidate, used, 2))
  }

  /** The id returned was not in use: the candidate itself when it is free,
      otherwise `candidate_n` for the least `n >= 2` that is free. */
  lemma UniqueIdIsLeastFree(candidate: string, used: set<string>)
    ensures UniqueId(candidate, used) !in used
    ensures candidate !in used ==> UniqueId(candidate, used) == candidate
    ensures candidate in used ==>
      exists n: nat :: 2 <= n && UniqueId(candidate, used) == Suffixed(candidate, n)
        && forall k :: 2 <= k < n ==> Suffixed(candidate, k) in used
  {
    if candidate in used {
      var n := FirstFreeSuffix(candidate, used, 2);
      assert UniqueId(candidate, used) == Suffixed(candidate, n);
    }
  }

  /** The `used_ids` set that `ensure_unique_id` adds to. */
  class UsedIds {
    var ids: set<string>

    constructor()
      ensures ids == {}
    {
      ids := {};
    }

    /** `ensure_unique_id(candidate, self.ids)`. */
    method EnsureUnique(candidate: string) returns (final: string)
      modifies this
      ensures final == UniqueId(candidate, old(ids))
      ensures final !in old(ids) && ids == old(ids) + {final}
    {
      var used := ids;
      UniqueIdIsLeastFree(candidate, used);
      if candidate !in used {
        ids := used + {candidate};
        return candidate;
      }
      var i := 2;
      while Suffixed(candidate, i) in used
        invariant 2 <= i
        invariant forall k :: 2 <= k < i ==> Suffixed(candidate, k) in used
        invariant FirstFreeSuffix(candidate, used, i) == FirstFreeSuffix(candidate, used, 2)
        decreases |used| + 2 - i
      {
        TakenSuffixesBound(candidate, used, i + 1);
        i := i + 1;
      }
      final := Suffixed(candidate, i);
      ids := used + {final};
    }
  }

  /** A StepID of "Step A" becomes `step_a`. */
  lemma SlugifyStepIdExample(s: string)
    requires s == "Step A"
    ensures SlugifyStepId(s) == "step_a"
  {
    assert TrimStart(s) == s;
    assert TrimEnd(s) == s;
    assert Trim(s) == s;
    CollapseStepA(s);
    StripStepA("Step_A");
    LowerStepA("Step_A");
  }

  lemma LowerStepA(c: string)
    requires c == "Step_A"
    ensures Lower(c) == "step_a"
  {
    var l := Lower(c);
    assert l[0] == 's' && l[1] == 't' && l[2] == 'e' && l[3] == 'p' && l[4] == '_' && l[5] == 'a';
  }

  lemma StripStepA(c: string)
    requires c == "Step_A"
    ensures StripUnderscores(c) == c && !IsDigit(c[0])
  {
    assert DropLeading(c, '_') == c;
    assert DropTrailing(c, '_') == c;
  }

  lemma CollapseStepA(s: string)
    requires s == "Step A"
    ensures Collapse(s) == "Step_A"
  {
    assert s[1..] == "tep A" && s[2..] == "ep A" && s[3..] == "p A" && s[4..] == " A" && s[5..] == "A";
    assert CollapseFrom("A", true) == "A";
    assert CollapseFrom(" A", false) == "_A";
    assert CollapseFrom("p A", false) == "p_A";
    assert CollapseFrom("ep A", false) == "ep_A";
    assert CollapseFrom("tep A", false) == "tep_A";
  }

  /** Two rows whose slug is `step_a` get `step_a` and `step_a_2`. */
  lemma RepeatedStepIdsExample(c: string)
    requires c == "step_a"
    ensures UniqueId(c, {}) == "step_a"
    ensures UniqueId(c, {c}) == "step_a_2"
  {
    assert IntToString(2) == "2";
    assert Suffixed(c, 2) == "step_a_2";
    assert Suffixed(c, 2) !in {c};
    assert FirstFreeSuffix(c, {c}, 2) == 2;
  }

  // ---------------------------------------------------------------------
  // load_steps_from_excel
  // ---------------------------------------------------------------------

  /** RAW ID: the stripped StepID cell, or "". */
  function RawStepId(r: Row, cols: StepColumns): string {
    if Given(r, cols.stepId) then Trim(TextOf(r, cols.stepId)) else ""
  }

  /** SAFE ID before de-duplication: `slugify_step_id(raw) or f"step_{order}"`. */
  function SafeCandidate(r: Row, cols: StepColumns, order: int): (c: string)
    ensures c != ""
  {
    var slug := SlugifyStepId(RawStepId(r, cols));
    if slug != "" then slug else "step_" + IntToString(order)
  }

  /** The REMINDER block's cells, in order. */
  function ReminderFields(cols: StepColumns): seq<(string, Option<nat>)> {
    [("Inputs: ", cols.input), ("OutFile: ", cols.outFile), ("OutFolder: ", cols.outFolder),
     ("Hints: ", cols.hints), ("Phase: ", cols.phase)]
  }

  /** The step object of one row, given its final id. */
  function StepOf(cols: StepColumns, r: Row, idx: nat, id: string): Step {
    var raw := RawStepId(r, cols);
    Step(
      id, OrderOf(r, cols.order, idx),
      if Given(r, cols.title) then Trim(TextOf(r, cols.title)) else if Trim(raw) != "" then Trim(raw) else id,
      Command(r, cols),
      Reminder(r, ReminderFields(cols)),
      "")
  }

  /** The steps emitted so far and the `used_ids` set. */
  datatype Progress = Progress(steps: seq<Step>, used: set<string>)

  /** What the loop body takes from one data row: nothing from an empty row;
      otherwise the SAFE ID candidate and the step still to be given its id,
      with `titleIsId` when the title falls back to that id. */
  datatype RowPlan = Skip | Take(candidate: string, proto: Step, titleIsId: bool)

  function Plan(f: Frame, cols: StepColumns, idx: nat): RowPlan
    requires idx < |f.rows|
  {
    var r := f.rows[idx];
    if BlankRow(f, r) then Skip
    else
      Take(SafeCandidate(r, cols, OrderOf(r, cols.order, idx)), StepOf(cols, r, idx, ""),
           !Given(r, cols.title) && Trim(RawStepId(r, cols)) == "")
  }

  /** The planned step once its id is known. */
  function Named(proto: Step, titleIsId: bool, id: string): Step {
    proto.(id := id, title := if titleIsId then id else proto.title)
  }

  /** Naming the planned step gives the step `StepOf` builds with that id. */
  lemma NamedIsStepOf(cols: StepColumns, r: Row, idx: nat, id: string)
    ensures Named(StepOf(cols, r, idx, ""), !Given(r, cols.title) && Trim(RawStepId(r, cols)) == "", id)
      == StepOf(cols, r, idx, id)
  {
  }

  /** One pass of the loop body: `ensure_unique_id` on the candidate, then
      the step is appended and its id recorded as used. */
  function Apply(p: Progress, plan: RowPlan): Progress {
    match plan
    case Skip => p
    case Take(c, proto, titleIsId) =>
      var id := UniqueId(c, p.used);
      Progress(p.steps + [Named(proto, titleIsId, id)], p.used + {id})
  }

  /** One pass of the loop body over the row with data-row index `idx`. */
  function Next(p: Progress, cols: StepColumns, f: Frame, idx: nat): Progress
    requires idx < |f.rows|
  {
    Apply(p, Plan(f, cols, idx))
  }

  function Plans(f: Frame, cols: StepColumns): seq<RowPlan> {
    seq(|f.rows|, i requires 0 <= i < |f.rows| => Plan(f, cols, i))
  }

  /** The loop over the planned rows, in order. */
  function Run(plans: seq<RowPlan>): Progress
    decreases |plans|
  {
    if plans == [] then Progress([], {}) else Apply(Run(plans[..|plans| - 1]), plans[|plans| - 1])
  }

  /** The progress after the first `n` data rows. */
  function StepsUpTo(f: Frame, cols: StepColumns, n: nat): Progress
    requires n <= |f.rows|
  {
    Run(Plans(f, cols)[..n])
  }

  /** Each further row is one more pass of the loop body. */
  lemma StepsUpToNext(f: Frame, cols: StepColumns, n: nat)
    requires n < |f.rows|
    ensures StepsUpTo(f, cols, n + 1) == Next(StepsUpTo(f, cols, n), cols, f, n)
  {
    var plans := Plans(f, cols);
    assert plans[..n + 1][..n] == plans[..n];
  }

  /** Every id handed out is non-empty, is recorded as used, and differs from all others. */
  predicate IdsUnique(p: Progress) {
    && (forall k :: 0 <= k < |p.steps| ==> p.steps[k].id in p.used && p.steps[k].id != "")
    && DistinctBy(p.steps, IdOf)
  }

  lemma ApplyKeepsIdsUnique(p: Progress, plan: RowPlan)
    requires IdsUnique(p) && (plan.Take? ==> plan.candidate != "")
    ensures IdsUnique(Apply(p, plan))
  {
    if plan.Take? {
      var id := UniqueId(plan.candidate, p.used);
      UniqueIdIsLeastFree(plan.candidate, p.used);
      var steps' := p.steps + [Named(plan.proto, plan.titleIsId, id)];
      assert id != "";
      forall i, j | 0 <= i < j < |steps'|
        ensures IdOf(steps'[i]) != IdOf(steps'[j])
      {
        assert steps'[i] == p.steps[i];
        if j < |p.steps| {
          assert steps'[j] == p.steps[j];
        }
      }
    }
  }

  lemma {:induction false} RunIds(plans: seq<RowPlan>)
    requires forall i :: 0 <= i < |plans| && plans[i].Take? ==> plans[i].candidate != ""
    ensures IdsUnique(Run(plans))
    decreases |plans|
  {
    if plans != [] {
      var init := plans[..|plans| - 1];
      RunIds(init);
      ApplyKeepsIdsUnique(Run(init), plans[|plans| - 1]);
    }
  }

  /** The ids of all steps are non-empty and pairwise distinct, whatever the
      StepID cells hold, and each is in the used set. */
  lemma StepsUpToIds(f: Frame, cols: StepColumns, n: nat)
    requires n <= |f.rows|
    ensures IdsUnique(StepsUpTo(f, cols, n))
  {
    RunIds(Plans(f, cols)[..n]);
  }

  /** Sorting keeps the ids non-empty and distinct. */
  lemma SortedIdsUnique(steps: seq<Step>)
    requires DistinctBy(steps, IdOf) && forall k :: 0 <= k < |steps| ==> steps[k].id != ""
    ensures DistinctBy(SortSteps(steps), IdOf)
    ensures forall s :: s in SortSteps(steps) ==> s.id != ""
  {
    SortByDistinctBy(steps, StepOrder, IntLess, IdOf);
    forall s | s in SortSteps(steps)
      ensures s.id != ""
    {
      assert s in multiset(steps);
    }
  }

  /** One pass of the loop body, asking `used` for the id. */
  method Advance(f: Frame, cols: StepColumns, idx: nat, collected: seq<Step>, used: UsedIds) returns (collected': seq<Step>)
    requires idx < |f.rows|
    modifies used
    ensures Progress(collected', used.ids) == Next(Progress(collected, old(used.ids)), cols, f, idx)
  {
    var row := f.rows[idx];
    collected' := collected;
    if !BlankRow(f, row) {
      var order := OrderOf(row, cols.order, idx);
      var safe := used.EnsureUnique(SafeCandidate(row, cols, order));
      collected' := collected + [StepOf(cols, row, idx, safe)];
      NamedIsStepOf(cols, row, idx, safe);
    }
  }

  /** The row loop, which threads the used-id set through the rows. */
  method CollectUniqueSteps(f: Frame, cols: StepColumns) returns (collected: seq<Step>)
    ensures collected == StepsUpTo(f, cols, |f.rows|).steps
  {
    var used := new UsedIds();
    collected := [];
    var idx := 0;
    while idx < |f.rows|
      invariant idx <= |f.rows|
      invariant Progress(collected, used.ids) == StepsUpTo(f, cols, idx)
    {
      StepsUpToNext(f, cols, idx);
      collected := Advance(f, cols, idx, collected, used);
      idx := idx + 1;
    }
  }

  /** `load_steps_from_excel` after the sheet is read: the row loop, then
      the stable sort by order. */
  method LoadSteps(f: Frame) returns (steps: seq<Step>)
    ensures steps == SortSteps(StepsUpTo(f, ResolveColumns(f.columns), |f.rows|).steps)
    ensures SortedBy(steps, StepOrder, IntLess)
    ensures DistinctBy(steps, IdOf)
    ensures forall s :: s in steps ==> s.id != ""
  {
    var cols := ResolveColumns(f.columns);
    var collected := CollectUniqueSteps(f, cols);
    steps := SortSteps(collected);
    LoadedSteps(f, cols);
  }

  /** The sorted steps are ordered and their ids are non-empty and distinct. */
  lemma LoadedSteps(f: Frame, cols: StepColumns)
    ensures var steps := SortSteps(StepsUpTo(f, cols, |f.rows|).steps);
      && SortedBy(steps, StepOrder, IntLess)
      && DistinctBy(steps, IdOf)
      && forall s :: s in steps ==> s.id != ""
  {
    var collected := StepsUpTo(f, cols, |f.rows|).steps;
    StepsUpToIds(f, cols, |f.rows|);
    SortStepsSorts(collected);
    SortedIdsUnique(collected);
  }

  /** The loop body only appends, and a row that is not empty appends one
      step carrying that row's order. */
  lemma NextAppends(p: Progress, cols: StepColumns, f: Frame, idx: nat)
    requires idx < |f.rows|
    ensures p.steps <= Next(p, cols, f, idx).steps
    ensures !BlankRow(f, f.rows[idx]) ==>
      |Next(p, cols, f, idx).steps| == |p.steps| + 1
      && Next(p, cols, f, idx).steps[|p.steps|].order == OrderOf(f.rows[idx], cols.order, idx)
    ensures BlankRow(f, f.rows[idx]) ==> Next(p, cols, f, idx).steps == p.steps
  {
  }

  /** Every row that is not empty gives a step with that row's order. */
  lemma StepsUpToRows(f: Frame, cols: StepColumns, n: nat)
    requires n <= |f.rows|
    ensures forall i :: 0 <= i < n && !BlankRow(f, f.rows[i]) ==>
      exists k :: 0 <= k < |StepsUpTo(f, cols, n).steps| && StepsUpTo(f, cols, n).steps[k].order == OrderOf(f.rows[i], cols.order, i)
  {
    var plans := Plans(f, cols)[..n];
    var steps := StepsUpTo(f, cols, n).steps;
    assert steps == Run(plans).steps;
    RunKeepsTaken(plans);
    forall i | 0 <= i < n && !BlankRow(f, f.rows[i])
      ensures exists k :: 0 <= k < |steps| && steps[k].order == OrderOf(f.rows[i], cols.order, i)
    {
      assert plans[i] == Plan(f, cols, i);
      assert plans[i].Take? && plans[i].proto.order == OrderOf(f.rows[i], cols.order, i);
      assert Emitted(Run(plans), plans[i].proto.order);
      var k :| 0 <= k < |steps| && steps[k].order == plans[i].proto.order;
    }
  }

  /** Some step emitted so far has the given order. */
  ghost predicate Emitted(p: Progress, order: int) {
    exists k :: 0 <= k < |p.steps| && p.steps[k].order == order
  }

  /** Every planned step is emitted, keeping its order. */
  lemma {:induction false} RunKeepsTaken(plans: seq<RowPlan>)
    ensures forall i :: 0 <= i < |plans| && plans[i].Take? ==> Emitted(Run(plans), plans[i].proto.order)
    decreases |plans|
  {
    if plans != [] {
      var init := plans[..|plans| - 1];
      var last := plans[|plans| - 1];
      RunKeepsTaken(init);
      var p := Run(init);
      var q := Run(plans);
      assert q == Apply(p, last);
      forall i | 0 <= i < |plans| && plans[i].Take?
        ensures Emitted(q, plans[i].proto.order)
      {
        if i < |plans| - 1 {
          assert init[i] == plans[i];
          assert Emitted(p, init[i].proto.order);
          var k :| 0 <= k < |p.steps| && p.steps[k].order == init[i].proto.order;
          assert q.steps[k] == p.steps[k];
        } else {
          var id := UniqueId(last.candidate, p.used);
          assert q.steps == p.steps + [Named(last.proto, last.titleIsId, id)];
          assert q.steps[|p.steps|].order == last.proto.order;
        }
      }
    }
  }

  /** The title is the title cell, else the raw id, else the safe id; the
      reminder is empty exactly when none of its five cells is given. */
  lemma StepOfFields(cols: StepColumns, r: Row, idx: nat, id: string)
    ensures var s := StepOf(cols, r, idx, id);
      && (!Given(r, cols.title) && RawStepId(r, cols) != "" ==> s.title == RawStepId(r, cols))
      && (!Given(r, cols.title) && RawStepId(r, cols) == "" ==> s.title == id)
      && (s.reminder == "" <==> !Given(r, cols.input) && !Given(r, cols.outFile) && !Given(r, cols.outFolder)
                                && !Given(r, cols.hints) && !Given(r, cols.phase))
      && Trim(s.command) == s.command
  {
    StepOfReminder(cols, r);
    CommandShape(r, cols);
    if Given(r, cols.stepId) {
      TrimIdempotent(TextOf(r, cols.stepId));
    }
  }

  /** The reminder is empty exactly when its five cells are missing. */
  lemma StepOfReminder(cols: StepColumns, r: Row)
    ensures Reminder(r, ReminderFields(cols)) == "" <==>
      !Given(r, cols.input) && !Given(r, cols.outFile) && !Given(r, cols.outFolder)
      && !Given(r, cols.hints) && !Given(r, cols.phase)
  {
    var fields := ReminderFields(cols);
    assert fields[0].1 == cols.input && fields[1].1 == cols.outFile && fields[2].1 == cols.outFolder
      && fields[3].1 == cols.hints && fields[4].1 == cols.phase;
    assert LabelsStartVisible(fields);
    ReminderEmptyIff(r, fields);
  }

  /** When the StepID cell has no letter or digit the candidate names the order. */
  lemma SafeCandidateFallback(r: Row, cols: StepColumns, order: int)
    requires !HasAlnum(RawStepId(r, cols))
    ensures SafeCandidate(r, cols, order) == "step_" + IntToString(order)
  {
    SlugifyStepIdEmptyIff(RawStepId(r, cols));
  }

  // ---------------------------------------------------------------------
  // build_default_meta
  // ---------------------------------------------------------------------

  const DefaultAppTitle := "SOP Build Checklist v5"
  const DefaultRepo := "/workspaces/EdxBuild"
  const DefaultImgFolder := "SOP/images/SE/Distro/Quo2Ord"

  function MetaDefaults(stem: string, sheet: Dict): seq<(string, string)> {
    var appTitle := GetOr(sheet, "APP_TITLE", DefaultAppTitle);
    [ ("APP_TITLE", DefaultAppTitle), ("APP_TITLE_VISIBLE", appTitle), ("META_REPO", DefaultRepo),
      ("META_ENTITY", ""), ("META_SOP_DEFAULT", ""), ("META_IMG_FOLDER_DEF", DefaultImgFolder),
      ("META_WEBROOT", ""), ("RUN_LABEL_DEFAULT", stem) ]
  }

  lemma MetaDefaultsDistinct(stem: string, sheet: Dict)
    ensures DistinctKeys(MetaDefaults(stem, sheet))
  {
    var d := MetaDefaults(stem, sheet);
    assert DistinctKeys(d);
  }

  /** `build_default_meta(spec_path, excel_meta)` with `stem` the spec file's stem. */
  function DefaultMeta(stem: string, sheet: Dict): Dict {
    WithFallbacks(sheet, MetaDefaults(stem, sheet))
  }

  /** The result always has exactly the eight placeholder keys, in order. */
  lemma DefaultMetaKeys(stem: string, sheet: Dict)
    ensures Keys(DefaultMeta(stem, sheet)) == ["APP_TITLE", "APP_TITLE_VISIBLE", "META_REPO", "META_ENTITY",
                     "META_SOP_DEFAULT", "META_IMG_FOLDER_DEF", "META_WEBROOT", "RUN_LABEL_DEFAULT"]
    ensures DistinctKeys(DefaultMeta(stem, sheet))
  {
    var d := MetaDefaults(stem, sheet);
    MetaDefaultsDistinct(stem, sheet);
    WithFallbacksGet(sheet, d, 0);
  }

  /** A title key the sheet lacks takes its default, the visible title
      falling back to the title. */
  lemma DefaultMetaTitleFallbacks(stem: string, sheet: Dict)
    ensures var m := DefaultMeta(stem, sheet);
      && (Get(sheet, "APP_TITLE").None? ==> Get(m, "APP_TITLE") == Some(DefaultAppTitle))
      && (Get(sheet, "APP_TITLE_VISIBLE").None? ==> Get(m, "APP_TITLE_VISIBLE") == Get(m, "APP_TITLE"))
      && (Get(sheet, "META_REPO").None? ==> Get(m, "META_REPO") == Some(DefaultRepo))
      && (Get(sheet, "META_ENTITY").None? ==> Get(m, "META_ENTITY") == Some(""))
  {
    var d := MetaDefaults(stem, sheet);
    WithFallbacksAt(sheet, d, 0);
    WithFallbacksAt(sheet, d, 1);
    WithFallbacksAt(sheet, d, 2);
    WithFallbacksAt(sheet, d, 3);
  }

  /** The other keys the sheet lacks take their defaults, the run label the
      spec stem. */
  lemma DefaultMetaOtherFallbacks(stem: string, sheet: Dict)
    ensures var m := DefaultMeta(stem, sheet);
      && (Get(sheet, "META_SOP_DEFAULT").None? ==> Get(m, "META_SOP_DEFAULT") == Some(""))
      && (Get(sheet, "META_IMG_FOLDER_DEF").None? ==> Get(m, "META_IMG_FOLDER_DEF") == Some(DefaultImgFolder))
      && (Get(sheet, "META_WEBROOT").None? ==> Get(m, "META_WEBROOT") == Some(""))
      && (Get(sheet, "RUN_LABEL_DEFAULT").None? ==> Get(m, "RUN_LABEL_DEFAULT") == Some(stem))
  {
    var d := MetaDefaults(stem, sheet);
    WithFallbacksAt(sheet, d, 4);
    WithFallbacksAt(sheet, d, 5);
    WithFallbacksAt(sheet, d, 6);
    WithFallbacksAt(sheet, d, 7);
  }

  /** The whole fill, with the Header reader that also skips "nan" keys;
      `stepsJson` stands for `json.dumps` of the steps. */
  method Build(steps: Frame, header: Option<Frame>, stem: string, template: string,
               stepsJson: seq<Step> -> string) returns (html: string)
    ensures html == FillTemplate(template,
      stepsJson(SortSteps(StepsUpTo(steps, ResolveColumns(steps.columns), |steps.rows|).steps)),
      DefaultMeta(stem, Meta(header, true)))
  {
    var loaded := LoadSteps(steps);
    var meta := ReadMeta(header, true);
    html := ApplyTemplate(template, stepsJson(loaded), DefaultMeta(stem, meta));
  }
}
