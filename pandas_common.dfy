/** What the three pandas builders (`checklist_builder.py`, `..._v4f1.py`
    and `..._v4f_v1a.py`) share: `col_lookup`, reading a step row's cells,
    the walk over the data rows that skips empty ones, the stable sort by
    order, the Header-sheet meta reader and literal placeholder filling. */
module PandasCommon {
  import opened Strings
  import opened OrderedDict
  import opened Sheet
  import opened StableSort

  // ---------------------------------------------------------------------
  // col_lookup
  // ---------------------------------------------------------------------

  /** `str(c).strip()` of every column label. */
  function Stripped(columns: seq<string>): (r: seq<string>)
    ensures |r| == |columns|
  {
    seq(|columns|, j requires 0 <= j < |columns| => Trim(columns[j]))
  }

  /** `str(c).strip().lower()` of every column label. */
  function Lowered(columns: seq<string>): (r: seq<string>)
    ensures |r| == |columns|
  {
    seq(|columns|, j requires 0 <= j < |columns| => Lower(Trim(columns[j])))
  }

  function LowerAll(names: seq<string>): (r: seq<string>)
    ensures |r| == |names|
  {
    seq(|names|, i requires 0 <= i < |names| => Lower(names[i]))
  }

  /** `d[name]` for a dict built column by column from `keys`: a later column
      with the same key overwrites an earlier one, so the last one is found. */
  function LastIndex(keys: seq<string>, name: string): (r: Option<nat>)
    ensures r.Some? ==> r.value < |keys| && keys[r.value] == name
    ensures r.Some? ==> forall j :: r.value < j < |keys| ==> keys[j] != name
    ensures r.None? <==> name !in keys
  {
    if keys == [] then None
    else if keys[|keys| - 1] == name then Some(|keys| - 1)
    else
      assert keys == keys[..|keys| - 1] + [keys[|keys| - 1]];
      LastIndex(keys[..|keys| - 1], name)
  }

  /** `for name in candidates: if name in d: return d[name]`. */
  function FirstFound(keys: seq<string>, candidates: seq<string>): Option<nat> {
    if candidates == [] then None
    else match LastIndex(keys, candidates[0])
      case Some(j) => Some(j)
      case None => FirstFound(keys, candidates[1..])
  }

  /** The position of the first candidate that `keys` holds, or `|candidates|`. */
  function FirstIn(keys: seq<string>, candidates: seq<string>): (i: nat)
    ensures i <= |candidates|
    ensures forall i' :: 0 <= i' < i ==> candidates[i'] !in keys
    ensures i < |candidates| ==> candidates[i] in keys
  {
    if candidates == [] then 0
    else if candidates[0] in keys then 0
    else 1 + FirstIn(keys, candidates[1..])
  }

  /** The loop returns the last column named by the first candidate present. */
  lemma {:induction false} FirstFoundIsFirstCandidate(keys: seq<string>, candidates: seq<string>)
    ensures FirstFound(keys, candidates) ==
      if FirstIn(keys, candidates) < |candidates| then LastIndex(keys, candidates[FirstIn(keys, candidates)]) else None
  {
    if candidates != [] && candidates[0] !in keys {
      FirstFoundIsFirstCandidate(keys, candidates[1..]);
    }
  }

  /** `col_lookup(df, *candidates)`, as the index of the column it returns. */
  function ColLookup(columns: seq<string>, candidates: seq<string>): Option<nat> {
    match FirstFound(Stripped(columns), candidates)
    case Some(j) => Some(j)
    case None => FirstFound(Lowered(columns), LowerAll(candidates))
  }

  /** Every candidate is tried for an exact (stripped) match before any is
      tried ignoring case; candidates are tried in order, and among columns
      with the same name the last one is returned. */
  lemma ColLookupPriority(columns: seq<string>, candidates: seq<string>)
    ensures var i := FirstIn(Stripped(columns), candidates);
      i < |candidates| ==> ColLookup(columns, candidates) == LastIndex(Stripped(columns), candidates[i])
    ensures var i := FirstIn(Stripped(columns), candidates);
      var i' := FirstIn(Lowered(columns), LowerAll(candidates));
      i == |candidates| ==>
        ColLookup(columns, candidates) ==
          if i' < |candidates| then LastIndex(Lowered(columns), LowerAll(candidates)[i']) else None
  {
    FirstFoundIsFirstCandidate(Stripped(columns), candidates);
    FirstFoundIsFirstCandidate(Lowered(columns), LowerAll(candidates));
  }

  /** Nothing is found only when no column matches any candidate either way. */
  lemma ColLookupNone(columns: seq<string>, candidates: seq<string>)
    ensures ColLookup(columns, candidates).None? <==>
      forall i :: 0 <= i < |candidates| ==>
        candidates[i] !in Stripped(columns) && Lower(candidates[i]) !in Lowered(columns)
  {
    ColLookupPriority(columns, candidates);
    var lc := LowerAll(candidates);
    assert forall i :: 0 <= i < |candidates| ==> lc[i] == Lower(candidates[i]);
  }

  // ---------------------------------------------------------------------
  // The columns of a Steps sheet
  // ---------------------------------------------------------------------

  const OrderNames: seq<string> := ["StepOrder", "Order", "Seq"]
  const StepIdNames: seq<string> := ["StepID", "Step Id", "ID"]
  const TitleNames: seq<string> := ["Title", "StepTitle"]
  const CommandNames: seq<string> := ["Command", "Cmd"]
  const InputNames: seq<string> := ["InputNeeded", "Inputs"]
  const HintNames: seq<string> := ["Hints", "Hint"]
  const ProgramNames: seq<string> := ["Program"]
  const VariantNames: seq<string> := ["Variants"]
  const PhaseNames: seq<string> := ["Phase"]
  const OutFileNames: seq<string> := ["ExpectedOutputFile", "OutputFile", "Expected Output File"]
  const OutFolderNames: seq<string> := ["ExpectedOutputFolder", "OutputFolder", "Expected Output Folder"]

  datatype StepColumns = StepColumns(
    order: Option<nat>, stepId: Option<nat>, title: Option<nat>, command: Option<nat>,
    input: Option<nat>, hints: Option<nat>, program: Option<nat>, variants: Option<nat>,
    phase: Option<nat>, outFile: Option<nat>, outFolder: Option<nat>)

  /** The `col_* = col_lookup(df, ...)` block (only the v4f1 builder reads the two output columns). */
  function ResolveColumns(columns: seq<string>): StepColumns {
    StepColumns(
      ColLookup(columns, OrderNames), ColLookup(columns, StepIdNames), ColLookup(columns, TitleNames),
      ColLookup(columns, CommandNames), ColLookup(columns, InputNames), ColLookup(columns, HintNames),
      ColLookup(columns, ProgramNames), ColLookup(columns, VariantNames), ColLookup(columns, PhaseNames),
      ColLookup(columns, OutFileNames), ColLookup(columns, OutFolderNames))
  }

  // ---------------------------------------------------------------------
  // Reading a row
  // ---------------------------------------------------------------------

  /** `row.get(col)`, an empty cell when the column was not found. */
  function CellOf(r: Row, col: Option<nat>): Cell {
    if col.Some? then CellAt(r, col.value) else Blank
  }

  /** `col and not pd.isna(row.get(col))`. */
  predicate Given(r: Row, col: Option<nat>) {
    !CellOf(r, col).Blank?
  }

  /** `str(row[col])`. */
  function TextOf(r: Row, col: Option<nat>): string {
    PyStr(CellOf(r, col))
  }

  /** The ORDER block: `int(row[col_order])`, else `idx + 1` (the 0-based
      data-row index, which counts rows skipped as empty). */
  function OrderOf(r: Row, col: Option<nat>, idx: nat): int {
    match CellInt(CellOf(r, col))
    case Some(n) => n
    case None => idx + 1
  }

  /** `f"{label}{row[col]}"` when the cell is given, nothing otherwise. */
  function Part(caption: string, r: Row, col: Option<nat>): seq<string> {
    if Given(r, col) then [caption + TextOf(r, col)] else []
  }

  /** The parts of a list of labelled cells, in list order. */
  function Labelled(r: Row, fields: seq<(string, Option<nat>)>): seq<string>
    decreases |fields|
  {
    if fields == [] then []
    else Part(fields[0].0, r, fields[0].1) + Labelled(r, fields[1..])
  }

  /** `[p for p in parts if str(p).strip()]`. */
  function NonBlank(parts: seq<string>): seq<string> {
    if parts == [] then [] else KeepPart(parts[0]) + NonBlank(parts[1..])
  }

  /** One part as the filter passes it on: itself, or nothing when blank. */
  function KeepPart(p: string): seq<string> {
    if Trim(p) != "" then [p] else []
  }

  /** Every part that passes the filter is non-blank. */
  lemma {:induction false} NonBlankNotBlank(parts: seq<string>)
    ensures forall k :: 0 <= k < |NonBlank(parts)| ==> Trim(NonBlank(parts)[k]) != ""
  {
    if parts != [] {
      NonBlankNotBlank(parts[1..]);
      var h := KeepPart(parts[0]);
      var rest := NonBlank(parts[1..]);
      assert NonBlank(parts) == h + rest;
      forall k | 0 <= k < |h + rest| ensures Trim((h + rest)[k]) != "" {
        if k >= |h| {
          assert (h + rest)[k] == rest[k - |h|];
        }
      }
    }
  }

  /** A list with no blank part passes the filter whole. */
  lemma {:induction false} NonBlankAll(parts: seq<string>)
    requires forall k :: 0 <= k < |parts| ==> Trim(parts[k]) != ""
    ensures NonBlank(parts) == parts
  {
    if parts != [] {
      NonBlankAll(parts[1..]);
    }
  }

  /** `" | ".join(str(p) for p in reminder_parts if str(p).strip())`. */
  function Reminder(r: Row, fields: seq<(string, Option<nat>)>): string {
    Join(NonBlank(Labelled(r, fields)), " | ")
  }

  predicate LabelsStartVisible(fields: seq<(string, Option<nat>)>) {
    forall k :: 0 <= k < |fields| ==> fields[k].0 != "" && !IsSpace(fields[k].0[0])
  }

  lemma TrimVisibleStart(s: string)
    requires s != "" && !IsSpace(s[0])
    ensures Trim(s) != ""
  {
    TrimEndDropsTrailingSpaces(s);
  }

  /** A labelled part is never blank, so the filter drops nothing. */
  lemma {:induction false} LabelledNonBlank(r: Row, fields: seq<(string, Option<nat>)>)
    requires LabelsStartVisible(fields)
    ensures NonBlank(Labelled(r, fields)) == Labelled(r, fields)
    ensures Labelled(r, fields) == [] <==> forall k :: 0 <= k < |fields| ==> !Given(r, fields[k].1)
    decreases |fields|
  {
    if fields != [] {
      LabelledNonBlank(r, fields[1..]);
      var p := Part(fields[0].0, r, fields[0].1);
      if p != [] {
        TrimVisibleStart(p[0]);
      }
      NonBlankAppend(p, Labelled(r, fields[1..]));
      assert forall k :: 1 <= k < |fields| ==> fields[k] == fields[1..][k - 1];
    }
  }

  lemma {:induction false} NonBlankAppend(a: seq<string>, b: seq<string>)
    ensures NonBlank(a + b) == NonBlank(a) + NonBlank(b)
  {
    if a == [] {
      assert a + b == b;
    } else {
      var t := a[1..];
      assert a == [a[0]] + t;
      assert a + b == [a[0]] + (t + b);
      calc {
        NonBlank(a + b);
        { NonBlankCons(a[0], t + b); }
        KeepPart(a[0]) + NonBlank(t + b);
        { NonBlankAppend(t, b); }
        KeepPart(a[0]) + (NonBlank(t) + NonBlank(b));
        (KeepPart(a[0]) + NonBlank(t)) + NonBlank(b);
        { NonBlankCons(a[0], t); }
        NonBlank(a) + NonBlank(b);
      }
    }
  }

  lemma NonBlankCons(x: string, rest: seq<string>)
    ensures NonBlank([x] + rest) == KeepPart(x) + NonBlank(rest)
  {
    assert ([x] + rest)[1..] == rest;
  }

  lemma {:induction false} JoinEmptyIff(pieces: seq<string>, sep: string)
    requires forall k :: 0 <= k < |pieces| ==> pieces[k] != ""
    ensures Join(pieces, sep) == "" <==> pieces == []
  {
    if |pieces| > 1 {
      assert |Join(pieces, sep)| >= |pieces[0]| > 0;
    }
  }

  /** The reminder is empty exactly when none of its cells is given. */
  lemma ReminderEmptyIff(r: Row, fields: seq<(string, Option<nat>)>)
    requires LabelsStartVisible(fields)
    ensures Reminder(r, fields) == "" <==> forall k :: 0 <= k < |fields| ==> !Given(r, fields[k].1)
  {
    LabelledNonBlank(r, fields);
    var parts := Labelled(r, fields);
    NonBlankNotBlank(parts);
    forall k | 0 <= k < |parts|
      ensures parts[k] != ""
    {
      assert Trim(parts[k]) != "";
    }
    JoinEmptyIff(parts, " | ");
  }

  /** A part that is not blank survives the filter. */
  lemma {:induction false} NonBlankKeeps(parts: seq<string>, k: nat)
    requires k < |parts| && Trim(parts[k]) != ""
    ensures parts[k] in NonBlank(parts)
  {
    assert NonBlank(parts) == KeepPart(parts[0]) + NonBlank(parts[1..]);
    if k == 0 {
      assert KeepPart(parts[0]) == [parts[0]];
    } else {
      assert parts[1..][k - 1] == parts[k];
      NonBlankKeeps(parts[1..], k - 1);
    }
  }

  /** A part that starts with a label, as `f"[Program] {x}"` does. */
  lemma LabelledPartContains(caption: string, text: string, p: string)
    requires p <= caption
    ensures Contains(caption + text, p)
  {
    ContainsAt(caption + text, caption + text, 0);
    assert p <= caption + text;
    ContainsPrefixOf(caption + text, caption + text, p);
  }

  // ---------------------------------------------------------------------
  // The COMMAND block of checklist_builder.py and checklist_builder_v4f1.py
  // ---------------------------------------------------------------------

  /** The command cell with trailing spaces removed, then `[Program] ...`
      and `[Variants] ...`, each only when its cell is given. */
  function CommandParts(r: Row, cols: StepColumns): seq<string> {
    (if Given(r, cols.command) then [TrimEnd(TextOf(r, cols.command))] else [])
    + Part("[Program] ", r, cols.program)
    + Part("[Variants] ", r, cols.variants)
  }

  /** `"\n\n".join(cmd_parts).strip()`. */
  function Command(r: Row, cols: StepColumns): string {
    Trim(Join(CommandParts(r, cols), "\n\n"))
  }

  /** The command is stripped, names the program and the variants whenever
      their cells are given, and is empty when none of its three cells is. */
  lemma CommandShape(r: Row, cols: StepColumns)
    ensures Trim(Command(r, cols)) == Command(r, cols)
    ensures Given(r, cols.program) ==> Contains(Command(r, cols), "[Program]")
    ensures Given(r, cols.variants) ==> Contains(Command(r, cols), "[Variants]")
    ensures !Given(r, cols.command) && !Given(r, cols.program) && !Given(r, cols.variants) ==> Command(r, cols) == ""
  {
    var parts := CommandParts(r, cols);
    var joined := Join(parts, "\n\n");
    TrimIdempotent(joined);
    var c := if Given(r, cols.command) then 1 else 0;
    if Given(r, cols.program) {
      assert parts[c] == "[Program] " + TextOf(r, cols.program);
      LabelledPartContains("[Program] ", TextOf(r, cols.program), "[Program]");
      ContainsJoinPiece(parts, "\n\n", c, "[Program]");
      ContainsTrim(joined, "[Program]");
    }
    if Given(r, cols.variants) {
      var v := |parts| - 1;
      assert parts[v] == "[Variants] " + TextOf(r, cols.variants);
      LabelledPartContains("[Variants] ", TextOf(r, cols.variants), "[Variants]");
      ContainsJoinPiece(parts, "\n\n", v, "[Variants]");
      ContainsTrim(joined, "[Variants]");
    }
  }

  // ---------------------------------------------------------------------
  // build_default_meta
  // ---------------------------------------------------------------------

  /** `sheet.get(key, default)` for each `(key, default)`, kept in that order. */
  function WithFallbacks(sheet: Dict, defaults: seq<(string, string)>): Dict {
    seq(|defaults|, i requires 0 <= i < |defaults| => (defaults[i].0, GetOr(sheet, defaults[i].0, defaults[i].1)))
  }

  /** The result has exactly the listed keys, in order; each takes the
      sheet's value when the sheet has the key (even an empty one), and its
      default otherwise. */
  lemma WithFallbacksGet(sheet: Dict, defaults: seq<(string, string)>, i: nat)
    requires DistinctKeys(defaults) && i < |defaults|
    ensures Keys(WithFallbacks(sheet, defaults)) == Keys(defaults)
    ensures DistinctKeys(WithFallbacks(sheet, defaults))
    ensures Get(WithFallbacks(sheet, defaults), defaults[i].0) ==
      Some(if Get(sheet, defaults[i].0).Some? then Get(sheet, defaults[i].0).value else defaults[i].1)
  {
    var m := WithFallbacks(sheet, defaults);
    assert forall j :: 0 <= j < |m| ==> m[j].0 == defaults[j].0;
    GetInDistinct(m, i);
  }

  /** The entry of a key listed only once before position `i + 1`. */
  lemma WithFallbacksAt(sheet: Dict, defaults: seq<(string, string)>, i: nat)
    requires i < |defaults| && forall j :: 0 <= j < i ==> defaults[j].0 != defaults[i].0
    ensures Get(WithFallbacks(sheet, defaults), defaults[i].0) ==
      Some(if Get(sheet, defaults[i].0).Some? then Get(sheet, defaults[i].0).value else defaults[i].1)
  {
    GetFirst(WithFallbacks(sheet, defaults), i);
  }

  /** A key the sheet gives keeps the sheet's value. */
  lemma WithFallbacksSheetWins(sheet: Dict, defaults: seq<(string, string)>)
    requires DistinctKeys(defaults)
    ensures forall k :: k in Keys(defaults) && Get(sheet, k).Some? ==> Get(WithFallbacks(sheet, defaults), k) == Get(sheet, k)
  {
    forall k | k in Keys(defaults) && Get(sheet, k).Some?
      ensures Get(WithFallbacks(sheet, defaults), k) == Get(sheet, k)
    {
      var i :| 0 <= i < |defaults| && Keys(defaults)[i] == k;
      WithFallbacksGet(sheet, defaults, i);
    }
  }

  // ---------------------------------------------------------------------
  // Steps
  // ---------------------------------------------------------------------

  /** One step as the pandas builders emit it (`runs` is always empty and left out). */
  datatype Step = Step(id: string, order: int, title: string, command: string, reminder: string, notes: string)

  function StepOrder(s: Step): int { s.order }

  function IdOf(s: Step): string { s.id }

  /** `all(pd.isna(v) for v in row.values)`. */
  predicate BlankRow(f: Frame, r: Row) {
    forall j :: 0 <= j < |f.columns| ==> CellAt(r, j).Blank?
  }

  /** The steps of the first `n` data rows, `mk(row, idx)` for each row that is not empty. */
  function StepsFrom(f: Frame, n: nat, mk: (Row, nat) -> Step): seq<Step>
    requires n <= |f.rows|
  {
    if n == 0 then []
    else StepsFrom(f, n - 1, mk) + (if BlankRow(f, f.rows[n - 1]) then [] else [mk(f.rows[n - 1], n - 1)])
  }

  /** The `for idx, row in df.iterrows()` loop. */
  method CollectSteps(f: Frame, mk: (Row, nat) -> Step) returns (steps: seq<Step>)
    ensures steps == StepsFrom(f, |f.rows|, mk)
  {
    steps := [];
    var idx := 0;
    while idx < |f.rows|
      invariant idx <= |f.rows|
      invariant steps == StepsFrom(f, idx, mk)
    {
      var row := f.rows[idx];
      idx := idx + 1;
      if BlankRow(f, row) {
        continue;
      }
      steps := steps + [mk(row, idx - 1)];
    }
  }

  ghost predicate StepOfRow(f: Frame, n: nat, mk: (Row, nat) -> Step, s: Step)
    requires n <= |f.rows|
  {
    exists i :: 0 <= i < n && !BlankRow(f, f.rows[i]) && s == mk(f.rows[i], i)
  }

  /** Every step comes from a row that is not empty, and every such row gives
      its step; the step is built with the row's own index. */
  lemma {:induction false} StepsFromRows(f: Frame, n: nat, mk: (Row, nat) -> Step)
    requires n <= |f.rows|
    ensures forall s :: s in StepsFrom(f, n, mk) ==> StepOfRow(f, n, mk, s)
    ensures forall i :: 0 <= i < n && !BlankRow(f, f.rows[i]) ==> mk(f.rows[i], i) in StepsFrom(f, n, mk)
  {
    if n > 0 {
      StepsFromRows(f, n - 1, mk);
      forall s | s in StepsFrom(f, n - 1, mk)
        ensures StepOfRow(f, n, mk, s)
      {
        var i :| 0 <= i < n - 1 && !BlankRow(f, f.rows[i]) && s == mk(f.rows[i], i);
      }
    }
  }

  /** `steps.sort(key=lambda s: s.get("order", 0))`. */
  function SortSteps(steps: seq<Step>): seq<Step> {
    SortBy(steps, StepOrder, IntLess)
  }

  /** The sort keeps every step, orders them by `order`, and keeps steps
      with the same order in the order the rows gave them. */
  lemma SortStepsSorts(steps: seq<Step>)
    ensures multiset(SortSteps(steps)) == multiset(steps)
    ensures SortedBy(SortSteps(steps), StepOrder, IntLess)
    ensures forall k :: WithKey(SortSteps(steps), StepOrder, k) == WithKey(steps, StepOrder, k)
  {
    IntLessIsStrictTotalOrder();
    SortBySorted(steps, StepOrder, IntLess);
    forall k: int
      ensures WithKey(SortSteps(steps), StepOrder, k) == WithKey(steps, StepOrder, k)
    {
      SortByStable(steps, StepOrder, IntLess, k);
    }
  }

  // ---------------------------------------------------------------------
  // load_header_meta_from_excel
  // ---------------------------------------------------------------------

  /** The key in the first column: "" for an empty cell, else the stripped text. */
  function MetaKey(r: Row): string {
    if CellAt(r, 0).Blank? then "" else Trim(PyStr(CellAt(r, 0)))
  }

  /** The value in the second column, stripped the same way. */
  function MetaValue(r: Row): string {
    if CellAt(r, 1).Blank? then "" else Trim(PyStr(CellAt(r, 1)))
  }

  /** Whether a row's key is skipped; `skipNan` adds the `key.lower() == "nan"` test. */
  predicate SkippedKey(key: string, skipNan: bool) {
    key == "" || (skipNan && IsNanText(key))
  }

  /** `key.lower() == "nan"`, compared letter by letter. */
  predicate IsNanText(key: string) {
    |key| == 3 && LowerChar(key[0]) == 'n' && LowerChar(key[1]) == 'a' && LowerChar(key[2]) == 'n'
  }

  /** The letter-by-letter test is exactly the lower-cased comparison. */
  lemma IsNanTextIsLower(key: string)
    ensures IsNanText(key) <==> Lower(key) == "nan"
  {
    if IsNanText(key) {
      assert Lower(key) == [Lower(key)[0], Lower(key)[1], Lower(key)[2]];
    }
    if Lower(key) == "nan" {
      assert Lower(key)[0] == 'n' && Lower(key)[1] == 'a' && Lower(key)[2] == 'n';
    }
  }

  /** The `(key, value)` pair each row of the Header sheet gives, in row order. */
  function MetaEntries(f: Frame): seq<(string, string)> {
    seq(|f.rows|, i requires 0 <= i < |f.rows| => (MetaKey(f.rows[i]), MetaValue(f.rows[i])))
  }

  /** The meta dict after the pairs `es`, taken in order. */
  function MetaRows(es: seq<(string, string)>, skipNan: bool): Dict
    decreases |es|
  {
    if es == [] then []
    else
      var d := MetaRows(es[..|es| - 1], skipNan);
      var e := es[|es| - 1];
      if SkippedKey(e.0, skipNan) then d else Put(d, e.0, e.1)
  }

  /** One more pair either is skipped or is stored over the dict so far. */
  lemma MetaRowsSnoc(es: seq<(string, string)>, i: nat, skipNan: bool)
    requires i < |es|
    ensures MetaRows(es[..i + 1], skipNan) ==
      if SkippedKey(es[i].0, skipNan) then MetaRows(es[..i], skipNan)
      else Put(MetaRows(es[..i], skipNan), es[i].0, es[i].1)
  {
    assert es[..i + 1][..i] == es[..i];
  }

  /** The meta dict never holds a key twice. */
  lemma {:induction false} MetaRowsDistinct(es: seq<(string, string)>, skipNan: bool)
    ensures DistinctKeys(MetaRows(es, skipNan))
    decreases |es|
  {
    if es != [] {
      var d := MetaRows(es[..|es| - 1], skipNan);
      MetaRowsDistinct(es[..|es| - 1], skipNan);
      var e := es[|es| - 1];
      if SkippedKey(e.0, skipNan) {
        assert MetaRows(es, skipNan) == d;
      } else {
        PutDistinct(d, e.0, e.1);
        assert MetaRows(es, skipNan) == Put(d, e.0, e.1);
      }
    }
  }

  /** `load_header_meta_from_excel`, given the Header sheet if the workbook has one. */
  function Meta(header: Option<Frame>, skipNan: bool): Dict {
    match header
    case None => []
    case Some(f) => if |f.columns| < 2 then [] else MetaRows(MetaEntries(f), skipNan)
  }

  method ReadMeta(header: Option<Frame>, skipNan: bool) returns (meta: Dict)
    ensures meta == Meta(header, skipNan)
  {
    meta := [];
    if header.None? || |header.value.columns| < 2 {
      return;
    }
    var f := header.value;
    ghost var es := MetaEntries(f);
    var i := 0;
    while i < |f.rows|
      invariant i <= |f.rows|
      invariant meta == MetaRows(es[..i], skipNan)
    {
      var key := MetaKey(f.rows[i]);
      MetaRowsSnoc(es, i, skipNan);
      if !SkippedKey(key, skipNan) {
        meta := Put(meta, key, MetaValue(f.rows[i]));
      }
      i := i + 1;
    }
    assert es[..i] == es;
  }

  /** The value of the last of the pairs `es` whose key is `k`. */
  function LastMetaValue(es: seq<(string, string)>, k: string): Option<string>
    decreases |es|
  {
    if es == [] then None
    else if es[|es| - 1].0 == k then Some(es[|es| - 1].1)
    else LastMetaValue(es[..|es| - 1], k)
  }

  /** A later row with the same key overwrites an earlier one, and skipped keys are never stored. */
  lemma MetaRowsLastWins(es: seq<(string, string)>, skipNan: bool, k: string)
    ensures Get(MetaRows(es, skipNan), k) == if SkippedKey(k, skipNan) then None else LastMetaValue(es, k)
  {
    if SkippedKey(k, skipNan) {
      MetaRowsSkipped(es, skipNan, k);
    } else {
      MetaRowsLastValue(es, skipNan, k);
    }
  }

  lemma {:induction false} MetaRowsSkipped(es: seq<(string, string)>, skipNan: bool, k: string)
    requires SkippedKey(k, skipNan)
    ensures Get(MetaRows(es, skipNan), k) == None
    decreases |es|
  {
    if es != [] {
      MetaRowsSkipped(es[..|es| - 1], skipNan, k);
      MetaRowsStep(es, skipNan, k);
    }
  }

  lemma {:induction false} MetaRowsLastValue(es: seq<(string, string)>, skipNan: bool, k: string)
    requires !SkippedKey(k, skipNan)
    ensures Get(MetaRows(es, skipNan), k) == LastMetaValue(es, k)
    decreases |es|
  {
    if es != [] {
      var init := es[..|es| - 1];
      var e := es[|es| - 1];
      calc {
        Get(MetaRows(es, skipNan), k);
        { MetaRowsStep(es, skipNan, k); }
        if e.0 == k then Some(e.1) else Get(MetaRows(init, skipNan), k);
        { MetaRowsLastValue(init, skipNan, k); }
        if e.0 == k then Some(e.1) else LastMetaValue(init, k);
        LastMetaValue(es, k);
      }
    }
  }

  lemma MetaRowsStep(es: seq<(string, string)>, skipNan: bool, k: string)
    requires es != []
    ensures var e := es[|es| - 1];
      Get(MetaRows(es, skipNan), k) ==
        if !SkippedKey(k, skipNan) && e.0 == k then Some(e.1) else Get(MetaRows(es[..|es| - 1], skipNan), k)
  {
    var e := es[|es| - 1];
    if !SkippedKey(e.0, skipNan) {
      assert MetaRows(es, skipNan) == Put(MetaRows(es[..|es| - 1], skipNan), e.0, e.1);
    }
  }

  /** Without a Header sheet of at least two columns the meta is empty;
      otherwise each kept key maps to the stripped value of its last row. */
  lemma MetaContents(header: Option<Frame>, skipNan: bool, k: string)
    ensures header.None? || |header.value.columns| < 2 ==> Meta(header, skipNan) == []
    ensures header.Some? && |header.value.columns| >= 2 ==>
      Get(Meta(header, skipNan), k) ==
        if SkippedKey(k, skipNan) then None else LastMetaValue(MetaEntries(header.value), k)
  {
    if header.Some? && |header.value.columns| >= 2 {
      MetaRowsLastWins(MetaEntries(header.value), skipNan, k);
    }
  }

  // ---------------------------------------------------------------------
  // apply_template (literal substitution)
  // ---------------------------------------------------------------------

  const StepsPlaceholder := "{{STEPS_JSON}}"

  /** `("{{" + key + "}}", value)` for each meta entry, in dict order. */
  function MetaPairs(meta: Dict): (pairs: seq<(string, string)>)
    ensures |pairs| == |meta|
    ensures forall k :: 0 <= k < |pairs| ==> "{{" <= pairs[k].0 && pairs[k].0 != []
  {
    seq(|meta|, k requires 0 <= k < |meta| => ("{{" + meta[k].0 + "}}", meta[k].1))
  }

  /** The steps JSON first, then each meta placeholder, on the text so far. */
  function FillTemplate(text: string, stepsJson: string, meta: Dict): string {
    ReplaceEach(ReplaceAll(text, StepsPlaceholder, stepsJson), MetaPairs(meta))
  }

  /** The substitution part of `apply_template`. */
  method ApplyTemplate(text: string, stepsJson: string, meta: Dict) returns (out: string)
    ensures out == FillTemplate(text, stepsJson, meta)
  {
    var first := ReplaceAll(text, StepsPlaceholder, stepsJson);
    var pairs := MetaPairs(meta);
    out := first;
    var k := 0;
    while k < |meta|
      invariant k <= |meta|
      invariant out == ReplaceEach(first, pairs[..k])
    {
      ReplaceEachStep(first, pairs, k);
      out := ReplaceAll(out, "{{" + meta[k].0 + "}}", meta[k].1);
      k := k + 1;
    }
    assert pairs[..k] == pairs;
  }

  /** Only placeholders are touched: a template without `{{` comes back unchanged. */
  lemma FillTemplateNeedsBraces(text: string, stepsJson: string, meta: Dict)
    requires !Contains(text, "{{")
    ensures FillTemplate(text, stepsJson, meta) == text
  {
    assert !Contains(text, StepsPlaceholder) by {
      if Contains(text, StepsPlaceholder) {
        ContainsPrefixOf(text, StepsPlaceholder, "{{");
      }
    }
    ReplaceAllAbsent(text, StepsPlaceholder, stepsJson);
    ReplaceEachNeedsPrefix(text, MetaPairs(meta), "{{");
  }

  /** The steps JSON stands at every `{{STEPS_JSON}}` of the template, with
      the text between them kept, before any meta placeholder is filled. */
  lemma FillTemplateStepsFirst(text: string, stepsJson: string, meta: Dict)
    ensures FillTemplate(text, stepsJson, meta) ==
      ReplaceEach(Join(Split(text, StepsPlaceholder), stepsJson), MetaPairs(meta))
  {
    ReplaceAllIsJoinOfSplit(text, StepsPlaceholder, stepsJson);
  }
}
