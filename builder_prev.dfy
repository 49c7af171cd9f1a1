/** The earlier pandas builder (v0.2.0): the Header sheet is a Field/Value
    table, every data row of the Steps sheet becomes a step, and the template
    is filled by literal placeholder substitution. */
module ChecklistBuilderPrev {
  import opened Strings
  import opened OrderedDict
  import opened Sheet
  import opened StableSort
  import Pandas = PandasCommon

  // ---------------------------------------------------------------------
  // load_header
  // ---------------------------------------------------------------------

  const RequiredHeaderFields: seq<string> := [
    "APP_TITLE", "APP_TITLE_VISIBLE", "META_REPO", "META_ENTITY",
    "META_SOP_DEFAULT", "META_IMG_FOLDER_DEF", "RUN_LABEL_DEFAULT"
  ]

  /** `str(row.get("Field", "")).strip()`: "" without a Field column, and
      "nan" for an empty cell under it. */
  function FieldOf(f: Frame, r: Row): string {
    match ColumnIndex(f.columns, "Field")
    case None => ""
    case Some(j) => Trim(PyStr(CellAt(r, j)))
  }

  /** `"" if pd.isna(row.get("Value")) else str(row.get("Value"))`, not stripped. */
  function ValueOf(f: Frame, r: Row): string {
    FieldText(f, r, "Value")
  }

  /** The (field, value) pair of every row, in sheet order. */
  function HeaderEntries(f: Frame): (es: seq<(string, string)>)
    ensures |es| == |f.rows|
  {
    seq(|f.rows|, i requires 0 <= i < |f.rows| => (FieldOf(f, f.rows[i]), ValueOf(f, f.rows[i])))
  }

  /** The row loop of `load_header` assigns each non-empty field its value,
      exactly as the pandas builders fill their meta dict without the "nan" test. */
  function HeaderRows(f: Frame): Dict {
    Pandas.MetaRows(HeaderEntries(f), false)
  }

  /** `setdefault(key, "")` for each of `keys` in turn. */
  function WithDefaults(d: Dict, keys: seq<string>): Dict
    decreases |keys|
  {
    if keys == [] then d
    else SetDefault(WithDefaults(d, keys[..|keys| - 1]), keys[|keys| - 1], "")
  }

  /** `load_header`. */
  function Header(f: Frame): Dict {
    WithDefaults(HeaderRows(f), RequiredHeaderFields)
  }

  /** The row loop of `load_header`. */
  method CollectHeaderRows(f: Frame) returns (header: Dict)
    ensures header == HeaderRows(f)
  {
    header := [];
    ghost var es := HeaderEntries(f);
    var i := 0;
    while i < |f.rows|
      invariant i <= |f.rows|
      invariant header == Pandas.MetaRows(es[..i], false)
    {
      var field := FieldOf(f, f.rows[i]);
      var value := ValueOf(f, f.rows[i]);
      assert (field, value) == es[i];
      Pandas.MetaRowsSnoc(es, i, false);
      if field != "" {
        header := Put(header, field, value);
      }
      i := i + 1;
    }
    assert es[..i] == es;
  }

  /** The `setdefault` loop of `load_header`. */
  method SetDefaults(d: Dict, keys: seq<string>) returns (header: Dict)
    ensures header == WithDefaults(d, keys)
  {
    header := d;
    var k := 0;
    while k < |keys|
      invariant k <= |keys|
      invariant header == WithDefaults(d, keys[..k])
    {
      assert keys[..k + 1][..k] == keys[..k];
      header := SetDefault(header, keys[k], "");
      k := k + 1;
    }
    assert keys[..k] == keys;
  }

  method LoadHeader(f: Frame) returns (header: Dict)
    ensures header == Header(f)
  {
    header := CollectHeaderRows(f);
    header := SetDefaults(header, RequiredHeaderFields);
  }

  /** A `setdefault` fills a key only where it is missing. */
  lemma {:induction false} WithDefaultsGet(d: Dict, keys: seq<string>, k: string)
    ensures Get(WithDefaults(d, keys), k) ==
      if Get(d, k).Some? then Get(d, k) else if k in keys then Some("") else None
    decreases |keys|
  {
    if keys != [] {
      var init := keys[..|keys| - 1];
      WithDefaultsGet(d, init, k);
      assert keys == init + [keys[|keys| - 1]];
    }
  }

  /** The header holds the last value given for each non-empty field, ""
      for a required field that no row gives, and nothing else. */
  lemma LoadHeaderContents(f: Frame, k: string)
    ensures k != "" && Pandas.LastMetaValue(HeaderEntries(f), k).Some? ==>
      Get(Header(f), k) == Pandas.LastMetaValue(HeaderEntries(f), k)
    ensures k != "" && Pandas.LastMetaValue(HeaderEntries(f), k).None? ==>
      Get(Header(f), k) == if k in RequiredHeaderFields then Some("") else None
    ensures Get(Header(f), "") == None
  {
    Pandas.MetaRowsLastWins(HeaderEntries(f), false, k);
    Pandas.MetaRowsLastWins(HeaderEntries(f), false, "");
    WithDefaultsGet(HeaderRows(f), RequiredHeaderFields, k);
    WithDefaultsGet(HeaderRows(f), RequiredHeaderFields, "");
  }

  /** The `setdefault` calls never duplicate a key. */
  lemma {:induction false} WithDefaultsDistinct(d: Dict, keys: seq<string>)
    requires DistinctKeys(d)
    ensures DistinctKeys(WithDefaults(d, keys))
    decreases |keys|
  {
    if keys != [] {
      var init := keys[..|keys| - 1];
      WithDefaultsDistinct(d, init);
      var e := WithDefaults(d, init);
      if Get(e, keys[|keys| - 1]).None? {
        PutDistinct(e, keys[|keys| - 1], "");
      }
    }
  }

  /** The header dict never holds a key twice. */
  lemma HeaderDistinct(f: Frame)
    ensures DistinctKeys(Header(f))
  {
    Pandas.MetaRowsDistinct(HeaderEntries(f), false);
    WithDefaultsDistinct(HeaderRows(f), RequiredHeaderFields);
  }

  /** Every required field is present, whatever the sheet holds. */
  lemma LoadHeaderHasRequired(f: Frame, i: nat)
    requires i < |RequiredHeaderFields|
    ensures Get(Header(f), RequiredHeaderFields[i]).Some?
  {
    WithDefaultsGet(HeaderRows(f), RequiredHeaderFields, RequiredHeaderFields[i]);
  }

  /** A row whose Field cell is empty is stored under the key "nan", since
      `str` of a missing value is "nan" and that text is not empty. */
  lemma BlankFieldCellStoredAsNan(f: Frame, v: string)
    requires f.columns == ["Field", "Value"] && f.rows == [[Blank, Text(v)]]
    ensures Get(Header(f), "nan") == Some(v)
  {
    assert ColumnIndex(f.columns, "Field") == Some(0);
    assert ColumnIndex(f.columns, "Value") == Some(1) by {
      assert f.columns[0] != "Value" && f.columns[1] == "Value";
    }
    assert FieldOf(f, f.rows[0]) == "nan";
    assert ValueOf(f, f.rows[0]) == v;
    LoadHeaderContents(f, "nan");
  }

  // ---------------------------------------------------------------------
  // load_steps
  // ---------------------------------------------------------------------

  /** One step as `load_steps` emits it (`runs` is always empty and left out). */
  datatype Step = Step(
    id: string, order: string, stepId: string, title: string,
    inputs: string, program: string, command: string, variants: string,
    expectedFile: string, expectedFolder: string, hints: string, phase: string,
    reminder: string, notes: string)

  /** The string fallback sort meets a number among the texts and raises. */
  datatype LoadError = MixedStepOrder

  /** `sheet["StepOrder"] = range(1, len(sheet) + 1)` when the column is missing. */
  function WithStepOrder(f: Frame): (g: Frame)
    ensures |g.rows| == |f.rows|
  {
    if ColumnIndex(f.columns, "StepOrder").Some? then f
    else Frame(f.columns + ["StepOrder"],
      seq(|f.rows|, i requires 0 <= i < |f.rows| =>
        seq(|f.columns|, j requires 0 <= j < |f.columns| => CellAt(f.rows[i], j)) + [Int(i + 1)]))
  }

  /** The StepOrder column always exists after `WithStepOrder`. */
  lemma StepOrderColumn(f: Frame)
    ensures ColumnIndex(WithStepOrder(f).columns, "StepOrder").Some?
    ensures ColumnIndex(f.columns, "StepOrder").None? ==>
      ColumnIndex(WithStepOrder(f).columns, "StepOrder") == Some(|f.columns|)
  {
    if ColumnIndex(f.columns, "StepOrder").None? {
      var c := f.columns + ["StepOrder"];
      assert c[|f.columns|] == "StepOrder";
    }
  }

  /** A cell `pd.to_numeric` accepts: missing (NaN), a number, or integer text. */
  predicate Numeric(c: Cell) {
    c.Blank? || c.Int? || PyInt(c.s).Some?
  }

  /** The numeric sort key, `None` for NaN. */
  function NumKey(c: Cell): Option<int> {
    match c
    case Blank => None
    case Int(n) => Some(n)
    case Text(s) => PyInt(s)
  }

  /** The string sort key, `None` for NaN. */
  function TextKey(c: Cell): Option<string> {
    match c
    case Blank => None
    case Int(n) => Some(IntToString(n))
    case Text(s) => Some(s)
  }

  /** `sort_values` order: by value, with missing values last. */
  function NumOrder(a: Option<int>, b: Option<int>): bool {
    match (a, b)
    case (Some(x), Some(y)) => x < y
    case (Some(_), None) => true
    case (None, _) => false
  }

  function TextOrder(a: Option<string>, b: Option<string>): bool {
    match (a, b)
    case (Some(x), Some(y)) => StringLess(x, y)
    case (Some(_), None) => true
    case (None, _) => false
  }

  lemma NumOrderIsStrictTotalOrder()
    ensures StrictTotalOrder(NumOrder)
  {
  }

  lemma TextOrderIsStrictTotalOrder()
    ensures StrictTotalOrder(TextOrder)
  {
    forall a: Option<string>
      ensures !TextOrder(a, a)
    {
      if a.Some? {
        StringLessIrreflexive(a.value);
      }
    }
    forall a: Option<string>, b: Option<string>, c: Option<string> | TextOrder(a, b) && TextOrder(b, c)
      ensures TextOrder(a, c)
    {
      if c.Some? {
        StringLessTransitive(a.value, b.value, c.value);
      }
    }
    forall a: Option<string>, b: Option<string> | a != b
      ensures TextOrder(a, b) || TextOrder(b, a)
    {
      if a.Some? && b.Some? {
        StringLessTotal(a.value, b.value);
      }
    }
  }

  function NumKeyAt(j: nat): Row -> Option<int> {
    r => NumKey(CellAt(r, j))
  }

  function TextKeyAt(j: nat): Row -> Option<string> {
    r => TextKey(CellAt(r, j))
  }

  predicate AllNumeric(rows: seq<Row>, j: nat) {
    forall i :: 0 <= i < |rows| ==> Numeric(CellAt(rows[i], j))
  }

  predicate NoNumbers(rows: seq<Row>, j: nat) {
    forall i :: 0 <= i < |rows| ==> !CellAt(rows[i], j).Int?
  }

  /** The rows sorted on column `j`: numerically when every cell converts,
      otherwise stably as strings, which raises when a number is among them. */
  function SortedRows(rows: seq<Row>, j: nat): Result<seq<Row>, LoadError> {
    if AllNumeric(rows, j) then Ok(SortBy(rows, NumKeyAt(j), NumOrder))
    else if NoNumbers(rows, j) then Ok(SortBy(rows, TextKeyAt(j), TextOrder))
    else Err(MixedStepOrder)
  }

  /** The sort keeps every row, orders them by the key it chose, and keeps
      rows with equal keys in sheet order; it fails only on a column that
      mixes numbers with text that is not a number. */
  lemma SortedRowsSorts(rows: seq<Row>, j: nat)
    ensures SortedRows(rows, j).Err? <==> !AllNumeric(rows, j) && !NoNumbers(rows, j)
    ensures SortedRows(rows, j).Ok? ==> multiset(SortedRows(rows, j).value) == multiset(rows)
    ensures AllNumeric(rows, j) ==>
      && SortedBy(SortedRows(rows, j).value, NumKeyAt(j), NumOrder)
      && forall k :: WithKey(SortedRows(rows, j).value, NumKeyAt(j), k) == WithKey(rows, NumKeyAt(j), k)
    ensures !AllNumeric(rows, j) && NoNumbers(rows, j) ==>
      && SortedBy(SortedRows(rows, j).value, TextKeyAt(j), TextOrder)
      && forall k :: WithKey(SortedRows(rows, j).value, TextKeyAt(j), k) == WithKey(rows, TextKeyAt(j), k)
  {
    if AllNumeric(rows, j) {
      NumOrderIsStrictTotalOrder();
      SortBySorted(rows, NumKeyAt(j), NumOrder);
      forall k: Option<int>
        ensures WithKey(SortBy(rows, NumKeyAt(j), NumOrder), NumKeyAt(j), k) == WithKey(rows, NumKeyAt(j), k)
      {
        SortByStable(rows, NumKeyAt(j), NumOrder, k);
      }
    } else if NoNumbers(rows, j) {
      TextOrderIsStrictTotalOrder();
      SortBySorted(rows, TextKeyAt(j), TextOrder);
      forall k: Option<string>
        ensures WithKey(SortBy(rows, TextKeyAt(j), TextOrder), TextKeyAt(j), k) == WithKey(rows, TextKeyAt(j), k)
      {
        SortByStable(rows, TextKeyAt(j), TextOrder, k);
      }
    }
  }

  /** The `rem_lines` of a step, in their fixed order; an empty field adds no line. */
  function ReminderLines(inputs: string, program: string, variants: string,
                         file: string, folder: string, hints: string): seq<string> {
    (if inputs != "" then ["Inputs needed: " + inputs] else [])
    + (if program != "" then ["Program: " + program] else [])
    + (if variants != "" then ["Variants: " + variants] else [])
    + (if file != "" || folder != "" then [Trim("Expected output: " + file + " in " + folder)] else [])
    + (if hints != "" then ["Hints: " + hints] else [])
  }

  /** `"\n".join(rem_lines)`. */
  function Reminder(inputs: string, program: string, variants: string,
                    file: string, folder: string, hints: string): string {
    Join(ReminderLines(inputs, program, variants, file, folder, hints), "\n")
  }

  lemma {:induction false} JoinEmpty(pieces: seq<string>, sep: string)
    requires forall k :: 0 <= k < |pieces| ==> pieces[k] != ""
    ensures Join(pieces, sep) == "" <==> pieces == []
  {
    if |pieces| > 1 {
      assert |Join(pieces, sep)| >= |pieces[0]| > 0;
    }
  }

  /** The reminder is empty exactly when all five groups of fields are empty. */
  lemma ReminderEmptyIff(inputs: string, program: string, variants: string,
                         file: string, folder: string, hints: string)
    ensures Reminder(inputs, program, variants, file, folder, hints) == "" <==>
      inputs == "" && program == "" && variants == "" && file == "" && folder == "" && hints == ""
  {
    var e := "Expected output: " + file + " in " + folder;
    TrimStartDropsLeadingSpaces(e);
    TrimEndDropsTrailingSpaces(TrimStart(e));
    assert Trim(e) != "" by {
      assert !IsSpace(e[0]);
    }
    var lines := ReminderLines(inputs, program, variants, file, folder, hints);
    assert forall k :: 0 <= k < |lines| ==> lines[k] != "";
    JoinEmpty(lines, "\n");
  }

  /** The step built from a sorted row when `emitted` steps precede it. */
  function MakeStep(g: Frame, r: Row, emitted: nat): Step {
    var order := FieldText(g, r, "StepOrder");
    var inputs := FieldText(g, r, "InputNeeded");
    var program := FieldText(g, r, "Program");
    var variants := FieldText(g, r, "Variants");
    var file := FieldText(g, r, "ExpectedOutputFile");
    var folder := FieldText(g, r, "ExpectedOutputFolder");
    var hints := FieldText(g, r, "Hints");
    Step(
      id := if order != "" then "step" + order else "step" + IntToString(emitted + 1),
      order := order,
      stepId := FieldText(g, r, "StepID"),
      title := FieldText(g, r, "Title"),
      inputs := inputs,
      program := program,
      command := FieldText(g, r, "Command"),
      variants := variants,
      expectedFile := file,
      expectedFolder := folder,
      hints := hints,
      phase := FieldText(g, r, "Phase"),
      reminder := Reminder(inputs, program, variants, file, folder, hints),
      notes := "")
  }

  /** `load_steps`. */
  function Steps(f: Frame): Result<seq<Step>, LoadError> {
    if f.rows == [] || f.columns == [] then Ok([])
    else
      var g := WithStepOrder(f);
      StepOrderColumn(f);
      match SortedRows(g.rows, ColumnIndex(g.columns, "StepOrder").value)
      case Err(e) => Err(e)
      case Ok(rows) => Ok(StepsOf(g, rows))
  }

  /** One step per sorted row, each numbered by the steps before it. */
  function StepsOf(g: Frame, rows: seq<Row>): (steps: seq<Step>)
    ensures |steps| == |rows|
  {
    seq(|rows|, k requires 0 <= k < |rows| => MakeStep(g, rows[k], k))
  }

  /** The loop of `load_steps` over the sorted rows. */
  method BuildSteps(g: Frame, rows: seq<Row>) returns (steps: seq<Step>)
    ensures steps == StepsOf(g, rows)
  {
    steps := [];
    ghost var all := StepsOf(g, rows);
    var k := 0;
    while k < |rows|
      invariant k <= |rows| && steps == all[..k]
    {
      var step := MakeStep(g, rows[k], |steps|);
      assert step == all[k];
      PrefixNext(all, k);
      steps := steps + [step];
      k := k + 1;
    }
    assert all[..k] == all;
  }

  method LoadSteps(f: Frame) returns (r: Result<seq<Step>, LoadError>)
    ensures r == Steps(f)
  {
    if f.rows == [] || f.columns == [] {
      return Ok([]);
    }
    var g := WithStepOrder(f);
    StepOrderColumn(f);
    var sorted := SortedRows(g.rows, ColumnIndex(g.columns, "StepOrder").value);
    if sorted.Err? {
      return Err(sorted.error);
    }
    var steps := BuildSteps(g, sorted.value);
    return Ok(steps);
  }

  /** An id is "step" and the order text, or "step" and the step's 1-based
      position when the order is blank; nothing makes ids distinct. */
  lemma StepsOfIds(g: Frame, rows: seq<Row>)
    ensures forall k :: 0 <= k < |rows| ==>
      var s := StepsOf(g, rows)[k];
      s.id == if s.order != "" then "step" + s.order else "step" + IntToString(k + 1)
  {
  }

  /** Every row becomes a step, none is skipped (a frame without columns is empty). */
  lemma StepsKeepEveryRow(f: Frame)
    ensures Steps(f).Ok? && f.columns != [] ==> |Steps(f).value| == |f.rows|
  {
    if f.rows != [] && f.columns != [] {
      var g := WithStepOrder(f);
      StepOrderColumn(f);
      var j := ColumnIndex(g.columns, "StepOrder").value;
      SortedRowsSorts(g.rows, j);
      if SortedRows(g.rows, j).Ok? {
        var rows := SortedRows(g.rows, j).value;
        assert Steps(f) == Ok(StepsOf(g, rows));
        assert |rows| == |multiset(rows)| == |multiset(g.rows)| == |g.rows|;
      }
    }
  }

  /** Without a StepOrder column the rows keep their sheet order, numbered 1..n. */
  lemma StepsWithoutOrderColumn(f: Frame)
    requires f.rows != [] && f.columns != []
    requires ColumnIndex(f.columns, "StepOrder").None?
    ensures Steps(f).Ok? && |Steps(f).value| == |f.rows|
    ensures forall k :: 0 <= k < |f.rows| ==>
      && Steps(f).value[k] == MakeStep(WithStepOrder(f), WithStepOrder(f).rows[k], k)
      && Steps(f).value[k].order == IntToString(k + 1)
      && Steps(f).value[k].id == "step" + IntToString(k + 1)
  {
    var g := WithStepOrder(f);
    NoOrderColumnKeepsRows(f);
    forall k | 0 <= k < |f.rows|
      ensures Steps(f).value[k] == MakeStep(g, g.rows[k], k)
      ensures Steps(f).value[k].order == IntToString(k + 1)
      ensures Steps(f).value[k].id == "step" + IntToString(k + 1)
    {
      NoOrderColumnNumbers(f, k);
    }
  }

  /** The added StepOrder column is already sorted, so the rows stay put. */
  lemma NoOrderColumnKeepsRows(f: Frame)
    requires f.rows != [] && f.columns != []
    requires ColumnIndex(f.columns, "StepOrder").None?
    ensures Steps(f) == Ok(StepsOf(WithStepOrder(f), WithStepOrder(f).rows))
  {
    var g := WithStepOrder(f);
    StepOrderColumn(f);
    var j := |f.columns|;
    assert forall i :: 0 <= i < |g.rows| ==> CellAt(g.rows[i], j) == Int(i + 1);
    assert AllNumeric(g.rows, j);
    assert SortedBy(g.rows, NumKeyAt(j), NumOrder);
    SortByOfSorted(g.rows, NumKeyAt(j), NumOrder);
  }

  /** The added StepOrder column numbers the rows 1..n. */
  lemma NoOrderColumnNumbers(f: Frame, k: nat)
    requires ColumnIndex(f.columns, "StepOrder").None? && k < |f.rows|
    ensures FieldText(WithStepOrder(f), WithStepOrder(f).rows[k], "StepOrder") == IntToString(k + 1)
  {
    var g := WithStepOrder(f);
    StepOrderColumn(f);
    assert CellAt(g.rows[k], |f.columns|) == Int(k + 1);
  }

  // ---------------------------------------------------------------------
  // Template filling
  // ---------------------------------------------------------------------

  const ScriptClose := "</script>"
  const EscapedScriptClose := "<\\/script>"

  /** `steps_json.replace("</script>", "<\/script>")`. */
  function SafeJson(json: string): string {
    ReplaceAll(json, ScriptClose, EscapedScriptClose)
  }

  /** No occurrence of `</script>` can reach into the escaped form: the
      escape's only `<` is followed by a backslash. */
  lemma NoScriptCloseAround(a: string, b: string)
    requires !Contains(a, ScriptClose) && !Contains(b, ScriptClose)
    ensures !Contains(a + EscapedScriptClose + b, ScriptClose)
  {
    var t := a + EscapedScriptClose + b;
    var n := |a|;
    assert forall m :: 1 <= m < 9 ==> ScriptClose[m] != '<';
    assert forall m :: 1 <= m < 10 ==> EscapedScriptClose[m] != '<';
    forall i | 0 <= i
      ensures !OccursAt(t, ScriptClose, i)
    {
      if i + 9 <= |t| {
      if i + 9 <= n {
        assert t[i..i + 9] == a[i..i + 9];
        assert !OccursAt(a, ScriptClose, i);
      } else if i < n {
        assert t[i..i + 9][n - i] == t[n] == '<';
      } else if i == n {
        assert t[i..i + 9][1] == t[n + 1] == '\\';
      } else if i < n + 10 {
        assert t[i..i + 9][0] == t[i] == EscapedScriptClose[i - n];
      } else {
        assert t[i..i + 9] == b[i - n - 10..i - n - 1];
        assert !OccursAt(b, ScriptClose, i - n - 10);
      }
      }
    }
  }

  /** The escaped JSON holds no `</script>`, so it cannot close the page's script element. */
  lemma {:induction false} SafeJsonHasNoScriptClose(json: string)
    ensures !Contains(SafeJson(json), ScriptClose)
    decreases |json|
  {
    match Find(json, ScriptClose, 0)
    case None =>
    case Some(i) =>
      var rest := json[i + 9..];
      SafeJsonHasNoScriptClose(rest);
      assert !Contains(json[..i], ScriptClose) by {
        if Contains(json[..i], ScriptClose) {
          OccursInPrefix(json, ScriptClose, i, Find(json[..i], ScriptClose, 0).value);
        }
      }
      NoScriptCloseAround(json[..i], SafeJson(rest));
  }

  const StepsPlaceholder := "{{STEPS_JSON}}"

  /** `embed_steps_json`, with `json.dumps(steps, indent=2)` given as `stepsJson`. */
  function EmbedStepsJson(html: string, stepsJson: string): string {
    ReplaceAll(html, StepsPlaceholder, SafeJson(stepsJson))
  }

  /** The text between placeholders is kept and the escaped JSON stands at each one. */
  lemma EmbedStepsJsonKeepsText(html: string, stepsJson: string)
    ensures EmbedStepsJson(html, stepsJson) == Join(Split(html, StepsPlaceholder), SafeJson(stepsJson))
    ensures Join(Split(html, StepsPlaceholder), StepsPlaceholder) == html
  {
    ReplaceAllIsJoinOfSplit(html, StepsPlaceholder, SafeJson(stepsJson));
    JoinOfSplitRestores(html, StepsPlaceholder);
  }

  /** The seven placeholders with their values, in replacement order. */
  function HeaderPairs(header: Dict): (pairs: seq<(string, string)>)
    ensures |pairs| == 7
    ensures forall k :: 0 <= k < 7 ==> pairs[k].0 == "{{" + RequiredHeaderFields[k] + "}}"
  {
    seq(7, k requires 0 <= k < 7 =>
      ("{{" + RequiredHeaderFields[k] + "}}", GetOr(header, RequiredHeaderFields[k], "")))
  }

  /** `embed_header_placeholders`. */
  method EmbedHeaderPlaceholders(html: string, header: Dict) returns (out: string)
    ensures out == ReplaceEach(html, HeaderPairs(header))
  {
    var pairs := HeaderPairs(header);
    out := html;
    var k := 0;
    while k < |pairs|
      invariant k <= |pairs|
      invariant out == ReplaceEach(html, pairs[..k])
    {
      ReplaceEachStep(html, pairs, k);
      out := ReplaceAll(out, pairs[k].0, pairs[k].1);
      k := k + 1;
    }
    assert pairs[..k] == pairs;
  }

  /** A template without `{{` comes back unchanged. */
  lemma HeaderPlaceholdersNeedBraces(html: string, header: Dict)
    requires !Contains(html, "{{")
    ensures ReplaceEach(html, HeaderPairs(header)) == html
  {
    var pairs := HeaderPairs(header);
    assert forall k :: 0 <= k < |pairs| ==> "{{" <= pairs[k].0;
    ReplaceEachNeedsPrefix(html, pairs, "{{");
  }

  // ---------------------------------------------------------------------
  // slugify and the output name
  // ---------------------------------------------------------------------

  predicate SlugChar(c: char) {
    IsAlnum(c) || c == '_' || c == '-'
  }

  predicate AllSlugChars(s: string) {
    forall i :: 0 <= i < |s| ==> SlugChar(s[i])
  }

  /** `.replace(" ", "_")`. */
  function Underscored(s: string): (r: string)
    ensures |r| == |s|
  {
    seq(|s|, i requires 0 <= i < |s| => if s[i] == ' ' then '_' else s[i])
  }

  /** `"".join(ch for ch in s if ch.isalnum() or ch in ("_", "-"))`. */
  function KeepSlugChars(s: string): (r: string)
    ensures AllSlugChars(r)
  {
    if s == [] then []
    else (if SlugChar(s[0]) then [s[0]] else []) + KeepSlugChars(s[1..])
  }

  /** `slugify`: never empty, and made of letters, digits, `_` and `-` only. */
  function Slugify(v: string): (r: string)
    ensures r != [] && AllSlugChars(r)
  {
    var cleaned := KeepSlugChars(Underscored(Trim(v)));
    if cleaned == [] then "Checklist" else cleaned
  }

  lemma {:induction false} KeepSlugCharsOfSlug(s: string)
    requires AllSlugChars(s)
    ensures KeepSlugChars(s) == s
  {
    if s != [] {
      KeepSlugCharsOfSlug(s[1..]);
    }
  }

  /** Slugifying a slug changes nothing. */
  lemma SlugifyIdempotent(v: string)
    ensures Slugify(Slugify(v)) == Slugify(v)
  {
    var s := Slugify(v);
    assert NoSpace(s);
    TrimNoSpace(s);
    assert Underscored(s) == s;
    KeepSlugCharsOfSlug(s);
  }

  /** Text of letters, digits, `_`, `-` and inner spaces keeps every
      character, with each space turned into `_`. */
  lemma SlugifySpacesToUnderscores(v: string)
    requires Trim(v) != []
    requires forall i :: 0 <= i < |Trim(v)| ==> SlugChar(Trim(v)[i]) || Trim(v)[i] == ' '
    ensures Slugify(v) == Underscored(Trim(v))
  {
    KeepSlugCharsOfSlug(Underscored(Trim(v)));
  }

  /** The output file `build_output_path` chooses. */
  datatype OutputPath = Given(path: string) | InDefaultDir(fileName: string)

  /** `(header.get(k) or "").strip()`. */
  function HeaderText(header: Dict, k: string): string {
    Trim(GetOr(header, k, ""))
  }

  /** `build_output_path`: an explicit path wins, then the slugified
      META_SOP_DEFAULT, then APP_TITLE_VISIBLE, then the spec file's stem. */
  function BuildOutputPath(specStem: string, header: Dict, outHtml: string): OutputPath {
    if outHtml != "" then Given(outHtml)
    else if HeaderText(header, "META_SOP_DEFAULT") != "" then
      InDefaultDir(Slugify(HeaderText(header, "META_SOP_DEFAULT")) + "_Checklist.html")
    else if HeaderText(header, "APP_TITLE_VISIBLE") != "" then
      InDefaultDir(Slugify(HeaderText(header, "APP_TITLE_VISIBLE")) + "_Checklist.html")
    else InDefaultDir(specStem + "_Checklist.html")
  }

  /** Without an explicit path the file lands directly in the default
      directory: its name has no `/` and ends in `_Checklist.html`; a name
      taken from the header is a slug. */
  lemma OutputPathStaysInDefaultDir(specStem: string, header: Dict)
    requires forall i :: 0 <= i < |specStem| ==> specStem[i] != '/'
    ensures var p := BuildOutputPath(specStem, header, "");
      && p.InDefaultDir?
      && forall i :: 0 <= i < |p.fileName| ==> p.fileName[i] != '/'
    ensures var p := BuildOutputPath(specStem, header, "");
      var n := |p.fileName|;
      && n >= 15 && p.fileName[n - 15..] == "_Checklist.html"
      && (HeaderText(header, "META_SOP_DEFAULT") != "" || HeaderText(header, "APP_TITLE_VISIBLE") != "" ==>
            AllSlugChars(p.fileName[..n - 15]) && p.fileName[..n - 15] != "")
  {
    var stem :=
      if HeaderText(header, "META_SOP_DEFAULT") != "" then Slugify(HeaderText(header, "META_SOP_DEFAULT"))
      else if HeaderText(header, "APP_TITLE_VISIBLE") != "" then Slugify(HeaderText(header, "APP_TITLE_VISIBLE"))
      else specStem;
    assert BuildOutputPath(specStem, header, "") == InDefaultDir(stem + "_Checklist.html");
    CheckListFileName(stem);
  }

  lemma CheckListFileName(stem: string)
    requires forall i :: 0 <= i < |stem| ==> stem[i] != '/'
    ensures var name := stem + "_Checklist.html";
      && (forall i :: 0 <= i < |name| ==> name[i] != '/')
      && name[|name| - 15..] == "_Checklist.html" && name[..|name| - 15] == stem
  {
    var name := stem + "_Checklist.html";
    assert forall i :: 0 <= i < 15 ==> "_Checklist.html"[i] != '/';
    forall i | 0 <= i < |name|
      ensures name[i] != '/'
    {
      if i >= |stem| {
        assert name[i] == "_Checklist.html"[i - |stem|];
      }
    }
  }
}
