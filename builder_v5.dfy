/** `checklist_builder_v5.py`: reads a workbook through openpyxl, builds the
    `sopInfo` object and the step list, and writes both into the
    `let sopInfo = {...};` and `let steps = [...];` blocks of a template. */
module ChecklistBuilderV5 {
  import opened Strings
  import opened OrderedDict
  import opened Sheet
  import opened StableSort
  import opened Patterns

  // ---------------------------------------------------------------------
  // Utilities
  // ---------------------------------------------------------------------

  /** `low` applied to text: stripped, then lower-cased. */
  function Low(s: string): string {
    Lower(Trim(s))
  }

  const TrueWords: set<string> := {"y", "yes", "true", "1", "done", "complete", "completed"}
  const FalseWords: set<string> := {"n", "no", "false", "0", ""}

  /** `boolish`: a yes-word is true, a no-word or a blank is false, anything
      else is the default; case and surrounding spaces do not matter. */
  function Boolish(v: string, default: bool): (b: bool)
    ensures Low(v) in TrueWords ==> b
    ensures Low(v) in FalseWords ==> !b
    ensures Low(v) !in TrueWords && Low(v) !in FalseWords ==> b == default
  {
    var s := Low(v);
    if s in TrueWords then true else if s in FalseWords then false else default
  }

  /** `low` applied twice is `low` applied once. */
  lemma LowIdempotent(s: string)
    ensures Low(Low(s)) == Low(s)
  {
    TrimStripped(s);
    LowerStripped(Trim(s));
  }

  /** What `boolish` promises: case and surrounding spaces do not matter; no
      word is both a yes-word and a no-word, so a yes-word gives true and a
      no-word false whatever the default; and the result departs from the
      default only for a word of the other kind. */
  lemma BoolishMeaning(v: string, default: bool)
    ensures Boolish(v, default) == Boolish(Low(v), default)
    ensures TrueWords !! FalseWords
    ensures Low(v) in TrueWords ==> Boolish(v, true) && Boolish(v, false)
    ensures Low(v) in FalseWords ==> !Boolish(v, true) && !Boolish(v, false)
    ensures Boolish(v, default) != default ==> Low(v) in (if default then FalseWords else TrueWords)
  {
    LowIdempotent(v);
    assert TrueWords !! FalseWords;
  }

  /** Where `find_sheet_name` finds a sheet: the index of the first candidate
      that some sheet name equals ignoring case, and the index of the last
      such sheet name (the name-by-lower-case dictionary keeps the last). */
  function FindSheetIndex(names: seq<string>, candidates: seq<string>): (r: Option<(nat, nat)>)
    ensures r.None? ==> forall i, j :: 0 <= i < |candidates| && 0 <= j < |names| ==> Lower(names[j]) != Lower(candidates[i])
    ensures r.Some? ==>
      var (i, j) := r.value;
      && i < |candidates| && j < |names| && Lower(names[j]) == Lower(candidates[i])
      && (forall j' :: j < j' < |names| ==> Lower(names[j']) != Lower(candidates[i]))
      && (forall i', j' :: 0 <= i' < i && 0 <= j' < |names| ==> Lower(names[j']) != Lower(candidates[i']))
  {
    if candidates == [] then None
    else
      match LastNamed(names, Lower(candidates[0]))
      case Some(j) => Some((0, j))
      case None =>
        match FindSheetIndex(names, candidates[1..])
        case None => None
        case Some((i, j)) => Some((i + 1, j))
  }

  /** The last name whose lower-case form is `l`. */
  function LastNamed(names: seq<string>, l: string): (r: Option<nat>)
    ensures r.Some? ==> r.value < |names| && Lower(names[r.value]) == l
    ensures r.Some? ==> forall j :: r.value < j < |names| ==> Lower(names[j]) != l
    ensures r.None? ==> forall j :: 0 <= j < |names| ==> Lower(names[j]) != l
  {
    if names == [] then None
    else if Lower(names[|names| - 1]) == l then Some(|names| - 1)
    else LastNamed(names[..|names| - 1], l)
  }

  /** `find_sheet_name`. */
  function FindSheetName(names: seq<string>, candidates: seq<string>): Option<string> {
    match FindSheetIndex(names, candidates)
    case None => None
    case Some((_, j)) => Some(names[j])
  }

  // ---------------------------------------------------------------------
  // Synonym tables
  // ---------------------------------------------------------------------

  /** Canonical names with the spellings that resolve to them, in table order. */
  type SynonymTable = seq<(string, set<string>)>

  /** The first canonical name (in table order) whose spellings include `x`. */
  function Canonical(table: SynonymTable, x: string): Option<string> {
    if table == [] then None
    else if x in table[0].1 then Some(table[0].0)
    else Canonical(table[1..], x)
  }

  /** The name found is the first row of the table listing the spelling; no
      name is found only when no row lists it. */
  lemma {:induction false} CanonicalFindsFirstListing(table: SynonymTable, x: string)
    ensures Canonical(table, x).None? <==> forall i :: 0 <= i < |table| ==> x !in table[i].1
    ensures Canonical(table, x).Some? ==>
      exists i :: 0 <= i < |table| && table[i].0 == Canonical(table, x).value && x in table[i].1
        && (forall i' :: 0 <= i' < i ==> x !in table[i'].1)
  {
    if table != [] && x !in table[0].1 {
      CanonicalFindsFirstListing(table[1..], x);
      var r := Canonical(table, x);
      if r.Some? {
        var i :| 0 <= i < |table[1..]| && table[1..][i].0 == r.value && x in table[1..][i].1
          && forall i' :: 0 <= i' < i ==> x !in table[1..][i'].1;
        assert table[i + 1] == table[1..][i];
        assert forall i' :: 1 <= i' < i + 1 ==> table[i'] == table[1..][i' - 1];
      }
      assert forall i :: 1 <= i < |table| ==> table[i] == table[1..][i - 1];
    }
  }

  const HeaderKeySynonyms: SynonymTable := [
    ("name", {"name", "sop name", "sopname", "sop_nm"}),
    ("id", {"id", "sop id", "sopid", "sop_id"}),
    ("entity", {"entity", "sop entity", "sopentity", "sop_entity"}),
    ("repo", {"repo", "repo path", "metarepo", "meta repo", "codespaces repo"}),
    ("webRoot", {"webroot", "web root", "publish", "publish target", "stage repo", "web repo"}),
    ("runLabel", {"runlabel", "run label"}),
    ("imgFolder", {"imgfolder", "img folder", "sopimgfolder", "image folder"}),
    ("templateTag", {"templatetag", "template tag", "tag"})
  ]

  /** `canonical_header_key`. */
  function CanonicalHeaderKey(k: string): Option<string> {
    Canonical(HeaderKeySynonyms, Low(k))
  }

  const StepColumnSynonyms: SynonymTable := [
    ("order", {"order", "step", "step_no", "step number", "seq", "sequence"}),
    ("id", {"id", "step_id", "code"}),
    ("title", {"title", "step_title", "name"}),
    ("command", {"command", "cmd", "procedure", "instructions"}),
    ("reminder", {"reminder", "hints", "hint", "tips", "tip"}),
    ("notes", {"notes", "run_notes", "comments"}),
    ("done", {"done", "status", "complete", "completed"})
  ]

  /** `canon_step_col`. */
  function CanonStepColumn(name: string): Option<string> {
    Canonical(StepColumnSynonyms, Low(name))
  }

  // ---------------------------------------------------------------------
  // Finding a header row: the first row with the most resolving cells,
  // accepted only with at least three
  // ---------------------------------------------------------------------

  /** How many cells of the row resolve through the table once normalised. */
  function Hits(row: Row, table: SynonymTable): (n: nat)
    ensures n <= |row|
  {
    if row == [] then 0
    else Hits(row[..|row| - 1], table) + (if Canonical(table, Low(Norm(row[|row| - 1]))).Some? then 1 else 0)
  }

  /** The hit counts of the first `n` rows. */
  function HitCounts(rows: seq<Row>, n: nat, table: SynonymTable): (counts: seq<nat>)
    requires n <= |rows|
    ensures |counts| == n
  {
    seq(n, i requires 0 <= i < n => Hits(rows[i], table))
  }

  /** The scan over the first `n` counts: the first index with the largest
      positive count (a later count must be strictly larger to replace it),
      or nothing when every count is zero. */
  function BestIndex(counts: seq<nat>, n: nat): (r: Option<nat>)
    requires n <= |counts|
    ensures r.Some? ==> r.value < n
  {
    if n == 0 then None
    else
      var b := BestIndex(counts, n - 1);
      var best := if b.Some? then counts[b.value] else 0;
      if counts[n - 1] > best then Some(n - 1) else b
  }

  /** One more count either takes over, when strictly larger, or leaves the best as it was. */
  lemma BestIndexNext(counts: seq<nat>, i: nat, best: Option<nat>, bestCount: nat)
    requires i < |counts|
    requires best == BestIndex(counts, i) && bestCount == if best.Some? then counts[best.value] else 0
    ensures var next := if counts[i] > bestCount then Some(i) else best;
      && next == BestIndex(counts, i + 1)
      && (if counts[i] > bestCount then counts[i] else bestCount) == if next.Some? then counts[next.value] else 0
  {
  }

  /** The scan keeps the first index with the largest positive count. */
  lemma {:induction false} BestIndexIsFirstMax(counts: seq<nat>, n: nat)
    requires n <= |counts|
    ensures var b := BestIndex(counts, n);
      && (b.Some? ==> counts[b.value] > 0)
      && (b.Some? ==> forall i :: 0 <= i < n ==> counts[i] <= counts[b.value])
      && (b.Some? ==> forall i :: 0 <= i < b.value ==> counts[i] < counts[b.value])
      && (b.None? ==> forall i :: 0 <= i < n ==> counts[i] == 0)
  {
    if n > 0 {
      BestIndexIsFirstMax(counts, n - 1);
    }
  }

  /** The header row among the first `n`, if the best one has at least three hits. */
  function HeaderRow(rows: seq<Row>, n: nat, table: SynonymTable): Option<nat>
    requires n <= |rows|
  {
    var counts := HitCounts(rows, n, table);
    var b := BestIndex(counts, n);
    if b.Some? && counts[b.value] >= 3 then b else None
  }

  /** The header row is among the first `n`, has at least three hits, at
      least as many as any other and more than any before it; there is none
      only when every row has fewer than three. */
  lemma HeaderRowIsFirstBest(rows: seq<Row>, n: nat, table: SynonymTable)
    requires n <= |rows|
    ensures var h := HeaderRow(rows, n, table);
      && (h.Some? ==> h.value < n && Hits(rows[h.value], table) >= 3)
      && (h.Some? ==> forall i :: 0 <= i < n ==> Hits(rows[i], table) <= Hits(rows[h.value], table))
      && (h.Some? ==> forall i :: 0 <= i < h.value ==> Hits(rows[i], table) < Hits(rows[h.value], table))
      && (h.None? ==> forall i :: 0 <= i < n ==> Hits(rows[i], table) < 3)
  {
    var counts := HitCounts(rows, n, table);
    BestIndexIsFirstMax(counts, n);
    assert forall i :: 0 <= i < n ==> counts[i] == Hits(rows[i], table);
  }

  method CountHits(row: Row, table: SynonymTable) returns (hits: nat)
    ensures hits == Hits(row, table)
  {
    hits := 0;
    var j := 0;
    while j < |row|
      invariant j <= |row|
      invariant hits == Hits(row[..j], table)
    {
      assert row[..j + 1][..j] == row[..j];
      if Canonical(table, Low(Norm(row[j]))).Some? {
        hits := hits + 1;
      }
      j := j + 1;
    }
    assert row[..j] == row;
  }

  /** The header-row scan of `read_header_row_values` and `find_steps_header_row`. */
  method FindHeaderRow(rows: seq<Row>, n: nat, table: SynonymTable) returns (best: Option<nat>)
    requires n <= |rows|
    ensures best == HeaderRow(rows, n, table)
  {
    var bestI, bestHits := ScanHits(rows, n, table);
    if bestI.None? || bestHits < 3 {
      return None;
    }
    return bestI;
  }

  /** The loop of the scan: the best row so far and its hit count. */
  method ScanHits(rows: seq<Row>, n: nat, table: SynonymTable) returns (bestI: Option<nat>, bestHits: nat)
    requires n <= |rows|
    ensures var counts := HitCounts(rows, n, table);
      bestI == BestIndex(counts, n) && bestHits == if bestI.Some? then counts[bestI.value] else 0
  {
    ghost var counts := HitCounts(rows, n, table);
    bestI := None;
    bestHits := 0;
    var i := 0;
    while i < n
      invariant i <= n
      invariant bestI == BestIndex(counts, i)
      invariant bestHits == if bestI.Some? then counts[bestI.value] else 0
    {
      var hits := CountHits(rows[i], table);
      assert hits == counts[i];
      BestIndexNext(counts, i, bestI, bestHits);
      if hits > bestHits {
        bestHits := hits;
        bestI := Some(i);
      }
      i := i + 1;
    }
  }

  // ---------------------------------------------------------------------
  // Header sheet, key/value layout
  // ---------------------------------------------------------------------

  const KeyColumnNames: set<string> := {"key", "field", "header_key", "name"}
  const ValueColumnNames: set<string> := {"value", "val", "header_value"}

  /** Each cell's text, stripped and lower-cased. */
  function Headings(r: Row): (h: seq<string>)
    ensures |h| == |r|
  {
    seq(|r|, j requires 0 <= j < |r| => Low(Norm(r[j])))
  }

  /** The last of the first `n` headings that is one of `names`. */
  function LastColumnNamed(heads: seq<string>, names: set<string>, n: nat): (r: Option<nat>)
    requires n <= |heads|
    ensures r.Some? ==> r.value < n
  {
    if n == 0 then None
    else if heads[n - 1] in names then Some(n - 1)
    else LastColumnNamed(heads, names, n - 1)
  }

  /** The column found is the last heading that is one of `names`; none is
      found only when no heading is. */
  lemma {:induction false} LastColumnNamedIsLast(heads: seq<string>, names: set<string>, n: nat)
    requires n <= |heads|
    ensures var r := LastColumnNamed(heads, names, n);
      && (r.Some? ==> heads[r.value] in names && forall j :: r.value < j < n ==> heads[j] !in names)
      && (r.None? ==> forall j :: 0 <= j < n ==> heads[j] !in names)
  {
    if n > 0 && heads[n - 1] !in names {
      LastColumnNamedIsLast(heads, names, n - 1);
    }
  }

  function ColumnOr(c: Option<nat>, default: nat): nat {
    if c.Some? then c.value else default
  }

  function KeyOf(r: Row, keyCol: nat): string {
    Norm(CellAt(r, keyCol))
  }

  /** The rows below the first, from a running count of consecutive blank
      keys: a blank key counts, the fifth in a row ends the reading, any
      other key stores its value (a later row with the same key wins). */
  function KeyValuesFrom(rows: seq<Row>, keyCol: nat, valCol: nat, streak: nat, acc: Dict): Dict
    decreases |rows|
  {
    if rows == [] then acc
    else if KeyOf(rows[0], keyCol) == "" then
      if streak + 1 >= 5 then acc else KeyValuesFrom(rows[1..], keyCol, valCol, streak + 1, acc)
    else KeyValuesFrom(rows[1..], keyCol, valCol, 0, Put(acc, KeyOf(rows[0], keyCol), Norm(CellAt(rows[0], valCol))))
  }

  /** `read_header_key_value` as a function of the sheet's rows. */
  function KeyValues(rows: seq<Row>): Dict {
    if rows == [] then []
    else
      var keyCol := ColumnOr(LastColumnNamed(Headings(rows[0]), KeyColumnNames, |rows[0]|), 0);
      var valCol := ColumnOr(LastColumnNamed(Headings(rows[0]), ValueColumnNames, |rows[0]|), 1);
      KeyValuesFrom(rows[1..], keyCol, valCol, 0, [])
  }

  /** `read_header_key_value`. */
  method ReadHeaderKeyValue(rows: seq<Row>) returns (out: Dict)
    ensures out == KeyValues(rows)
    ensures DistinctKeys(out) && "" !in Keys(out)
  {
    out := [];
    if rows == [] {
      return;
    }
    var r1 := rows[0];
    var keyCol := 0;
    var valCol := 1;
    var i := 0;
    while i < |r1|
      invariant i <= |r1|
      invariant keyCol == ColumnOr(LastColumnNamed(Headings(r1), KeyColumnNames, i), 0)
      invariant valCol == ColumnOr(LastColumnNamed(Headings(r1), ValueColumnNames, i), 1)
    {
      var h := Low(Norm(r1[i]));
      if h in KeyColumnNames {
        keyCol := i;
      }
      if h in ValueColumnNames {
        valCol := i;
      }
      i := i + 1;
    }
    KeyValuesWellFormed(rows[1..], keyCol, valCol, 0, []);
    var streak := 0;
    var k := 1;
    while k < |rows|
      invariant 1 <= k <= |rows| && streak < 5
      invariant KeyValuesFrom(rows[k..], keyCol, valCol, streak, out) == KeyValues(rows)
      invariant DistinctKeys(out) && "" !in Keys(out)
    {
      var r := rows[k];
      assert rows[k..][0] == r && rows[k..][1..] == rows[k + 1..];
      var key := KeyOf(r, keyCol);
      var val := Norm(CellAt(r, valCol));
      if key == "" {
        streak := streak + 1;
        if streak >= 5 {
          return;
        }
        k := k + 1;
        continue;
      }
      streak := 0;
      PutKeys(out, key, val);
      PutDistinct(out, key, val);
      out := Put(out, key, val);
      k := k + 1;
    }
  }

  lemma {:induction false} KeyValuesWellFormed(rows: seq<Row>, keyCol: nat, valCol: nat, streak: nat, acc: Dict)
    requires DistinctKeys(acc) && "" !in Keys(acc)
    ensures DistinctKeys(KeyValuesFrom(rows, keyCol, valCol, streak, acc))
    ensures "" !in Keys(KeyValuesFrom(rows, keyCol, valCol, streak, acc))
    decreases |rows|
  {
    if rows != [] {
      var key := KeyOf(rows[0], keyCol);
      if key == "" {
        if streak + 1 < 5 {
          KeyValuesWellFormed(rows[1..], keyCol, valCol, streak + 1, acc);
        }
      } else {
        var val := Norm(CellAt(rows[0], valCol));
        PutKeys(acc, key, val);
        PutDistinct(acc, key, val);
        KeyValuesWellFormed(rows[1..], keyCol, valCol, 0, Put(acc, key, val));
      }
    }
  }

  /** A run of blank keys long enough to reach five ends the reading. */
  lemma {:induction false} BlankKeysEndReading(rows: seq<Row>, keyCol: nat, valCol: nat, streak: nat, acc: Dict, n: nat)
    requires 1 <= n <= |rows| && streak + n >= 5
    requires forall m :: 0 <= m < n ==> KeyOf(rows[m], keyCol) == ""
    ensures KeyValuesFrom(rows, keyCol, valCol, streak, acc) == acc
    decreases n
  {
    if streak + 1 < 5 {
      BlankKeysEndReading(rows[1..], keyCol, valCol, streak + 1, acc, n - 1);
    }
  }

  /** Rows after five consecutive blank keys are never read. */
  lemma {:induction false} KeyValuesStopAfterFiveBlankKeys(rows: seq<Row>, keyCol: nat, valCol: nat, streak: nat, acc: Dict, j: nat)
    requires j + 5 <= |rows|
    requires forall m :: j <= m < j + 5 ==> KeyOf(rows[m], keyCol) == ""
    ensures KeyValuesFrom(rows, keyCol, valCol, streak, acc) == KeyValuesFrom(rows[..j + 5], keyCol, valCol, streak, acc)
    decreases j
  {
    var cut := rows[..j + 5];
    if j == 0 {
      BlankKeysEndReading(rows, keyCol, valCol, streak, acc, 5);
      BlankKeysEndReading(cut, keyCol, valCol, streak, acc, 5);
    } else {
      assert cut[0] == rows[0] && cut[1..] == rows[1..][..j + 4];
      KeyValuesFromFirst(rows, keyCol, valCol, streak, acc);
      KeyValuesFromFirst(cut, keyCol, valCol, streak, acc);
      var next := KeyValuesNext(rows[0], keyCol, valCol, streak, acc);
      if next.Some? {
        KeyValuesStopAfterFiveBlankKeys(rows[1..], keyCol, valCol, next.value.0, next.value.1, j - 1);
      }
    }
  }

  /** What one row does to the reading: stop it, or go on with a new streak and dict. */
  function KeyValuesNext(row: Row, keyCol: nat, valCol: nat, streak: nat, acc: Dict): Option<(nat, Dict)> {
    var key := KeyOf(row, keyCol);
    if key == "" then (if streak + 1 >= 5 then None else Some((streak + 1, acc)))
    else Some((0, Put(acc, key, Norm(CellAt(row, valCol)))))
  }

  /** The first row either stops the reading or hands it on to the rest. */
  lemma KeyValuesFromFirst(rows: seq<Row>, keyCol: nat, valCol: nat, streak: nat, acc: Dict)
    requires rows != []
    ensures KeyValuesFrom(rows, keyCol, valCol, streak, acc) ==
      match KeyValuesNext(rows[0], keyCol, valCol, streak, acc)
      case None => acc
      case Some((s, d)) => KeyValuesFrom(rows[1..], keyCol, valCol, s, d)
  {
  }

  /** The reading gets to the last row: no five consecutive blank keys on the way. */
  predicate ReadsToEnd(rows: seq<Row>, keyCol: nat, streak: nat)
    decreases |rows|
  {
    rows == [] ||
    if KeyOf(rows[0], keyCol) == "" then streak + 1 < 5 && ReadsToEnd(rows[1..], keyCol, streak + 1)
    else ReadsToEnd(rows[1..], keyCol, 0)
  }

  /** The value in the last row whose key is `k`. */
  function LastValueFor(rows: seq<Row>, keyCol: nat, valCol: nat, k: string): Option<string>
    decreases |rows|
  {
    if rows == [] then None
    else
      var later := LastValueFor(rows[1..], keyCol, valCol, k);
      if later.Some? then later
      else if KeyOf(rows[0], keyCol) == k then Some(Norm(CellAt(rows[0], valCol)))
      else None
  }

  /** When the reading gets to the end, each key holds the value of its last row. */
  lemma {:induction false} KeyValuesLastRowWins(rows: seq<Row>, keyCol: nat, valCol: nat, streak: nat, acc: Dict, k: string)
    requires ReadsToEnd(rows, keyCol, streak) && k != ""
    ensures Get(KeyValuesFrom(rows, keyCol, valCol, streak, acc), k) ==
      if LastValueFor(rows, keyCol, valCol, k).Some? then LastValueFor(rows, keyCol, valCol, k) else Get(acc, k)
    decreases |rows|
  {
    if rows != [] {
      var key := KeyOf(rows[0], keyCol);
      if key == "" {
        KeyValuesLastRowWins(rows[1..], keyCol, valCol, streak + 1, acc, k);
      } else {
        KeyValuesLastRowWins(rows[1..], keyCol, valCol, 0, Put(acc, key, Norm(CellAt(rows[0], valCol))), k);
      }
    }
  }

  // ---------------------------------------------------------------------
  // Header sheet, field-names-row layout
  // ---------------------------------------------------------------------

  /** What column `j` of the field-names row contributes: its canonical key
      and the value below it, when the key resolves and the value is not blank. */
  function FieldEntry(names: seq<Option<string>>, valueRow: Row, j: nat): Option<(string, string)>
    requires j < |names|
  {
    var canon := names[j];
    if canon.Some? && j < |valueRow| && Norm(valueRow[j]) != "" then Some((canon.value, Norm(valueRow[j])))
    else None
  }

  /** What every column of the field-names row contributes. */
  function FieldEntries(names: seq<Option<string>>, valueRow: Row): (es: seq<Option<(string, string)>>)
    ensures |es| == |names|
  {
    seq(|names|, j requires 0 <= j < |names| => FieldEntry(names, valueRow, j))
  }

  /** The first `n` columns of the field-names row, each entry assigned in turn. */
  function FieldValues(names: seq<Option<string>>, valueRow: Row, n: nat): Dict
    requires n <= |names|
  {
    PutEntries(FieldEntries(names, valueRow)[..n])
  }

  /** `read_header_row_values` as a function of the sheet's rows: the value
      row is the one right below the field-names row. */
  function RowValues(rows: seq<Row>): Dict {
    if |rows| < 2 then []
    else
      match HeaderRow(rows, Min(15, |rows| - 1), HeaderKeySynonyms)
      case None => []
      case Some(b) => FieldValues(HeaderNames(rows[b], HeaderKeySynonyms), rows[b + 1], |rows[b]|)
  }

  function Min(a: nat, b: nat): nat { if a < b then a else b }

  /** `read_header_row_values`. */
  method ReadHeaderRowValues(rows: seq<Row>) returns (out: Dict)
    ensures out == RowValues(rows)
    ensures DistinctKeys(out)
  {
    if |rows| < 2 {
      return [];
    }
    var best := FindHeaderRow(rows, Min(15, |rows| - 1), HeaderKeySynonyms);
    if best.None? {
      return [];
    }
    out := CollectFieldValues(rows[best.value], rows[best.value + 1], HeaderKeySynonyms);
  }

  /** The loop of `read_header_row_values` over the field-names row. */
  method CollectFieldValues(fieldRow: Row, valueRow: Row, table: SynonymTable) returns (out: Dict)
    ensures out == FieldValues(HeaderNames(fieldRow, table), valueRow, |fieldRow|)
    ensures DistinctKeys(out)
  {
    out := [];
    ghost var names := HeaderNames(fieldRow, table);
    var j := 0;
    while j < |fieldRow|
      invariant j <= |fieldRow|
      invariant out == FieldValues(names, valueRow, j)
      invariant DistinctKeys(out)
    {
      var canon := Canonical(table, Low(Norm(fieldRow[j])));
      assert canon == names[j];
      FieldValuesUnfold(names, valueRow, j + 1, out, FieldEntry(names, valueRow, j));
      if canon.Some? && j < |valueRow| && Norm(valueRow[j]) != "" {
        PutDistinct(out, canon.value, Norm(valueRow[j]));
        out := Put(out, canon.value, Norm(valueRow[j]));
      }
      j := j + 1;
    }
  }

  /** `e` is what one of the first `n` columns contributes. */
  ghost predicate EntryOfSomeColumn(names: seq<Option<string>>, valueRow: Row, n: nat, e: (string, string))
    requires n <= |names|
  {
    exists j :: 0 <= j < n && FieldEntry(names, valueRow, j) == Some(e)
  }

  /** Every entry comes from a column whose name resolves and whose value is not blank. */
  lemma {:induction false} FieldValuesEntries(names: seq<Option<string>>, valueRow: Row, n: nat)
    requires n <= |names|
    ensures forall e :: e in FieldValues(names, valueRow, n) ==> e.1 != "" && EntryOfSomeColumn(names, valueRow, n, e)
  {
    if n > 0 {
      FieldValuesEntries(names, valueRow, n - 1);
      var entry := FieldEntry(names, valueRow, n - 1);
      FieldValuesUnfold(names, valueRow, n, FieldValues(names, valueRow, n - 1), entry);
      forall e | e in FieldValues(names, valueRow, n)
        ensures e.1 != "" && EntryOfSomeColumn(names, valueRow, n, e)
      {
        if entry.Some? && e == entry.value {
          assert FieldEntry(names, valueRow, n - 1) == Some(e);
        } else {
          assert e in FieldValues(names, valueRow, n - 1);
          var j :| 0 <= j < n - 1 && FieldEntry(names, valueRow, j) == Some(e);
        }
      }
    }
  }

  /** A canonical key holds the value below the last column that resolves to it. */
  lemma {:induction false} FieldValuesLastColumnWins(names: seq<Option<string>>, valueRow: Row, n: nat, j: nat, k: string, v: string)
    requires j < n <= |names|
    requires FieldEntry(names, valueRow, j) == Some((k, v))
    requires forall j' :: j < j' < n ==> FieldEntry(names, valueRow, j') == None || FieldEntry(names, valueRow, j').value.0 != k
    ensures Get(FieldValues(names, valueRow, n), k) == Some(v)
    decreases n
  {
    FieldValuesStep(names, valueRow, n, k);
    if j < n - 1 {
      FieldValuesLastColumnWins(names, valueRow, n - 1, j, k, v);
    }
  }

  /** One more column assigns its entry, if it has one. */
  lemma FieldValuesUnfold(names: seq<Option<string>>, valueRow: Row, n: nat, d: Dict, e: Option<(string, string)>)
    requires 0 < n <= |names|
    requires d == FieldValues(names, valueRow, n - 1) && e == FieldEntry(names, valueRow, n - 1)
    ensures FieldValues(names, valueRow, n) == if e.Some? then Put(d, e.value.0, e.value.1) else d
  {
    var es := FieldEntries(names, valueRow);
    assert es[..n][..n - 1] == es[..n - 1];
    assert es[..n][n - 1] == e;
  }

  /** One more column either assigns `k` or leaves it as it was. */
  lemma FieldValuesStep(names: seq<Option<string>>, valueRow: Row, n: nat, k: string)
    requires 0 < n <= |names|
    ensures var e := FieldEntry(names, valueRow, n - 1);
      Get(FieldValues(names, valueRow, n), k) ==
        if e.Some? && e.value.0 == k then Some(e.value.1) else Get(FieldValues(names, valueRow, n - 1), k)
  {
    FieldValuesUnfold(names, valueRow, n, FieldValues(names, valueRow, n - 1), FieldEntry(names, valueRow, n - 1));
  }

  /** A key no column contributes is absent. */
  lemma {:induction false} FieldValuesAbsent(names: seq<Option<string>>, valueRow: Row, n: nat, k: string)
    requires n <= |names|
    requires forall j :: 0 <= j < n ==> FieldEntry(names, valueRow, j) == None || FieldEntry(names, valueRow, j).value.0 != k
    ensures Get(FieldValues(names, valueRow, n), k) == None
    decreases n
  {
    if n > 0 {
      FieldValuesStep(names, valueRow, n, k);
      FieldValuesAbsent(names, valueRow, n - 1, k);
    }
  }

  /** Column keys contribute no duplicate: each assignment replaces in place. */
  lemma FieldValuesDistinct(names: seq<Option<string>>, valueRow: Row, n: nat)
    requires n <= |names|
    ensures DistinctKeys(FieldValues(names, valueRow, n))
  {
    PutEntriesDistinct(FieldEntries(names, valueRow)[..n]);
  }

  // ---------------------------------------------------------------------
  // sopInfo
  // ---------------------------------------------------------------------

  /** The keys of `sopInfo`, in the order the template sees them. */
  const BaseKeys: seq<string> := ["name", "id", "entity", "repo", "webRoot", "runLabel", "imgFolder", "templateTag"]

  /** Their defaults; the last is the UTF-8 of an en dash read as Windows-1252. */
  const BaseDefaults: seq<string> := ["", "", "", "/workspaces/SOP_Build", "/SOP_Stage", "", "../outputs/images/<SOP_ID>", "v8 \U{E2}\U{20AC}\U{201C} injected"]

  /** The base key an input key feeds: its canonical key, else the key
      itself when it already is a base key, else none. */
  function Target(k: string): Option<string> {
    var ck := CanonicalHeaderKey(k);
    if ck.Some? then ck else if Listed(BaseKeys, k) then Some(k) else None
  }

  /** `k in xs`, one element at a time. */
  predicate Listed(xs: seq<string>, k: string) {
    xs != [] && (xs[0] == k || Listed(xs[1..], k))
  }

  /** The `normalized` dictionary after the first `n` entries of `headerData`. */
  function Normalized(headerData: Dict, n: nat): Dict
    requires n <= |headerData|
  {
    if n == 0 then []
    else
      var d := Normalized(headerData, n - 1);
      match Target(headerData[n - 1].0)
      case None => d
      case Some(c) => Put(d, c, Trim(headerData[n - 1].1))
  }

  /** Base key `i` of `sopInfo`: the normalised value if there is a non-empty one. */
  function SopInfoValue(headerData: Dict, i: nat): string
    requires i < |BaseKeys|
  {
    var v := Get(Normalized(headerData, |headerData|), BaseKeys[i]);
    if v.Some? && v.value != "" then v.value else BaseDefaults[i]
  }

  /** `build_sopinfo` as a function of its input. */
  function SopInfo(headerData: Dict): Dict {
    seq(|BaseKeys|, i requires 0 <= i < |BaseKeys| => (BaseKeys[i], SopInfoValue(headerData, i)))
  }

  lemma BaseKeysDistinct()
    ensures forall i, j :: 0 <= i < j < |BaseKeys| ==> BaseKeys[i] != BaseKeys[j]
  {
  }

  /** The first loop of `build_sopinfo`: keys made canonical, values stripped. */
  method NormalizeKeys(headerData: Dict) returns (normalized: Dict)
    ensures normalized == Normalized(headerData, |headerData|)
  {
    normalized := [];
    var n := 0;
    while n < |headerData|
      invariant n <= |headerData|
      invariant normalized == Normalized(headerData, n)
    {
      var (k, v) := headerData[n];
      var ck := CanonicalHeaderKey(k);
      if ck.Some? {
        normalized := Put(normalized, ck.value, Trim(v));
      } else if Listed(BaseKeys, k) {
        normalized := Put(normalized, k, Trim(v));
      }
      n := n + 1;
    }
  }

  /** `build_sopinfo`. */
  method BuildSopInfo(headerData: Dict) returns (base: Dict)
    ensures base == SopInfo(headerData)
  {
    var normalized := NormalizeKeys(headerData);
    base := seq(|BaseKeys|, i requires 0 <= i < |BaseKeys| => (BaseKeys[i], BaseDefaults[i]));
    BaseKeysDistinct();
    var i := 0;
    while i < |BaseKeys|
      invariant i <= |BaseKeys| == |base|
      invariant forall j :: 0 <= j < i ==> base[j] == (BaseKeys[j], SopInfoValue(headerData, j))
      invariant forall j :: i <= j < |BaseKeys| ==> base[j] == (BaseKeys[j], BaseDefaults[j])
    {
      var k := BaseKeys[i];
      var v := Get(normalized, k);
      if v.Some? && v.value != "" {
        PutAt(base, i, v.value);
        base := Put(base, k, v.value);
      }
      i := i + 1;
    }
  }

  /** The stripped value of the last of the first `n` entries that feeds base key `c`. */
  function LastTargeted(headerData: Dict, n: nat, c: string): Option<string>
    requires n <= |headerData|
  {
    if n == 0 then None
    else if Target(headerData[n - 1].0) == Some(c) then Some(Trim(headerData[n - 1].1))
    else LastTargeted(headerData, n - 1, c)
  }

  /** In input order, the last entry that feeds a base key decides it. */
  lemma {:induction false} NormalizedLastWins(headerData: Dict, n: nat, c: string)
    requires n <= |headerData|
    ensures Get(Normalized(headerData, n), c) == LastTargeted(headerData, n, c)
  {
    if n > 0 {
      NormalizedLastWins(headerData, n - 1, c);
    }
  }

  /** Every key of `sopInfo` is present, in base order, and keeps its default
      unless the last value fed to it is non-empty. */
  lemma SopInfoFromLastValues(headerData: Dict, i: nat)
    requires i < |BaseKeys|
    ensures |SopInfo(headerData)| == |BaseKeys| && Keys(SopInfo(headerData)) == BaseKeys
    ensures var last := LastTargeted(headerData, |headerData|, BaseKeys[i]);
      SopInfo(headerData)[i].1 == if last.Some? && last.value != "" then last.value else BaseDefaults[i]
  {
    NormalizedLastWins(headerData, |headerData|, BaseKeys[i]);
  }

  /** Entries after the first `n` do not matter to the first `n`. */
  lemma {:induction false} LastTargetedPrefix(headerData: Dict, more: Dict, n: nat, c: string)
    requires n <= |headerData|
    ensures LastTargeted(headerData + more, n, c) == LastTargeted(headerData, n, c)
  {
    if n > 0 {
      LastTargetedPrefix(headerData, more, n - 1, c);
      assert (headerData + more)[n - 1] == headerData[n - 1];
    }
  }

  /** An entry whose key feeds no base key changes nothing. */
  lemma UntargetedEntryIgnored(headerData: Dict, k: string, v: string)
    requires Target(k).None?
    ensures SopInfo(headerData + [(k, v)]) == SopInfo(headerData)
  {
    var h := headerData + [(k, v)];
    forall i | 0 <= i < |BaseKeys|
      ensures SopInfoValue(h, i) == SopInfoValue(headerData, i)
    {
      LastTargetedPrefix(headerData, [(k, v)], |headerData|, BaseKeys[i]);
      assert h[|headerData|] == (k, v);
      NormalizedLastWins(h, |h|, BaseKeys[i]);
      NormalizedLastWins(headerData, |headerData|, BaseKeys[i]);
    }
  }

  /** When every entry feeding `c` carries `v`, and one does, `c` gets `v`. */
  lemma {:induction false} LastTargetedUniform(headerData: Dict, n: nat, c: string, v: string)
    requires n <= |headerData|
    requires forall i :: 0 <= i < n && Target(headerData[i].0) == Some(c) ==> headerData[i].1 == v
    requires exists i :: 0 <= i < n && Target(headerData[i].0) == Some(c)
    ensures LastTargeted(headerData, n, c) == Some(Trim(v))
  {
    if Target(headerData[n - 1].0) != Some(c) {
      LastTargetedUniform(headerData, n - 1, c, v);
    }
  }

  // ---------------------------------------------------------------------
  // Merging the two header layouts
  // ---------------------------------------------------------------------

  /** The merge as `main` writes it: the key/value entries, then the
      row-values entries assigned over them. */
  function MergeAsWritten(kv: Dict, rv: Dict): Dict
    requires DistinctKeys(kv) && DistinctKeys(rv)
  {
    Update(Update([], kv), rv)
  }

  /** A key/value sheet that names a base key literally and then by a synonym
      keeps its value against the row-values layout: the assignment of "id"
      from the row values lands on the first entry, and the later "SOP ID"
      entry overrides it in `build_sopinfo`. */
  lemma MergeAsWrittenLetsKeyValuesWin()
    ensures var kv := [("id", "A"), ("SOP ID", "B")]; var rv := [("id", "C")];
      && DistinctKeys(kv) && DistinctKeys(rv) && Get(rv, "id") == Some("C")
      && SopInfo(MergeAsWritten(kv, rv))[1] == ("id", "B")
  {
    var kv := [("id", "A"), ("SOP ID", "B")];
    var rv := [("id", "C")];
    var d1 := Put([], "id", "A");
    var d2 := Put(d1, "SOP ID", "B");
    assert kv[1..] == [("SOP ID", "B")] && kv[1..][1..] == [];
    assert Update([], kv) == d2 == [("id", "A"), ("SOP ID", "B")];
    var m := MergeAsWritten(kv, rv);
    assert m == Put(d2, "id", "C") == [("id", "C"), ("SOP ID", "B")];
    LowOfPlainText("SOP ID", "sop id");
    assert Target("SOP ID") == Some("id");
    TrimNoSpace("B");
    NormalizedLastWins(m, |m|, "id");
  }

  lemma LowOfPlainText(s: string, l: string)
    requires s != [] && !IsSpace(s[0]) && !IsSpace(s[|s| - 1]) && Lower(s) == l
    ensures Low(s) == l
  {
    assert TrimStart(s) == s;
  }

  /** Key/value entries that feed a base key the row values set. */
  function DropSuperseded(kv: Dict, rowKeys: seq<string>): (r: Dict)
    ensures forall e :: e in r <==> e in kv && !(Target(e.0).Some? && Target(e.0).value in rowKeys)
    ensures DistinctKeys(kv) ==> DistinctKeys(r)
  {
    if kv == [] then []
    else
      var rest := DropSuperseded(kv[1..], rowKeys);
      var t := Target(kv[0].0);
      if t.Some? && t.value in rowKeys then rest
      else
        assert DistinctKeys(kv) ==> forall e :: e in rest ==> e.0 != kv[0].0 by {
          if DistinctKeys(kv) {
            forall e | e in rest
              ensures e.0 != kv[0].0
            {
              var j :| 0 <= j < |kv[1..]| && kv[1..][j] == e;
              assert kv[j + 1] == e;
            }
          }
        }
        [kv[0]] + rest
  }

  /** The merge the comment in `main` describes: whatever the row values
      set wins, the key/value entries fill in the rest. */
  function MergePreferRows(kv: Dict, rv: Dict): Dict
    requires DistinctKeys(kv) && DistinctKeys(rv)
  {
    Update(Update([], DropSuperseded(kv, Keys(rv))), rv)
  }

  /** With the corrected merge, a non-blank value of the row-values layout
      is what `sopInfo` holds for its key. */
  lemma MergePreferRowsLetsRowValuesWin(kv: Dict, rv: Dict, i: nat, v: string)
    requires DistinctKeys(kv) && DistinctKeys(rv)
    requires forall e :: e in rv ==> Target(e.0) == Some(e.0)
    requires i < |BaseKeys| && Get(rv, BaseKeys[i]) == Some(v) && Trim(v) != ""
    ensures SopInfo(MergePreferRows(kv, rv))[i] == (BaseKeys[i], Trim(v))
  {
    var c := BaseKeys[i];
    var f := DropSuperseded(kv, Keys(rv));
    var m := MergePreferRows(kv, rv);
    UpdateEntries([], f);
    UpdateEntries(Update([], f), rv);
    GetNone(rv, c);
    GetSome(rv, c);
    GetSome(m, c);
    forall j | 0 <= j < |m| && Target(m[j].0) == Some(c)
      ensures m[j].1 == v
    {
      var e := m[j];
      assert e in m;
      assert e in rv;
      var jr :| 0 <= jr < |rv| && rv[jr] == e;
      GetInDistinct(rv, jr);
    }
    var jc :| 0 <= jc < |m| && m[jc] == (c, v);
    LastTargetedUniform(m, |m|, c, v);
    SopInfoFromLastValues(m, i);
  }

  /** A spelling listed by row `i` and by no earlier row resolves to row `i`'s name. */
  lemma {:induction false} CanonicalOfListed(table: SynonymTable, x: string, i: nat)
    requires i < |table| && x in table[i].1
    requires forall i' :: 0 <= i' < i ==> x !in table[i'].1
    ensures Canonical(table, x) == Some(table[i].0)
  {
    if i > 0 {
      CanonicalOfListed(table[1..], x, i - 1);
    }
  }

  lemma BaseKey0Resolves()
    ensures CanonicalHeaderKey(BaseKeys[0]) == Some(BaseKeys[0])
  {
    LowOfPlainText("name", "name");
    CanonicalOfListed(HeaderKeySynonyms, "name", 0);
  }

  lemma BaseKey1Resolves()
    ensures CanonicalHeaderKey(BaseKeys[1]) == Some(BaseKeys[1])
  {
    LowOfPlainText("id", "id");
    CanonicalOfListed(HeaderKeySynonyms, "id", 1);
  }

  lemma BaseKey2Resolves()
    ensures CanonicalHeaderKey(BaseKeys[2]) == Some(BaseKeys[2])
  {
    LowOfPlainText("entity", "entity");
    CanonicalOfListed(HeaderKeySynonyms, "entity", 2);
  }

  lemma BaseKey3Resolves()
    ensures CanonicalHeaderKey(BaseKeys[3]) == Some(BaseKeys[3])
  {
    LowOfPlainText("repo", "repo");
    CanonicalOfListed(HeaderKeySynonyms, "repo", 3);
  }

  lemma BaseKey4Resolves()
    ensures CanonicalHeaderKey(BaseKeys[4]) == Some(BaseKeys[4])
  {
    LowOfPlainText("webRoot", "webroot");
    CanonicalOfListed(HeaderKeySynonyms, "webroot", 4);
  }

  lemma BaseKey5Resolves()
    ensures CanonicalHeaderKey(BaseKeys[5]) == Some(BaseKeys[5])
  {
    LowOfPlainText("runLabel", "runlabel");
    CanonicalOfListed(HeaderKeySynonyms, "runlabel", 5);
  }

  lemma BaseKey6Resolves()
    ensures CanonicalHeaderKey(BaseKeys[6]) == Some(BaseKeys[6])
  {
    LowOfPlainText("imgFolder", "imgfolder");
    CanonicalOfListed(HeaderKeySynonyms, "imgfolder", 6);
  }

  lemma BaseKey7Resolves()
    ensures CanonicalHeaderKey(BaseKeys[7]) == Some(BaseKeys[7])
  {
    LowOfPlainText("templateTag", "templatetag");
    CanonicalOfListed(HeaderKeySynonyms, "templatetag", 7);
  }

  /** Every base key spells its own canonical key. */
  lemma BaseKeysResolveToThemselves()
    ensures forall i :: 0 <= i < |BaseKeys| ==> HeaderKeySynonyms[i].0 == BaseKeys[i]
    ensures forall i :: 0 <= i < |BaseKeys| ==> CanonicalHeaderKey(BaseKeys[i]) == Some(BaseKeys[i])
  {
    forall i | 0 <= i < |BaseKeys|
      ensures CanonicalHeaderKey(BaseKeys[i]) == Some(BaseKeys[i])
    {
      if i == 0 { BaseKey0Resolves(); }
      else if i == 1 { BaseKey1Resolves(); }
      else if i == 2 { BaseKey2Resolves(); }
      else if i == 3 { BaseKey3Resolves(); }
      else if i == 4 { BaseKey4Resolves(); }
      else if i == 5 { BaseKey5Resolves(); }
      else if i == 6 { BaseKey6Resolves(); }
      else { BaseKey7Resolves(); }
    }
  }

  /** What a column of the field-names row contributes: a base key that
      resolves to itself and a stripped, non-blank value. */
  lemma FieldEntryShape(fieldRow: Row, valueRow: Row, j: nat)
    requires j < |fieldRow| && FieldEntry(HeaderNames(fieldRow, HeaderKeySynonyms), valueRow, j).Some?
    ensures var e := FieldEntry(HeaderNames(fieldRow, HeaderKeySynonyms), valueRow, j).value;
      Target(e.0) == Some(e.0) && e.1 != "" && Trim(e.1) == e.1
  {
    var x := Low(Norm(fieldRow[j]));
    CanonicalFindsFirstListing(HeaderKeySynonyms, x);
    BaseKeysResolveToThemselves();
    NormTrimmed(valueRow[j]);
  }

  /** The row-values layout yields base keys with stripped, non-blank values. */
  lemma RowValuesShape(rows: seq<Row>)
    ensures DistinctKeys(RowValues(rows))
    ensures forall e :: e in RowValues(rows) ==> Target(e.0) == Some(e.0) && e.1 != "" && Trim(e.1) == e.1
  {
    if |rows| >= 2 {
      var h := HeaderRow(rows, Min(15, |rows| - 1), HeaderKeySynonyms);
      if h.Some? {
        var fieldRow := rows[h.value];
        var names := HeaderNames(fieldRow, HeaderKeySynonyms);
        var valueRow := rows[h.value + 1];
        FieldValuesDistinct(names, valueRow, |fieldRow|);
        FieldValuesEntries(names, valueRow, |fieldRow|);
        forall e | e in RowValues(rows)
          ensures Target(e.0) == Some(e.0) && Trim(e.1) == e.1
        {
          var j :| 0 <= j < |fieldRow| && FieldEntry(names, valueRow, j) == Some(e);
          FieldEntryShape(fieldRow, valueRow, j);
        }
      }
    }
  }

  lemma KeyValuesDistinct(rows: seq<Row>)
    ensures DistinctKeys(KeyValues(rows))
  {
    if rows != [] {
      var keyCol := ColumnOr(LastColumnNamed(Headings(rows[0]), KeyColumnNames, |rows[0]|), 0);
      var valCol := ColumnOr(LastColumnNamed(Headings(rows[0]), ValueColumnNames, |rows[0]|), 1);
      KeyValuesWellFormed(rows[1..], keyCol, valCol, 0, []);
    }
  }

  /** The header sheet read in both layouts, merged so that the row values
      win, and turned into `sopInfo`. */
  function HeaderSopInfo(rows: seq<Row>): Dict {
    KeyValuesDistinct(rows);
    RowValuesShape(rows);
    SopInfo(MergePreferRows(KeyValues(rows), RowValues(rows)))
  }

  /** Lines 354-362 of `main`, with the merge letting the row values win. */
  method ReadSopInfo(rows: seq<Row>) returns (sopInfo: Dict)
    ensures sopInfo == HeaderSopInfo(rows)
  {
    var kv := ReadHeaderKeyValue(rows);
    var rv := ReadHeaderRowValues(rows);
    var headerData := MergePreferRows(kv, rv);
    sopInfo := BuildSopInfo(headerData);
  }

  /** Whatever the row-values layout finds for a base key is what `sopInfo` holds. */
  lemma HeaderSopInfoPrefersRowValues(rows: seq<Row>, i: nat, v: string)
    requires i < |BaseKeys| && Get(RowValues(rows), BaseKeys[i]) == Some(v)
    ensures HeaderSopInfo(rows)[i] == (BaseKeys[i], v)
  {
    KeyValuesDistinct(rows);
    RowValuesShape(rows);
    GetSome(RowValues(rows), BaseKeys[i]);
    MergePreferRowsLetsRowValuesWin(KeyValues(rows), RowValues(rows), i, v);
  }

  // ---------------------------------------------------------------------
  // Steps sheet
  // ---------------------------------------------------------------------

  /** One checklist step; its `runs` list is always empty and is left to the
      JSON text. */
  datatype Step = Step(id: string, order: int, title: string, command: string, reminder: string, notes: string, done: bool)

  function OrderOf(s: Step): int {
    s.order
  }

  /** What each header cell resolves to through the table. */
  function HeaderNames(header: Row, table: SynonymTable): (names: seq<Option<string>>)
    ensures |names| == |header|
  {
    seq(|header|, j requires 0 <= j < |header| => Canonical(table, Low(Norm(header[j]))))
  }

  /** `col_map` after the first `n` header cells: each canonical column
      name mapped to the first cell that resolves to it. */
  function ColumnMap(names: seq<Option<string>>, n: nat): map<string, nat>
    requires n <= |names|
  {
    if n == 0 then map[]
    else
      var m := ColumnMap(names, n - 1);
      var c := names[n - 1];
      if c.Some? && c.value !in m then m[c.value := n - 1] else m
  }

  /** One more header cell is mapped only when it resolves to a name not mapped yet. */
  lemma ColumnMapNext(header: Row, table: SynonymTable, j: nat, m: map<string, nat>, c: Option<string>, next: map<string, nat>)
    requires j < |header| && m == ColumnMap(HeaderNames(header, table), j)
    requires c == Canonical(table, Low(Norm(header[j])))
    requires next == if c.Some? && c.value !in m then m[c.value := j] else m
    ensures next == ColumnMap(HeaderNames(header, table), j + 1)
  {
    var names := HeaderNames(header, table);
    assert names[j] == c;
  }

  /** A canonical name maps to the first header cell resolving to it, and is
      mapped exactly when some cell resolves to it. */
  lemma {:induction false} ColumnMapFirstCell(names: seq<Option<string>>, n: nat, c: string)
    requires n <= |names|
    ensures c in ColumnMap(names, n) <==> exists j :: 0 <= j < n && names[j] == Some(c)
    ensures c in ColumnMap(names, n) ==>
      var j := ColumnMap(names, n)[c];
      && j < n && names[j] == Some(c)
      && forall j' :: 0 <= j' < j ==> names[j'] != Some(c)
  {
    if n > 0 {
      ColumnMapFirstCell(names, n - 1, c);
    }
  }

  /** The nested `get`: the normalised cell under a mapped column, else "". */
  function Field(r: Row, colMap: map<string, nat>, col: string): string {
    if col in colMap then Norm(CellAt(r, colMap[col])) else ""
  }

  /** `all(norm(x) == "" for x in r)`. */
  predicate RowBlank(r: Row) {
    forall j :: 0 <= j < |r| ==> Norm(r[j]) == ""
  }

  /** The step read from a non-blank row when `count` steps precede it. */
  function RowStep(r: Row, colMap: map<string, nat>, count: nat): Step {
    var raw := Field(r, colMap, "order");
    var order := if raw != "" && PyInt(raw).Some? then PyInt(raw).value else count + 1;
    var id := Field(r, colMap, "id");
    var title := Field(r, colMap, "title");
    Step(
      if id != "" then id else "Step" + IntToString(order),
      order,
      if title != "" then title else "Step " + IntToString(order),
      Field(r, colMap, "command"),
      Field(r, colMap, "reminder"),
      Field(r, colMap, "notes"),
      Boolish(Field(r, colMap, "done"), false))
  }

  /** A step always has an id and a title; a missing order is one past the
      steps already read, and a default id spells the order after "Step". */
  lemma RowStepDefaults(r: Row, colMap: map<string, nat>, count: nat)
    ensures var s := RowStep(r, colMap, count);
      && s.id != "" && s.title != ""
      && (PyInt(Field(r, colMap, "order")).None? ==> s.order == count + 1)
      && (Field(r, colMap, "id") == "" ==> s.id[..4] == "Step" && ParseInt(s.id[4..]) == Some(s.order))
      && (Field(r, colMap, "title") == "" ==> s.title[..5] == "Step " && ParseInt(s.title[5..]) == Some(s.order))
  {
    var s := RowStep(r, colMap, count);
    IntToStringRoundTrip(s.order);
    assert ("Step" + IntToString(s.order))[4..] == IntToString(s.order);
    assert ("Step " + IntToString(s.order))[5..] == IntToString(s.order);
  }

  /** The rows below the header, from a running count of consecutive blank
      rows: the tenth ends the reading, a non-blank row appends its step. */
  function StepsFrom(rows: seq<Row>, colMap: map<string, nat>, streak: nat, acc: seq<Step>): seq<Step>
    decreases |rows|
  {
    if rows == [] then acc
    else if RowBlank(rows[0]) then
      if streak + 1 >= 10 then acc else StepsFrom(rows[1..], colMap, streak + 1, acc)
    else StepsFrom(rows[1..], colMap, 0, acc + [RowStep(rows[0], colMap, |acc|)])
  }

  /** The steps in reading order, before the sort. */
  function UnsortedSteps(rows: seq<Row>): seq<Step> {
    if rows == [] then []
    else
      match HeaderRow(rows, Min(30, |rows|), StepColumnSynonyms)
      case None => []
      case Some(h) => StepsFrom(rows[h + 1..], ColumnMap(HeaderNames(rows[h], StepColumnSynonyms), |rows[h]|), 0, [])
  }

  /** `read_steps` as a function of the sheet's rows. */
  function Steps(rows: seq<Row>): seq<Step> {
    SortBy(UnsortedSteps(rows), OrderOf, IntLess)
  }

  /** `read_steps`. */
  method ReadSteps(rows: seq<Row>) returns (out: seq<Step>)
    ensures out == Steps(rows)
  {
    var unsorted := ReadUnsortedSteps(rows);
    out := SortBy(unsorted, OrderOf, IntLess);
  }

  /** `read_steps` up to the final sort: find the header, map the columns, collect the rows. */
  method ReadUnsortedSteps(rows: seq<Row>) returns (unsorted: seq<Step>)
    ensures unsorted == UnsortedSteps(rows)
  {
    if rows == [] {
      return [];
    }
    var hdr := FindHeaderRow(rows, Min(30, |rows|), StepColumnSynonyms);
    if hdr.None? {
      return [];
    }
    var h := hdr.value;
    var colMap := CollectColumnMap(rows[h], StepColumnSynonyms);
    assert UnsortedSteps(rows) == StepsFrom(rows[h + 1..], colMap, 0, []);
    unsorted := CollectSteps(rows[h + 1..], colMap);
  }

  /** The row loop of `read_steps`. */
  method CollectSteps(rows: seq<Row>, colMap: map<string, nat>) returns (out: seq<Step>)
    ensures out == StepsFrom(rows, colMap, 0, [])
  {
    out := [];
    var streak := 0;
    var k := 0;
    while k < |rows|
      invariant k <= |rows| && streak < 10
      invariant StepsFrom(rows[k..], colMap, streak, out) == StepsFrom(rows, colMap, 0, [])
    {
      var r := rows[k];
      assert rows[k..][0] == r && rows[k..][1..] == rows[k + 1..];
      if RowBlank(r) {
        if streak + 1 >= 10 {
          return;
        }
        streak := streak + 1;
        k := k + 1;
        continue;
      }
      streak := 0;
      var step := RowStep(r, colMap, |out|);
      out := out + [step];
      k := k + 1;
    }
  }

  /** The `col_map` loop of `read_steps`. */
  method CollectColumnMap(header: Row, table: SynonymTable) returns (colMap: map<string, nat>)
    ensures colMap == ColumnMap(HeaderNames(header, table), |header|)
  {
    colMap := map[];
    for j := 0 to |header|
      invariant colMap == ColumnMap(HeaderNames(header, table), j)
    {
      var c := Canonical(table, Low(Norm(header[j])));
      ghost var before := colMap;
      if c.Some? && c.value !in colMap {
        colMap := colMap[c.value := j];
      }
      ColumnMapNext(header, table, j, before, c, colMap);
    }
  }

  /** The reading only appends to what was read before. */
  lemma {:induction false} StepsFromExtends(rows: seq<Row>, colMap: map<string, nat>, streak: nat, acc: seq<Step>)
    ensures var r := StepsFrom(rows, colMap, streak, acc); |acc| <= |r| && r[..|acc|] == acc
    decreases |rows|
  {
    if rows != [] {
      if RowBlank(rows[0]) {
        if streak + 1 < 10 {
          StepsFromExtends(rows[1..], colMap, streak + 1, acc);
        }
      } else {
        var acc' := acc + [RowStep(rows[0], colMap, |acc|)];
        StepsFromExtends(rows[1..], colMap, 0, acc');
        var r := StepsFrom(rows, colMap, streak, acc);
        assert r[..|acc'|][..|acc|] == r[..|acc|];
      }
    }
  }

  /** `s` is the step some non-blank row gives when `i` steps precede it. */
  ghost predicate StepOfSomeRow(rows: seq<Row>, colMap: map<string, nat>, i: nat, s: Step) {
    exists m :: 0 <= m < |rows| && !RowBlank(rows[m]) && s == RowStep(rows[m], colMap, i)
  }

  lemma StepOfLaterRow(rows: seq<Row>, colMap: map<string, nat>, i: nat, s: Step)
    requires rows != [] && StepOfSomeRow(rows[1..], colMap, i, s)
    ensures StepOfSomeRow(rows, colMap, i, s)
  {
    var m :| 0 <= m < |rows[1..]| && !RowBlank(rows[1..][m]) && s == RowStep(rows[1..][m], colMap, i);
    assert rows[m + 1] == rows[1..][m];
  }

  /** Every new step comes from a non-blank row and is built knowing how
      many steps precede it. */
  lemma StepsFromAppends(rows: seq<Row>, colMap: map<string, nat>, streak: nat, acc: seq<Step>)
    ensures var r := StepsFrom(rows, colMap, streak, acc);
      forall i :: |acc| <= i < |r| ==> StepOfSomeRow(rows, colMap, i, r[i])
  {
    var r := StepsFrom(rows, colMap, streak, acc);
    forall i | |acc| <= i < |r|
      ensures StepOfSomeRow(rows, colMap, i, r[i])
    {
      StepsFromAppendsAt(rows, colMap, streak, acc, i);
    }
  }

  lemma {:induction false} StepsFromAppendsAt(rows: seq<Row>, colMap: map<string, nat>, streak: nat, acc: seq<Step>, i: nat)
    requires |acc| <= i < |StepsFrom(rows, colMap, streak, acc)|
    ensures StepOfSomeRow(rows, colMap, i, StepsFrom(rows, colMap, streak, acc)[i])
    decreases |rows|
  {
    if rows != [] {
      var r := StepsFrom(rows, colMap, streak, acc);
      if RowBlank(rows[0]) {
        if streak + 1 < 10 {
          assert r == StepsFrom(rows[1..], colMap, streak + 1, acc);
          StepsFromAppendsAt(rows[1..], colMap, streak + 1, acc, i);
          StepOfLaterRow(rows, colMap, i, r[i]);
        }
      } else {
        var acc' := acc + [RowStep(rows[0], colMap, |acc|)];
        assert r == StepsFrom(rows[1..], colMap, 0, acc');
        if i == |acc| {
          StepsFromExtends(rows[1..], colMap, 0, acc');
          assert r[i] == r[..|acc'|][i] == RowStep(rows[0], colMap, i);
          assert !RowBlank(rows[0]) && r[i] == RowStep(rows[0], colMap, i);
        } else {
          StepsFromAppendsAt(rows[1..], colMap, 0, acc', i);
          StepOfLaterRow(rows, colMap, i, r[i]);
        }
      }
    }
  }

  /** Reading keeps every step named when the steps before it are. */
  lemma {:induction false} StepsFromNamed(rows: seq<Row>, colMap: map<string, nat>, streak: nat, acc: seq<Step>)
    requires forall s :: s in acc ==> s.id != "" && s.title != ""
    ensures forall s :: s in StepsFrom(rows, colMap, streak, acc) ==> s.id != "" && s.title != ""
    decreases |rows|
  {
    if rows != [] {
      if RowBlank(rows[0]) {
        if streak + 1 < 10 {
          StepsFromNamed(rows[1..], colMap, streak + 1, acc);
        }
      } else {
        RowStepDefaults(rows[0], colMap, |acc|);
        StepsFromNamed(rows[1..], colMap, 0, acc + [RowStep(rows[0], colMap, |acc|)]);
      }
    }
  }

  lemma UnsortedStepsNamed(rows: seq<Row>)
    ensures forall s :: s in UnsortedSteps(rows) ==> s.id != "" && s.title != ""
  {
    if rows != [] {
      var h := HeaderRow(rows, Min(30, |rows|), StepColumnSynonyms);
      if h.Some? {
        StepsFromNamed(rows[h.value + 1..], ColumnMap(HeaderNames(rows[h.value], StepColumnSynonyms), |rows[h.value]|), 0, []);
      }
    }
  }

  /** Every step read has an id and a title. */
  lemma StepsAreNamed(rows: seq<Row>)
    ensures forall s :: s in Steps(rows) ==> s.id != "" && s.title != ""
  {
    UnsortedStepsNamed(rows);
    var u := UnsortedSteps(rows);
    forall s | s in SortBy(u, OrderOf, IntLess)
      ensures s in u
    {
      assert s in multiset(SortBy(u, OrderOf, IntLess));
    }
  }

  /** The steps come out sorted by order, as a permutation of the rows read,
      with steps of equal order in reading order. */
  lemma StepsSortedStably(rows: seq<Row>)
    ensures SortedBy(Steps(rows), OrderOf, IntLess)
    ensures multiset(Steps(rows)) == multiset(UnsortedSteps(rows))
    ensures forall k :: WithKey(Steps(rows), OrderOf, k) == WithKey(UnsortedSteps(rows), OrderOf, k)
  {
    IntLessIsStrictTotalOrder();
    SortBySorted(UnsortedSteps(rows), OrderOf, IntLess);
    forall k
      ensures WithKey(Steps(rows), OrderOf, k) == WithKey(UnsortedSteps(rows), OrderOf, k)
    {
      SortByStable(UnsortedSteps(rows), OrderOf, IntLess, k);
    }
  }

  /** A run of blank rows long enough to reach ten ends the reading. */
  lemma {:induction false} BlankRowsEndSteps(rows: seq<Row>, colMap: map<string, nat>, streak: nat, acc: seq<Step>, n: nat)
    requires 1 <= n <= |rows| && streak + n >= 10
    requires forall m :: 0 <= m < n ==> RowBlank(rows[m])
    ensures StepsFrom(rows, colMap, streak, acc) == acc
    decreases n
  {
    if streak + 1 < 10 {
      BlankRowsEndSteps(rows[1..], colMap, streak + 1, acc, n - 1);
    }
  }

  /** Rows after ten consecutive blank rows are never read. */
  lemma {:induction false} StepsStopAfterTenBlankRows(rows: seq<Row>, colMap: map<string, nat>, streak: nat, acc: seq<Step>, j: nat)
    requires j + 10 <= |rows|
    requires forall m :: j <= m < j + 10 ==> RowBlank(rows[m])
    ensures StepsFrom(rows, colMap, streak, acc) == StepsFrom(rows[..j + 10], colMap, streak, acc)
    decreases j
  {
    var cut := rows[..j + 10];
    if j == 0 {
      BlankRowsEndSteps(rows, colMap, streak, acc, 10);
      BlankRowsEndSteps(cut, colMap, streak, acc, 10);
    } else {
      assert cut[0] == rows[0] && cut[1..] == rows[1..][..j + 9];
      StepsFromFirst(rows, colMap, streak, acc);
      StepsFromFirst(cut, colMap, streak, acc);
      var next := StepsNext(rows[0], colMap, streak, acc);
      if next.Some? {
        StepsStopAfterTenBlankRows(rows[1..], colMap, next.value.0, next.value.1, j - 1);
      }
    }
  }

  /** What one row does to the reading: stop it, or go on with a new streak and steps. */
  function StepsNext(row: Row, colMap: map<string, nat>, streak: nat, acc: seq<Step>): Option<(nat, seq<Step>)> {
    if RowBlank(row) then (if streak + 1 >= 10 then None else Some((streak + 1, acc)))
    else Some((0, acc + [RowStep(row, colMap, |acc|)]))
  }

  /** The first row either stops the reading or hands it on to the rest. */
  lemma StepsFromFirst(rows: seq<Row>, colMap: map<string, nat>, streak: nat, acc: seq<Step>)
    requires rows != []
    ensures StepsFrom(rows, colMap, streak, acc) ==
      match StepsNext(rows[0], colMap, streak, acc)
      case None => acc
      case Some((s, a)) => StepsFrom(rows[1..], colMap, s, a)
  {
  }

  // ---------------------------------------------------------------------
  // Template injection
  // ---------------------------------------------------------------------

  /** `SOPINFO_RE` and `STEPS_RE`; the spaces `STEPS_RE` allows inside the
      brackets are already covered by the lazy part. */
  const SopInfoPattern := LetAssignment("sopInfo", '{', '}', true)
  const StepsPattern := LetAssignment("steps", '[', ']', true)

  datatype InjectError = MissingSopInfo | MissingSteps

  /** `inject`, given the JSON texts of `sopInfo` and of the steps: both
      blocks must be in the template as given; each first match is replaced
      from its opening bracket on by the JSON and a `;`. */
  function Inject(template: string, sopJson: string, stepsJson: string): (r: Result<string, InjectError>)
    ensures r.Err? <==> !Matches(SopInfoPattern, template) || !Matches(StepsPattern, template)
    ensures r.Err? ==> (r.error == MissingSopInfo <==> !Matches(SopInfoPattern, template))
  {
    if !Matches(SopInfoPattern, template) then Err(MissingSopInfo)
    else if !Matches(StepsPattern, template) then Err(MissingSteps)
    else
      var withSopInfo := ReplaceTail(SopInfoPattern, template, sopJson + ";");
      Ok(ReplaceTail(StepsPattern, withSopInfo, stepsJson + ";"))
  }

  /** The sopInfo block is rewritten first: the text before its opening
      brace is kept, the JSON and a `;` follow, and the text after the
      block's `;` is kept; the steps block is then rewritten in that text
      (`ReplaceTailKeepsOutside` says how). */
  lemma InjectRewritesSopInfoFirst(template: string, sopJson: string, stepsJson: string)
    requires Inject(template, sopJson, stepsJson).Ok?
    ensures var m := FirstMatch(SopInfoPattern, template, 0).value;
      var mid := ReplaceTail(SopInfoPattern, template, sopJson + ";");
      && mid[..m.valueStart] == template[..m.valueStart]
      && mid[m.valueStart..m.valueStart + |sopJson| + 1] == sopJson + ";"
      && mid[m.valueStart + |sopJson| + 1..] == template[m.end..]
      && Inject(template, sopJson, stepsJson).value == ReplaceTail(StepsPattern, mid, stepsJson + ";")
  {
    ReplaceTailKeepsOutside(SopInfoPattern, template, sopJson + ";");
  }
}
