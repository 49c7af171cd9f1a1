/** Spreadsheet cells as the builders see them, through openpyxl (v5) or
    through a pandas DataFrame (the other builders). */
module Sheet {
  import opened Strings

  /** An empty cell, a text cell, or a whole-number cell. */
  datatype Cell = Blank | Text(s: string) | Int(n: int)

  type Row = seq<Cell>

  /** A cell past the end of a short row reads as empty. */
  function CellAt(r: Row, j: nat): Cell {
    if j < |r| then r[j] else Blank
  }

  /** openpyxl-side `norm`: an empty cell is "", anything else is `str(v).strip()`. */
  function Norm(c: Cell): string {
    match c
    case Blank => ""
    case Text(s) => Trim(s)
    case Int(n) => IntToString(n)
  }

  /** Normalised text is already stripped, so normalising it again changes nothing. */
  lemma NormTrimmed(c: Cell)
    ensures Trim(Norm(c)) == Norm(c)
  {
    match c
    case Blank =>
    case Text(s) => TrimIdempotent(s);
    case Int(n) => IntToStringNoSpace(n); TrimNoSpace(IntToString(n));
  }

  /** pandas-side `str(v)`: a missing value prints as "nan". */
  function PyStr(c: Cell): string {
    match c
    case Blank => "nan"
    case Text(s) => s
    case Int(n) => IntToString(n)
  }

  /** `"" if pd.isna(v) else str(v)`. */
  function TextOrEmpty(c: Cell): string {
    if c.Blank? then "" else PyStr(c)
  }

  /** `int(v)` inside `try`, for a cell that is not missing. */
  function CellInt(c: Cell): Option<int> {
    match c
    case Blank => None
    case Text(s) => PyInt(s)
    case Int(n) => Some(n)
  }

  predicate AllBlank(r: Row) {
    forall j :: 0 <= j < |r| ==> r[j].Blank?
  }

  /** A pandas DataFrame: the column labels it produced from the header row
      and the data rows below it. */
  datatype Frame = Frame(columns: seq<string>, rows: seq<Row>)

  /** `df.iloc[i][j]`. */
  function At(f: Frame, i: nat, j: nat): Cell
    requires i < |f.rows|
  {
    CellAt(f.rows[i], j)
  }

  /** A row `dropna(how="all")` removes: every cell under a column is missing. */
  predicate RowAllMissing(f: Frame, i: nat)
    requires i < |f.rows|
  {
    forall j :: 0 <= j < |f.columns| ==> At(f, i, j).Blank?
  }

  /** The first column whose name is exactly `name`, as `df[name]` finds it. */
  function ColumnIndex(columns: seq<string>, name: string): (r: Option<nat>)
    ensures r.Some? ==> r.value < |columns| && columns[r.value] == name
    ensures r.Some? ==> forall j :: 0 <= j < r.value ==> columns[j] != name
    ensures r.None? ==> forall j :: 0 <= j < |columns| ==> columns[j] != name
  {
    if columns == [] then None
    else if columns[0] == name then Some(0)
    else match ColumnIndex(columns[1..], name)
      case None => None
      case Some(j) => Some(j + 1)
  }

  /** `row.get(name, "")` followed by the `"" if isna else str(v)` helper. */
  function FieldText(f: Frame, r: Row, name: string): string {
    match ColumnIndex(f.columns, name)
    case None => ""
    case Some(j) => TextOrEmpty(CellAt(r, j))
  }
}
