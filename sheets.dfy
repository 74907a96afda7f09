/** Worksheets as pandas reads them (a rectangular grid of optional cell texts) and the tables the
    loaders build from them. */
module Sheets {
  import opened Wrappers
  import opened Seqs

  /** One cell: `None` is pandas' NaN (an empty cell), `Some(s)` the value's `str()` form. */
  type Cell = Option<string>
  type Row = seq<Cell>
  type Grid = seq<Row>

  /** A data frame's rows all have the frame's width. */
  predicate Rectangular(g: Grid) {
    forall i :: 0 <= i < |g| ==> |g[i]| == |g[0]|
  }

  datatype Worksheet = Worksheet(name: string, grid: Grid)

  /** An Excel workbook: sheet names are unique and each sheet reads as a rectangular frame. */
  predicate WellFormed(sheets: seq<Worksheet>) {
    && (forall i, j :: 0 <= i < j < |sheets| ==> sheets[i].name != sheets[j].name)
    && (forall i :: 0 <= i < |sheets| ==> Rectangular(sheets[i].grid))
  }

  type Workbook = sheets: seq<Worksheet> | WellFormed(sheets) witness []

  /** A data frame: column names and rows of cells. */
  datatype Table = Table(columns: seq<string>, rows: seq<Row>)

  /** What the dashboards fail with: an `IndexError` on a sheet with fewer than two rows, a
      `KeyError` on a column the table lacks, or the `KeyError` of looking up the active sheet
      when no sheet was loaded. */
  datatype Failure = SheetTooShort(sheet: string) | MissingColumn(column: string) | NoSheet

  /** A loaded participant sheet: its name, its subtitle and its table. */
  datatype Loaded = Loaded(name: string, subtitle: string, table: Table)

  /** `astype(str)` of a cell: NaN becomes the text "nan". */
  function CellStr(c: Cell): string {
    match c
    case Some(s) => s
    case None => "nan"
  }

  /** The cell in column `j`; columns past the row's end read as empty. */
  function Get(r: Row, j: nat): Cell {
    if j < |r| then r[j] else None
  }

  /** Every cell of the row is empty. */
  predicate IsEmpty(r: Row) {
    forall j :: 0 <= j < |r| ==> r[j].None?
  }

  predicate HasValue(r: Row) {
    !IsEmpty(r)
  }

  /** `dropna(how="all")`: the rows with at least one non-empty cell, in order. */
  function DropEmptyRows(rows: seq<Row>): seq<Row> {
    Filter(rows, HasValue)
  }

  /** `dropna().astype(str).tolist()` on one row: the texts of its non-empty cells, in column order. */
  function NonEmptyTexts(r: Row): (texts: seq<string>)
    ensures |texts| <= |r|
    ensures texts == [] <==> IsEmpty(r)
    decreases |r|
  {
    if r == [] then []
    else
      var rest := NonEmptyTexts(r[1..]);
      assert IsEmpty(r) <==> r[0].None? && IsEmpty(r[1..]) by {
        assert forall j :: 1 <= j < |r| ==> r[j] == r[1..][j - 1];
      }
      match r[0]
      case Some(s) => [s] + rest
      case None => rest
  }

  /** The position of the first column called `name`, if any. */
  function ColumnIndex(columns: seq<string>, name: string): (k: Option<nat>)
    ensures k.Some? ==> k.value < |columns| && columns[k.value] == name
    ensures k.Some? ==> forall j :: 0 <= j < k.value ==> columns[j] != name
    ensures k.None? <==> name !in columns
    decreases |columns|
  {
    if columns == [] then None
    else if columns[0] == name then Some(0)
    else match ColumnIndex(columns[1..], name)
      case Some(j) => Some(j + 1)
      case None => None
  }

  /** The cells of column `j`, row by row (`df[name]`). */
  function ColumnCells(rows: seq<Row>, j: nat): seq<Cell> {
    seq(|rows|, i requires 0 <= i < |rows| => Get(rows[i], j))
  }

  /** The row predicate `df[col] == value`: NaN equals nothing. */
  function CellIs(j: nat, value: string): Row -> bool {
    (r: Row) => Get(r, j) == Some(value)
  }

  /** Some row of `rows` has the value `t` in column `ty`. */
  function HasType(rows: seq<Row>, ty: nat): string -> bool {
    (t: string) => Filter(rows, CellIs(ty, t)) != []
  }

  /** The cell of column `j`, as a sort key. */
  function CellAt(j: nat): Row -> Cell {
    (r: Row) => Get(r, j)
  }
}
