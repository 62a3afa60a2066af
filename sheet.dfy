/** Spreadsheet cells and grids as the loaders produce them. */
module Sheet {
  import opened Wrappers
  import opened Text

  /**
   * A resolved cell: a number, a text, or nothing (`null`). A number cell also carries
   * `shown`, the text `String(value)` gives for it, fixed when the cell is read (`NumberCell`).
   */
  datatype Cell = Num(value: real, shown: string) | Str(text: string) | Empty

  /** The cell of a number read from the workbook, with the decimal text JavaScript prints for it. */
  function NumberCell(x: real): Cell {
    Num(x, NumberText(x))
  }

  /** A number cell whose `shown` text is the one `String(value)` gives. */
  predicate WellFormed(c: Cell) {
    c.Num? ==> c.shown == NumberText(c.value)
  }

  /** A plain value as the workbook library hands it over: `null`, a number or a text. */
  datatype Scalar = NullScalar | NumberScalar(number: real) | TextScalar(str: string)

  /** The cell a plain value resolves to. */
  function ScalarCell(v: Scalar): (c: Cell)
    ensures WellFormed(c)
  {
    match v
    case NullScalar => Empty
    case NumberScalar(x) => NumberCell(x)
    case TextScalar(t) => Str(t)
  }

  /**
   * A cell value as the workbook library hands it over: nothing, a plain number or
   * text, or an object that may carry a cached formula `result`, a `text`, and a
   * `formula`. An absent `result` is `None`; a `null` one is `Some(NullScalar)`.
   */
  datatype RawValue =
    | RawNull
    | RawNumber(number: real)
    | RawString(str: string)
    | RawObject(result: Option<Scalar>, text: Option<string>, formula: bool)

  /** The header rows of a report sheet (0-based): year labels, the actual marker, month labels. */
  const YearRow := 1
  const MarkerRow := 2
  const MonthRow := 3

  type Row = seq<Cell>
  type Grid = seq<Row>

  /** Every number cell of the grid shows the text `String(value)` gives. */
  predicate WellFormedGrid(g: Grid) {
    forall r, c :: 0 <= r < |g| && 0 <= c < |g[r]| ==> WellFormed(g[r][c])
  }

  /** `row[i]`, with an index outside the row reading as `null`. */
  function CellAt(row: Row, i: int): (c: Cell)
    ensures !(0 <= i < |row|) ==> c == Empty
  {
    if 0 <= i < |row| then row[i] else Empty
  }

  /** `grid[r] || []`. */
  function RowAt(grid: Grid, r: int): (row: Row)
    ensures !(0 <= r < |grid|) ==> row == []
  {
    if 0 <= r < |grid| then grid[r] else []
  }

  /** `String(v || '')`: `null`, `0` and the empty text all read as the empty string. */
  function TextOf(c: Cell): (s: string)
    ensures c.Str? ==> s == c.text
    ensures c.Num? ==> s == if c.value == 0.0 then "" else c.shown
    ensures c.Empty? ==> s == []
  {
    match c
    case Empty => ""
    case Str(t) => t
    case Num(x, shown) => if x == 0.0 then "" else shown
  }

  function TextAt(row: Row, i: int): string {
    TextOf(CellAt(row, i))
  }

  /** The text of a number cell is a numeral: it holds no letter, no 年, 月 or 合計. */
  lemma NumberCellIsNumeral(x: real)
    ensures IsNumeral(TextOf(NumberCell(x)))
    ensures TextOf(NumberCell(x)) == [] <==> x == 0.0
  {
    if x != 0.0 {
      NumberTextIsNumeral(x);
    }
  }
}
