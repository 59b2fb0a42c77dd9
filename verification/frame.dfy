/** The table model the trusted scripts work on: a table is a sequence of
    rows, a row maps column names to cells, and a cell is a value or
    missing (polars' null). A column a row does not carry reads as missing.
    Every `with_columns` step is `WithColumn`: one new or replaced column
    computed row by row, every other column kept. */
module Frame {
  import opened Wrappers
  import opened Dates

  datatype Value = Text(s: string) | Num(x: real) | Flag(b: bool) | Day(d: Date)

  type Cell = Option<Value>

  type Row = map<string, Cell>

  type Table = seq<Row>

  /** A strict `strptime` or `cast` that meets a value it cannot convert
      raises, and the script stops. */
  datatype Error = ParseError(column: string)

  function Get(r: Row, c: string): Cell {
    if c in r then r[c] else None
  }

  /** The cell holds this exact text (a comparison with a missing cell is
      never true). */
  predicate IsText(c: Cell, s: string) {
    c == Some(Text(s))
  }

  /** `df.with_columns(expr.alias(c))` for an expression evaluated on each
      row on its own. */
  function WithColumn(t: Table, c: string, f: Row -> Cell): (u: Table)
    ensures |u| == |t|
    ensures forall i :: 0 <= i < |t| ==> Get(u[i], c) == f(t[i])
    ensures forall i, d :: 0 <= i < |t| && d != c ==> Get(u[i], d) == Get(t[i], d)
  {
    seq(|t|, i requires 0 <= i < |t| => t[i][c := f(t[i])])
  }

  /** `df.rename({from: to})`. */
  function RenameColumn(t: Table, from: string, to: string): (u: Table)
    requires from != to
    ensures |u| == |t|
    ensures forall i :: 0 <= i < |t| ==> Get(u[i], to) == Get(t[i], from) && from !in u[i]
    ensures forall i, d :: 0 <= i < |t| && d != from && d != to ==> Get(u[i], d) == Get(t[i], d)
  {
    seq(|t|, i requires 0 <= i < |t| => (t[i] - {from})[to := Get(t[i], from)])
  }

  /** `df.drop(c)`. */
  function DropColumn(t: Table, c: string): (u: Table)
    ensures |u| == |t|
    ensures forall i :: 0 <= i < |t| ==> c !in u[i]
    ensures forall i, d :: 0 <= i < |t| && d != c ==> Get(u[i], d) == Get(t[i], d)
  {
    seq(|t|, i requires 0 <= i < |t| => t[i] - {c})
  }

  /** Converting one cell from text: missing stays missing, text converts
      when `parse` accepts it, and anything else cannot be converted. */
  function ConvertCell(c: Cell, parse: string -> Option<Value>): Option<Cell>
  {
    match c
    case None => Some(None)
    case Some(Text(s)) => (match parse(s) case Some(v) => Some(Some(v)) case None => None)
    case Some(_) => None
  }

  function Converted(c: Cell, parse: string -> Option<Value>): Cell
  {
    match ConvertCell(c, parse)
    case Some(v) => v
    case None => c
  }

  predicate Convertible(t: Table, col: string, parse: string -> Option<Value>)
  {
    forall i :: 0 <= i < |t| ==> ConvertCell(Get(t[i], col), parse).Some?
  }

  /** A strict conversion of one column (`str.strptime`, `cast` with
      `strict=True`): it fails as a whole if any single cell cannot be
      converted, and otherwise replaces every cell by its converted value. */
  function ParseColumn(t: Table, col: string, parse: string -> Option<Value>): (r: Result<Table, Error>)
    ensures r.Failure? <==> exists i :: 0 <= i < |t| && ConvertCell(Get(t[i], col), parse).None?
    ensures r.Failure? ==> r.error == ParseError(col)
    ensures r.Success? ==> |r.value| == |t|
    ensures r.Success? ==> forall i :: 0 <= i < |t| ==>
              Some(Get(r.value[i], col)) == ConvertCell(Get(t[i], col), parse)
    ensures r.Success? ==> forall i, d :: 0 <= i < |t| && d != col ==>
              Get(r.value[i], d) == Get(t[i], d)
  {
    if Convertible(t, col, parse) then
      Success(WithColumn(t, col, row => Converted(Get(row, col), parse)))
    else
      Failure(ParseError(col))
  }

  /** A missing cell stays missing through a successful conversion, and a
      present text becomes exactly what the parser made of it. */
  lemma ConvertedCell(c: Cell, parse: string -> Option<Value>, v: Cell)
    requires ConvertCell(c, parse) == Some(v)
    ensures v.None? <==> c.None?
    ensures forall s :: c == Some(Text(s)) ==> parse(s) == v
  {
  }
}
