/** `str.strptime(pl.Date, fmt)` on one cell, for the layouts the trusted
    scripts use. A missing cell stays missing; a text that does not match
    the layout makes the whole column conversion fail. */
module Strptime {
  import opened Wrappers
  import opened Dates
  import opened Frame

  /** The parser for `%Y-%m-%d`. */
  function IsoDay(s: string): Option<Value> {
    match ParseIso(s)
    case Some(d) => Some(Day(d))
    case None => None
  }

  /** The parser for `%d/%m/%Y`. */
  function DayFirstDay(s: string): Option<Value> {
    match ParseDayFirst(s)
    case Some(d) => Some(Day(d))
    case None => None
  }

  /** The parser for `%Y`. */
  function YearDay(s: string): Option<Value> {
    match ParseYear(s)
    case Some(d) => Some(Day(d))
    case None => None
  }

  /** `after` is what a successful `%Y-%m-%d` parse makes of `before`:
      missing stays missing, and a text becomes the date it spells. */
  predicate IsoParsed(before: Cell, after: Cell) {
    match before
    case None => after.None?
    case Some(Text(s)) => after.Some? && after.value.Day? && Printable(after.value.d) && FormatIso(after.value.d) == s
    case Some(_) => false
  }

  /** `after` is what a successful `%d/%m/%Y` parse makes of `before`. */
  predicate DayFirstParsed(before: Cell, after: Cell) {
    match before
    case None => after.None?
    case Some(Text(s)) => after.Some? && after.value.Day? && Printable(after.value.d) && FormatDayFirst(after.value.d) == s
    case Some(_) => false
  }

  lemma IsoDayParsed(before: Cell, after: Cell)
    requires ConvertCell(before, IsoDay) == Some(after)
    ensures IsoParsed(before, after)
  {
  }

  lemma DayFirstDayParsed(before: Cell, after: Cell)
    requires ConvertCell(before, DayFirstDay) == Some(after)
    ensures DayFirstParsed(before, after)
  {
  }

  /** A strict `%Y-%m-%d` conversion of one column: it fails exactly when
      some present cell is not a date in that layout, and otherwise every
      cell of the column holds the date its text spells. */
  function ParseIsoColumn(t: Table, col: string): (r: Result<Table, Error>)
    ensures r.Failure? <==> exists i :: 0 <= i < |t| && ConvertCell(Get(t[i], col), IsoDay).None?
    ensures r.Success? ==> |r.value| == |t|
    ensures r.Success? ==> forall i :: 0 <= i < |t| ==> IsoParsed(Get(t[i], col), Get(r.value[i], col))
    ensures r.Success? ==> forall i, d :: 0 <= i < |t| && d != col ==> Get(r.value[i], d) == Get(t[i], d)
  {
    var r := ParseColumn(t, col, IsoDay);
    if r.Success? then
      assert forall i :: 0 <= i < |t| ==> IsoParsed(Get(t[i], col), Get(r.value[i], col)) by {
        forall i | 0 <= i < |t|
          ensures IsoParsed(Get(t[i], col), Get(r.value[i], col))
        {
          IsoDayParsed(Get(t[i], col), Get(r.value[i], col));
        }
      }
      r
    else r
  }

  /** A strict `%d/%m/%Y` conversion of one column. */
  function ParseDayFirstColumn(t: Table, col: string): (r: Result<Table, Error>)
    ensures r.Failure? <==> exists i :: 0 <= i < |t| && ConvertCell(Get(t[i], col), DayFirstDay).None?
    ensures r.Success? ==> |r.value| == |t|
    ensures r.Success? ==> forall i :: 0 <= i < |t| ==> DayFirstParsed(Get(t[i], col), Get(r.value[i], col))
    ensures r.Success? ==> forall i, d :: 0 <= i < |t| && d != col ==> Get(r.value[i], d) == Get(t[i], d)
  {
    var r := ParseColumn(t, col, DayFirstDay);
    if r.Success? then
      assert forall i :: 0 <= i < |t| ==> DayFirstParsed(Get(t[i], col), Get(r.value[i], col)) by {
        forall i | 0 <= i < |t|
          ensures DayFirstParsed(Get(t[i], col), Get(r.value[i], col))
        {
          DayFirstDayParsed(Get(t[i], col), Get(r.value[i], col));
        }
      }
      r
    else r
  }
}
