/** Calendar dates and the three text layouts the trusted scripts parse:
    `%Y-%m-%d` (the full-date form of section 5.6 of RFC 3339), `%d/%m/%Y`
    and the bare year `%Y`. Each parser is characterised by a printer: a
    string parses to `d` exactly when it is `d` printed in that layout. */
module Dates {
  import opened Wrappers
  import opened Text

  datatype Date = Date(year: int, month: int, day: int)

  predicate IsLeapYear(y: int) {
    (y % 4 == 0 && y % 100 != 0) || y % 400 == 0
  }

  function DaysInMonth(y: int, m: int): (n: int)
    requires 1 <= m <= 12
    ensures 28 <= n <= 31
  {
    if m == 2 then (if IsLeapYear(y) then 29 else 28)
    else if m == 4 || m == 6 || m == 9 || m == 11 then 30
    else 31
  }

  /** A day of the proleptic Gregorian calendar. */
  predicate Valid(d: Date) {
    1 <= d.month <= 12 && 1 <= d.day <= DaysInMonth(d.year, d.month)
  }

  /** A valid date whose year has four digits, so every layout can print it. */
  predicate Printable(d: Date) {
    Valid(d) && 0 <= d.year <= 9999
  }

  /** Chronological order: `a` is on or before `b`. */
  predicate NotAfter(a: Date, b: Date) {
    a.year < b.year
    || (a.year == b.year && (a.month < b.month || (a.month == b.month && a.day <= b.day)))
  }

  function FormatIso(d: Date): string
    requires Printable(d)
  {
    Pad(d.year, 4) + "-" + Pad(d.month, 2) + "-" + Pad(d.day, 2)
  }

  function FormatDayFirst(d: Date): string
    requires Printable(d)
  {
    Pad(d.day, 2) + "/" + Pad(d.month, 2) + "/" + Pad(d.year, 4)
  }

  function FormatYear(d: Date): string
    requires Printable(d)
  {
    Pad(d.year, 4)
  }

  /** Splits a ten-character string into three digit fields around two
      separators at positions `a` and `b`. */
  predicate Fields(s: string, a: nat, b: nat, sep: char)
  {
    |s| == 10 && a < b < 10 && s[a] == sep && s[b] == sep
    && AllDigits(s[..a]) && AllDigits(s[a + 1..b]) && AllDigits(s[b + 1..])
  }

  lemma Reassemble(s: string, a: nat, b: nat, sep: char)
    requires Fields(s, a, b, sep)
    ensures s == s[..a] + [sep] + s[a + 1..b] + [sep] + s[b + 1..]
  {
  }

  /** `%Y-%m-%d`: a four-digit year, a two-digit month and a two-digit day
      that together name a real day. */
  function ParseIso(s: string): (r: Option<Date>)
    ensures r.Some? ==> Printable(r.value) && FormatIso(r.value) == s
  {
    if Fields(s, 4, 7, '-') then
      var d := Date(ParseNat(s[..4]), ParseNat(s[5..7]), ParseNat(s[8..]));
      if Valid(d) then
        PadParse(s[..4]);
        PadParse(s[5..7]);
        PadParse(s[8..]);
        Reassemble(s, 4, 7, '-');
        assert FormatIso(d) == Pad(d.year, 4) + "-" + Pad(d.month, 2) + "-" + Pad(d.day, 2);
        Some(d)
      else None
    else None
  }

  /** `%d/%m/%Y`: a two-digit day, a two-digit month and a four-digit year. */
  function ParseDayFirst(s: string): (r: Option<Date>)
    ensures r.Some? ==> Printable(r.value) && FormatDayFirst(r.value) == s
  {
    if Fields(s, 2, 5, '/') then
      var d := Date(ParseNat(s[6..]), ParseNat(s[3..5]), ParseNat(s[..2]));
      if Valid(d) then
        PadParse(s[..2]);
        PadParse(s[3..5]);
        PadParse(s[6..]);
        Reassemble(s, 2, 5, '/');
        Some(d)
      else None
    else None
  }

  /** `%Y` alone: four digits, read as the first of January of that year. */
  function ParseYear(s: string): (r: Option<Date>)
    ensures r.Some? ==> Printable(r.value) && r.value.month == 1 && r.value.day == 1
    ensures r.Some? ==> FormatYear(r.value) == s
  {
    if |s| == 4 && AllDigits(s) then
      PadParse(s);
      Some(Date(ParseNat(s), 1, 1))
    else None
  }

  /** Every printable date, printed as `%Y-%m-%d`, parses back to itself. */
  lemma IsoRoundTrip(d: Date)
    requires Printable(d)
    ensures ParseIso(FormatIso(d)) == Some(d)
  {
    var s := FormatIso(d);
    ParsePad(d.year, 4);
    ParsePad(d.month, 2);
    ParsePad(d.day, 2);
    assert s[..4] == Pad(d.year, 4);
    assert s[5..7] == Pad(d.month, 2);
    assert s[8..] == Pad(d.day, 2);
  }

  /** Every printable date, printed as `%d/%m/%Y`, parses back to itself. */
  lemma DayFirstRoundTrip(d: Date)
    requires Printable(d)
    ensures ParseDayFirst(FormatDayFirst(d)) == Some(d)
  {
    var s := FormatDayFirst(d);
    ParsePad(d.year, 4);
    ParsePad(d.month, 2);
    ParsePad(d.day, 2);
    assert s[..2] == Pad(d.day, 2);
    assert s[3..5] == Pad(d.month, 2);
    assert s[6..] == Pad(d.year, 4);
  }

  /** A printed year parses back to the first of January of that year. */
  lemma YearRoundTrip(d: Date)
    requires Printable(d)
    ensures ParseYear(FormatYear(d)) == Some(Date(d.year, 1, 1))
  {
    ParsePad(d.year, 4);
  }

  /** The parser accepts exactly the printed forms of printable dates, and
      returns the date it was printed from. */
  lemma IsoExact(s: string, d: Date)
    ensures ParseIso(s) == Some(d) <==> Printable(d) && FormatIso(d) == s
  {
    if Printable(d) && FormatIso(d) == s {
      IsoRoundTrip(d);
    }
  }

  /** `min_horizontal` on two dates: a missing date is skipped. */
  function Earlier(a: Option<Date>, b: Option<Date>): Option<Date>
  {
    match (a, b)
    case (None, _) => b
    case (_, None) => a
    case (Some(x), Some(y)) => if NotAfter(x, y) then a else b
  }

  /** `min_horizontal` on three dates: the earliest present date, missing
      only when all three are missing. */
  function Earliest(a: Option<Date>, b: Option<Date>, c: Option<Date>): (r: Option<Date>)
    ensures r.None? <==> a.None? && b.None? && c.None?
    ensures r == a || r == b || r == c
    ensures r.Some? && a.Some? ==> NotAfter(r.value, a.value)
    ensures r.Some? && b.Some? ==> NotAfter(r.value, b.value)
    ensures r.Some? && c.Some? ==> NotAfter(r.value, c.value)
  {
    Earlier(Earlier(a, b), c)
  }
}
