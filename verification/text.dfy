/** Character and string helpers: decimal digits, the strict integer
    cast, substring search, ASCII lower-casing and code-point
    (lexicographic) string order. */
module Text {
  import opened Wrappers

  predicate IsDigit(c: char) {
    '0' <= c <= '9'
  }

  predicate AllDigits(s: string) {
    forall i :: 0 <= i < |s| ==> IsDigit(s[i])
  }

  function DigitValue(c: char): nat
    requires IsDigit(c)
  {
    (c as int) - ('0' as int)
  }

  function DigitChar(n: nat): (c: char)
    requires n < 10
    ensures IsDigit(c) && DigitValue(c) == n
  {
    (('0' as int) + n) as char
  }

  function Pow10(n: nat): (p: nat)
    ensures p >= 1
  {
    if n == 0 then 1 else 10 * Pow10(n - 1)
  }

  /** The number a string of decimal digits denotes (leading zeros allowed). */
  function ParseNat(s: string): nat
    requires AllDigits(s)
  {
    if |s| == 0 then 0
    else ParseNat(s[..|s| - 1]) * 10 + DigitValue(s[|s| - 1])
  }

  /** The last `width` decimal digits of `n`, zero-padded on the left. */
  function Pad(n: nat, width: nat): string
  {
    if width == 0 then []
    else Pad(n / 10, width - 1) + [DigitChar(n % 10)]
  }

  /** Printing a number that fits in `width` digits and reading it back
      gives the number again. */
  lemma {:induction false} ParsePad(n: nat, width: nat)
    requires n < Pow10(width)
    ensures |Pad(n, width)| == width
    ensures AllDigits(Pad(n, width))
    ensures ParseNat(Pad(n, width)) == n
  {
    if width == 0 {
      assert n == 0;
    } else {
      var q, d := n / 10, n % 10;
      assert n == q * 10 + d;
      assert q < Pow10(width - 1);
      ParsePad(q, width - 1);
      var s := Pad(n, width);
      assert s[..|s| - 1] == Pad(q, width - 1);
      assert s[|s| - 1] == DigitChar(d);
    }
  }

  /** Reading a digit string and printing it back at its own width gives the
      same string: a digit string is the only spelling of its number. */
  lemma {:induction false} PadParse(s: string)
    requires AllDigits(s)
    ensures ParseNat(s) < Pow10(|s|)
    ensures Pad(ParseNat(s), |s|) == s
  {
    if |s| > 0 {
      var init, last := s[..|s| - 1], s[|s| - 1];
      PadParse(init);
      var n, q, d := ParseNat(s), ParseNat(init), DigitValue(last);
      assert n == q * 10 + d;
      assert n / 10 == q && n % 10 == d;
      assert q <= Pow10(|s| - 1) - 1;
      assert n <= (Pow10(|s| - 1) - 1) * 10 + 9;
      assert DigitChar(d) == last;
      assert s == init + [last];
    }
  }

  /** Substring search as the scan does it: does `p` start here, or
      anywhere further on? */
  predicate Occurs(p: string, s: string)
    decreases |s|
  {
    |p| <= |s| && (s[..|p|] == p || Occurs(p, s[1..]))
  }

  /** `p` appears in `s` starting at position `i`. */
  predicate OccursAt(p: string, s: string, i: int) {
    0 <= i && i + |p| <= |s| && s[i..i + |p|] == p
  }

  /** The scan finds `p` exactly when `p` appears at some position of `s`. */
  lemma {:induction false} OccursIff(p: string, s: string)
    ensures Occurs(p, s) <==> exists i :: OccursAt(p, s, i)
    decreases |s|
  {
    if |p| <= |s| {
      if s[..|p|] == p {
        assert OccursAt(p, s, 0);
      } else {
        OccursIff(p, s[1..]);
        if Occurs(p, s[1..]) {
          var i :| OccursAt(p, s[1..], i);
          assert s[1..][i..i + |p|] == s[i + 1..i + 1 + |p|];
          assert OccursAt(p, s, i + 1);
        }
        if i :| OccursAt(p, s, i) {
          assert i != 0;
          assert s[1..][i - 1..i - 1 + |p|] == s[i..i + |p|];
          assert OccursAt(p, s[1..], i - 1);
        }
      }
    } else {
      if i :| OccursAt(p, s, i) {
        assert false;
      }
    }
  }

  function LowerChar(c: char): char {
    if 'A' <= c <= 'Z' then ((c as int) + 32) as char else c
  }

  /** ASCII lower-casing, applied character by character. */
  function Lower(s: string): (r: string)
    ensures |r| == |s|
    ensures forall i :: 0 <= i < |s| ==> r[i] == LowerChar(s[i])
  {
    seq(|s|, i requires 0 <= i < |s| => LowerChar(s[i]))
  }

  lemma LowerAppend(a: string, b: string)
    ensures Lower(a + b) == Lower(a) + Lower(b)
  {
  }

  /** A sequence without repeated elements has as many distinct elements
      as it has positions. */
  lemma {:induction false} DistinctSize<T>(s: seq<T>)
    requires forall i, j :: 0 <= i < j < |s| ==> s[i] != s[j]
    ensures |set x | x in s| == |s|
  {
    if |s| > 0 {
      var init := s[..|s| - 1];
      DistinctSize(init);
      assert (set x | x in s) == (set x | x in init) + {s[|s| - 1]};
    }
  }

  /** Strict string order by code point, the order a string sort uses. */
  predicate LexLess(a: string, b: string)
    decreases |a|
  {
    |b| > 0 && (|a| == 0 || a[0] < b[0] || (a[0] == b[0] && LexLess(a[1..], b[1..])))
  }

  /** Two strings that differ in their first character are ordered by it. */
  lemma LexLessByFirst(a: string, b: string)
    requires |a| > 0 && |b| > 0 && a[0] != b[0]
    ensures LexLess(a, b) <==> a[0] < b[0]
  {
  }

  /** A strict cast of text to a 64-bit integer: an optional minus sign and
      at least one decimal digit. */
  function ParseInt(s: string): Option<int> {
    if |s| >= 2 && s[0] == '-' && AllDigits(s[1..]) then Some(-(ParseNat(s[1..]) as int))
    else if |s| >= 1 && AllDigits(s) then Some(ParseNat(s))
    else None
  }

  /** An integer written with `width` digits and a sign when negative. */
  function FormatInt(x: int, width: nat): string {
    if x < 0 then "-" + Pad(-x, width) else Pad(x, width)
  }

  /** Printing an integer and casting it back gives the integer again. */
  lemma {:induction false} ParseFormatInt(x: int, width: nat)
    requires width >= 1 && -(Pow10(width) as int) < x < Pow10(width)
    ensures ParseInt(FormatInt(x, width)) == Some(x)
  {
    if x < 0 {
      ParseFormatNegative(-x, width);
    } else {
      ParseFormatNatural(x, width);
    }
  }

  lemma {:induction false} ParseFormatNegative(m: nat, width: nat)
    requires 1 <= m < Pow10(width) && width >= 1
    ensures ParseInt(FormatInt(-(m as int), width)) == Some(-(m as int))
  {
    ParsePad(m, width);
    ParseNegative(Pad(m, width));
  }

  /** A minus sign before a digit string reads as the negated digits. */
  lemma {:induction false} ParseNegative(p: string)
    requires |p| >= 1 && AllDigits(p)
    ensures ParseInt("-" + p) == Some(-(ParseNat(p) as int))
  {
    assert ("-" + p)[1..] == p;
  }

  lemma {:induction false} ParseFormatNatural(m: nat, width: nat)
    requires m < Pow10(width) && width >= 1
    ensures ParseInt(FormatInt(m, width)) == Some(m)
  {
    ParsePad(m, width);
    var s := FormatInt(m, width);
    assert s == Pad(m, width);
    assert IsDigit(s[0]);
  }

  lemma {:induction false} NegAccepts(s: string)
    requires |s| >= 2 && s[0] == '-' && AllDigits(s[1..])
    ensures ParseInt(s) == Some(-(ParseNat(s[1..]) as int))
    ensures s[1..] == Pad(ParseNat(s[1..]), |s| - 1)
  {
    PadParse(s[1..]);
  }

  lemma {:induction false} PosAccepts(s: string)
    requires |s| >= 1 && AllDigits(s)
    ensures s[0] != '-'
    ensures ParseInt(s) == Some(ParseNat(s) as int)
    ensures s == Pad(ParseNat(s), |s|)
  {
    assert IsDigit(s[0]);
    PadParse(s);
  }

  /** The cast accepts only a digit string, possibly after a minus sign,
      and the digits spell the magnitude of the number read. */
  lemma {:induction false} ParseIntAccepts(s: string, v: int)
    requires ParseInt(s) == Some(v)
    ensures |s| >= 1
    ensures s[0] == '-' ==> v <= 0 && s[1..] == Pad(-v, |s| - 1)
    ensures s[0] != '-' ==> v >= 0 && s == Pad(v, |s|)
  {
    if |s| >= 2 && s[0] == '-' && AllDigits(s[1..]) {
      NegAccepts(s);
    } else {
      PosAccepts(s);
    }
  }
}
