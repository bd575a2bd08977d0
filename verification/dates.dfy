/** Calendar dates as `datetime.date` holds them, their ISO 8601 rendering
    (`date.isoformat()`) and the `strptime(..., "%Y-%m-%d")` reading back. */
module Dates {
  import opened Wrappers
  import opened Text

  datatype Date = Date(year: int, month: int, day: int)

  predicate IsLeap(y: int) {
    y % 4 == 0 && (y % 100 != 0 || y % 400 == 0)
  }

  function DaysInMonth(y: int, m: int): int
    requires 1 <= m <= 12
  {
    if m == 2 then (if IsLeap(y) then 29 else 28)
    else if m == 4 || m == 6 || m == 9 || m == 11 then 30
    else 31
  }

  /** The dates `datetime.date` can represent (MINYEAR 1 to MAXYEAR 9999). */
  predicate Valid(d: Date) {
    && 1 <= d.year <= 9999
    && 1 <= d.month <= 12
    && 1 <= d.day <= DaysInMonth(d.year, d.month)
  }

  type ValidDate = d: Date | Valid(d) witness Date(1, 1, 1)

  function Pow10(n: nat): nat {
    if n == 0 then 1 else 10 * Pow10(n - 1)
  }

  function DigitChar(n: int): (c: char)
    requires 0 <= n < 10
    ensures IsDigit(c)
  {
    ('0' as int + n) as char
  }

  function DigitValue(c: char): (n: int)
    requires IsDigit(c)
    ensures 0 <= n < 10
  {
    c as int - '0' as int
  }

  predicate AllDigits(s: string) {
    forall k :: 0 <= k < |s| ==> IsDigit(s[k])
  }

  /** `n` written with exactly `width` decimal digits, zero-padded on the left. */
  function Pad(n: nat, width: nat): (r: string)
    ensures |r| == width && AllDigits(r)
  {
    if width == 0 then [] else Pad(n / 10, width - 1) + [DigitChar(n % 10)]
  }

  /** The value of a string of decimal digits. */
  function Number(s: string): (n: nat)
    requires AllDigits(s)
    ensures n < Pow10(|s|)
  {
    if s == [] then 0 else Number(s[..|s| - 1]) * 10 + DigitValue(s[|s| - 1])
  }

  lemma {:induction false} NumberPad(n: nat, width: nat)
    requires n < Pow10(width)
    ensures Number(Pad(n, width)) == n
  {
    if width > 0 {
      var p := Pad(n, width);
      assert p[..width - 1] == Pad(n / 10, width - 1);
      NumberPad(n / 10, width - 1);
    }
  }

  lemma {:induction false} PadNumber(s: string)
    requires AllDigits(s)
    ensures Pad(Number(s), |s|) == s
  {
    if s != [] {
      var init := s[..|s| - 1];
      var n := Number(s);
      assert n / 10 == Number(init) && n % 10 == DigitValue(s[|s| - 1]);
      PadNumber(init);
      assert s == init + [s[|s| - 1]];
    }
  }

  /** The shape the todo.txt regexes accept: `[0-9]{4}-[0-9]{2}-[0-9]{2}`. */
  predicate DateShape(s: string) {
    && |s| == 10
    && AllDigits(s[..4]) && s[4] == '-'
    && AllDigits(s[5..7]) && s[7] == '-'
    && AllDigits(s[8..])
  }

  /** `date.isoformat()`: `YYYY-MM-DD`. */
  function Iso(d: ValidDate): (r: string)
    ensures DateShape(r)
  {
    IsoParts(d);
    Pad(d.year, 4) + "-" + Pad(d.month, 2) + "-" + Pad(d.day, 2)
  }

  /** Where the year, month and day sit in the rendering. */
  lemma IsoParts(d: ValidDate)
    ensures var r := Pad(d.year, 4) + "-" + Pad(d.month, 2) + "-" + Pad(d.day, 2);
      && |r| == 10 && r[4] == '-' && r[7] == '-'
      && r[..4] == Pad(d.year, 4) && r[5..7] == Pad(d.month, 2) && r[8..] == Pad(d.day, 2)
  {
  }

  lemma Pow10Widths()
    ensures Pow10(2) == 100 && Pow10(4) == 10000
  {
    assert Pow10(1) == 10;
    assert Pow10(3) == 1000;
  }

  /** `datetime.strptime(s, "%Y-%m-%d").date()`, `None` where Python raises `ValueError`. */
  function ReadDate(s: string): (r: Option<ValidDate>)
    ensures r.Some? ==> DateShape(s)
  {
    if !DateShape(s) then None
    else
      var d := Date(Number(s[..4]), Number(s[5..7]), Number(s[8..]));
      if Valid(d) then Some(d) else None
  }

  /** Every valid date reads back from its ISO rendering. */
  lemma ReadIso(d: ValidDate)
    ensures ReadDate(Iso(d)) == Some(d)
  {
    IsoParts(d);
    Pow10Widths();
    NumberPad(d.year, 4);
    NumberPad(d.month, 2);
    NumberPad(d.day, 2);
  }

  /** A string that reads as a date is exactly that date's ISO rendering. */
  lemma IsoRead(s: string)
    requires ReadDate(s).Some?
    ensures Iso(ReadDate(s).value) == s
  {
    PadNumber(s[..4]);
    PadNumber(s[5..7]);
    PadNumber(s[8..]);
    assert s == s[..4] + "-" + s[5..7] + "-" + s[8..];
  }
}
