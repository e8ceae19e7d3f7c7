/**
 * Proleptic Gregorian dates as Python's datetime uses them: adding whole days
 * (`date + timedelta(days=n)`), `strftime("%Y%m%d")` and
 * `strptime(s, "%Y%m%d")`.
 */
module Calendar {
  import opened Wrappers
  import Grids

  datatype Date = Date(year: int, month: int, day: int)

  predicate IsLeap(y: int)
  {
    y % 4 == 0 && (y % 100 != 0 || y % 400 == 0)
  }

  function DaysIn(y: int, m: int): (n: int)
    requires 1 <= m <= 12
    ensures 28 <= n <= 31
  {
    if m == 2 then (if IsLeap(y) then 29 else 28)
    else if m == 4 || m == 6 || m == 9 || m == 11 then 30
    else 31
  }

  /** A date Python's datetime can represent. */
  predicate ValidDate(d: Date)
  {
    1 <= d.year <= 9999 && 1 <= d.month <= 12 && 1 <= d.day <= DaysIn(d.year, d.month)
  }

  /** The following calendar day. */
  function NextDay(d: Date): (e: Date)
    requires ValidDate(d) && d.year < 9999
    ensures ValidDate(e)
    ensures d.year <= e.year <= d.year + 1
  {
    if d.day < DaysIn(d.year, d.month) then Date(d.year, d.month, d.day + 1)
    else if d.month < 12 then Date(d.year, d.month + 1, 1)
    else Date(d.year + 1, 1, 1)
  }

  /** `d + timedelta(days=n)`, for results that stay below year 9999. */
  function AddDays(d: Date, n: nat): (e: Date)
    requires ValidDate(d) && d.year + n < 9999
    ensures ValidDate(e)
    ensures d.year <= e.year <= d.year + n
    decreases n
  {
    if n == 0 then d else AddDays(NextDay(d), n - 1)
  }

  /** The days of the months before month m of year y. */
  function DaysBeforeMonth(y: int, m: int): (n: nat)
    requires 1 <= m <= 13
    ensures m > 1 ==> n >= 28 * (m - 1)
  {
    if m == 1 then 0 else DaysBeforeMonth(y, m - 1) + DaysIn(y, m - 1)
  }

  /** The length of year y: the days of all its twelve months. */
  function YearLength(y: int): (n: nat)
    ensures n == if IsLeap(y) then 366 else 365
  {
    var feb := if IsLeap(y) then 29 else 28;
    assert DaysBeforeMonth(y, 2) == 31;
    assert DaysBeforeMonth(y, 3) == feb + 31;
    assert DaysBeforeMonth(y, 4) == feb + 62;
    assert DaysBeforeMonth(y, 5) == feb + 92;
    assert DaysBeforeMonth(y, 6) == feb + 123;
    assert DaysBeforeMonth(y, 7) == feb + 153;
    assert DaysBeforeMonth(y, 8) == feb + 184;
    assert DaysBeforeMonth(y, 9) == feb + 215;
    assert DaysBeforeMonth(y, 10) == feb + 245;
    assert DaysBeforeMonth(y, 11) == feb + 276;
    assert DaysBeforeMonth(y, 12) == feb + 306;
    assert DaysBeforeMonth(y, 13) == feb + 337;
    DaysBeforeMonth(y, 13)
  }

  /** The days of the years 1 .. y-1. */
  function DaysBeforeYear(y: int): nat
    requires y >= 1
  {
    if y == 1 then 0 else DaysBeforeYear(y - 1) + YearLength(y - 1)
  }

  /** The proleptic Gregorian ordinal of a date, 1 January of year 1 being day 1 (`date.toordinal()`). */
  function Ordinal(d: Date): int
    requires ValidDate(d)
  {
    DaysBeforeYear(d.year) + DaysBeforeMonth(d.year, d.month) + d.day
  }

  /** The following day is one ordinal later. */
  lemma NextDayOrdinal(d: Date)
    requires ValidDate(d) && d.year < 9999
    ensures Ordinal(NextDay(d)) == Ordinal(d) + 1
  {
    if d.day == DaysIn(d.year, d.month) && d.month == 12 {
      assert DaysBeforeMonth(d.year, 13) == DaysBeforeMonth(d.year, 12) + DaysIn(d.year, 12);
    }
  }

  /** Adding n days advances the ordinal by exactly n. */
  lemma {:induction false} AddDaysOrdinal(d: Date, n: nat)
    requires ValidDate(d) && d.year + n < 9999
    ensures Ordinal(AddDays(d, n)) == Ordinal(d) + n
    decreases n
  {
    if n > 0 {
      NextDayOrdinal(d);
      AddDaysOrdinal(NextDay(d), n - 1);
    }
  }

  /** The ASCII digit of 0 <= n < 10. */
  function DigitChar(n: int): (c: char)
    requires 0 <= n < 10
    ensures '0' <= c <= '9'
  {
    ('0' as int + n) as char
  }

  predicate IsDigit(c: char)
  {
    '0' <= c <= '9'
  }

  function DigitValue(c: char): (n: int)
    requires IsDigit(c)
    ensures 0 <= n < 10
    ensures DigitChar(n) == c
  {
    c as int - '0' as int
  }

  /** Zero-padded decimal digits of n, `width` of them. */
  function Padded(n: nat, width: nat): (s: string)
    ensures |s| == width
    ensures forall k :: 0 <= k < |s| ==> IsDigit(s[k])
  {
    if width == 0 then [] else Padded(n / 10, width - 1) + [DigitChar(n % 10)]
  }

  /** The number a string of decimal digits denotes. */
  function Number(s: string): (n: nat)
    requires forall k :: 0 <= k < |s| ==> IsDigit(s[k])
  {
    if s == [] then 0 else 10 * Number(s[..|s| - 1]) + DigitValue(s[|s| - 1])
  }

  /** Reading back `width` padded digits gives n modulo 10^width. */
  lemma {:induction false} NumberOfPadded(n: nat, width: nat)
    ensures Number(Padded(n, width)) == n % Pow10(width)
  {
    if width > 0 {
      var s := Padded(n, width);
      assert s[..|s| - 1] == Padded(n / 10, width - 1);
      NumberOfPadded(n / 10, width - 1);
      assert DigitValue(DigitChar(n % 10)) == n % 10;
      ModOfPow10(n, width - 1);
    }
  }

  function Pow10(k: nat): (p: nat)
    ensures p >= 1
  {
    if k == 0 then 1 else 10 * Pow10(k - 1)
  }

  /** n mod 10^(k+1) = 10·((n / 10) mod 10^k) + n mod 10. */
  lemma ModOfPow10(n: nat, k: nat)
    ensures n % Pow10(k + 1) == 10 * ((n / 10) % Pow10(k)) + n % 10
  {
    var p := Pow10(k);
    var q, r := (n / 10) / p, (n / 10) % p;
    assert n / 10 == q * p + r;
    assert n == 10 * (n / 10) + n % 10;
    assert n == q * (10 * p) + (10 * r + n % 10);
    assert 0 <= 10 * r + n % 10 < 10 * p;
    Grids.ModUnique(n, 10 * p, q, 10 * r + n % 10);
  }

  /** `strftime("%Y%m%d")`. */
  function Format(d: Date): (s: string)
    requires ValidDate(d)
    ensures |s| == 8
    ensures forall k :: 0 <= k < |s| ==> IsDigit(s[k])
  {
    Padded(d.year, 4) + Padded(d.month, 2) + Padded(d.day, 2)
  }

  /** `strptime(s, "%Y%m%d")` on the eight-digit form; None where it raises. */
  function Parse(s: string): (r: Option<Date>)
    ensures r.Some? ==> ValidDate(r.value) && Format(r.value) == s
  {
    if |s| == 8 && forall k :: 0 <= k < 8 ==> IsDigit(s[k]) then
      var d := Date(Number(s[..4]), Number(s[4..6]), Number(s[6..]));
      if ValidDate(d) then
        PaddedOfNumber(s[..4]);
        PaddedOfNumber(s[4..6]);
        PaddedOfNumber(s[6..]);
        assert s == s[..4] + s[4..6] + s[6..];
        Some(d)
      else None
    else None
  }

  /** Re-padding the number a digit string denotes to its own width gives the string back. */
  lemma {:induction false} PaddedOfNumber(s: string)
    requires forall k :: 0 <= k < |s| ==> IsDigit(s[k])
    ensures Padded(Number(s), |s|) == s
  {
    if s != [] {
      var init := s[..|s| - 1];
      PaddedOfNumber(init);
      var n := Number(s);
      var c := s[|s| - 1];
      assert n == 10 * Number(init) + DigitValue(c);
      assert n / 10 == Number(init) && n % 10 == DigitValue(c);
      assert s == init + [c];
    }
  }

  /** Parsing a formatted date gives the date back. */
  lemma ParseFormat(d: Date)
    requires ValidDate(d)
    ensures Parse(Format(d)) == Some(d)
  {
    var s := Format(d);
    assert Pow10(2) == 100;
    assert Pow10(4) == 10000;
    PaddedRoundTrip(d.year, 4, 10000);
    PaddedRoundTrip(d.month, 2, 100);
    PaddedRoundTrip(d.day, 2, 100);
    assert s[..4] == Padded(d.year, 4);
    assert s[4..6] == Padded(d.month, 2);
    assert s[6..] == Padded(d.day, 2);
  }

  lemma PaddedRoundTrip(n: nat, width: nat, bound: nat)
    requires bound == Pow10(width) && n < bound
    ensures Number(Padded(n, width)) == n
  {
    NumberOfPadded(n, width);
    Grids.ModUnique(n, bound, 0, n);
  }
}
