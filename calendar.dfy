/**
 * Proleptic Gregorian calendar dates, the day arithmetic of PHP's DateTime
 * and of JavaScript's Date, and instants (a date plus a second of the day).
 *
 * Month and year shifts follow both libraries: the day of the month is kept
 * and a day that does not exist in the target month overflows forward into
 * the following month (2026-03-31 minus one month is 2026-03-03).
 */
module Calendar {
  import opened Text

  datatype Date = Date(year: int, month: int, day: int)

  predicate IsLeapYear(y: int)
  {
    y % 4 == 0 && (y % 100 != 0 || y % 400 == 0)
  }

  function DaysInMonth(y: int, m: int): (n: int)
    requires 1 <= m <= 12
    ensures 28 <= n <= 31
    ensures n == 31 <==> m == 1 || m == 3 || m == 5 || m == 7 || m == 8 || m == 10 || m == 12
    ensures m == 2 ==> (n == 29 <==> IsLeapYear(y))
  {
    if m == 2 then (if IsLeapYear(y) then 29 else 28)
    else if m == 4 || m == 6 || m == 9 || m == 11 then 30
    else 31
  }

  predicate ValidDate(d: Date)
  {
    1 <= d.month <= 12 && 1 <= d.day <= DaysInMonth(d.year, d.month)
  }

  // ---------------------------------------------------------------------
  // Day numbers

  /** Days from 1 January of year 1 to 1 January of year y. */
  function DaysBeforeYear(y: int): int
  {
    365 * (y - 1) + (y - 1) / 4 - (y - 1) / 100 + (y - 1) / 400
  }

  /** Days from 1 January of year y to the first of month m. */
  function DaysBeforeMonth(y: int, m: int): (n: nat)
    requires 1 <= m <= 12
  {
    if m == 1 then 0 else DaysBeforeMonth(y, m - 1) + DaysInMonth(y, m - 1)
  }

  /** The day number of a date; 0001-01-01 is day 0. */
  function Ordinal(d: Date): int
    requires ValidDate(d)
  {
    DaysBeforeYear(d.year) + DaysBeforeMonth(d.year, d.month) + d.day - 1
  }

  lemma DivStep4(y: int)
    ensures y / 4 - (y - 1) / 4 == if y % 4 == 0 then 1 else 0
  {
  }

  lemma DivStep100(y: int)
    ensures y / 100 - (y - 1) / 100 == if y % 100 == 0 then 1 else 0
  {
  }

  lemma DivStep400(y: int)
    ensures y / 400 - (y - 1) / 400 == if y % 400 == 0 then 1 else 0
  {
  }

  lemma YearLength(y: int)
    ensures DaysBeforeYear(y + 1) - DaysBeforeYear(y) == if IsLeapYear(y) then 366 else 365
  {
    DivStep4(y);
    DivStep100(y);
    DivStep400(y);
    if y % 400 == 0 {
      MultipleOf400(y);
    } else if y % 100 == 0 {
      MultipleOf100(y);
    }
  }

  lemma MultipleOf400(y: int)
    requires y % 400 == 0
    ensures y % 100 == 0 && y % 4 == 0
  {
    var q := y / 400;
    assert y == 100 * (4 * q);
    assert y == 4 * (100 * q);
  }

  lemma MultipleOf100(y: int)
    requires y % 100 == 0
    ensures y % 4 == 0
  {
    var q := y / 100;
    assert y == 4 * (25 * q);
  }

  lemma {:induction false} DaysBeforeDecember(y: int)
    ensures DaysBeforeMonth(y, 12) + 31 == if IsLeapYear(y) then 366 else 365
  {
    var feb := DaysInMonth(y, 2);
    assert DaysBeforeMonth(y, 1) == 0;
    assert DaysBeforeMonth(y, 2) == 31;
    assert DaysBeforeMonth(y, 3) == 31 + feb;
    assert DaysBeforeMonth(y, 4) == 31 + feb + 31;
    assert DaysBeforeMonth(y, 5) == 31 + feb + 31 + 30;
    assert DaysBeforeMonth(y, 6) == 31 + feb + 31 + 30 + 31;
    assert DaysBeforeMonth(y, 7) == 31 + feb + 31 + 30 + 31 + 30;
    assert DaysBeforeMonth(y, 8) == 31 + feb + 31 + 30 + 31 + 30 + 31;
    assert DaysBeforeMonth(y, 9) == 31 + feb + 31 + 30 + 31 + 30 + 31 + 31;
    assert DaysBeforeMonth(y, 10) == 31 + feb + 31 + 30 + 31 + 30 + 31 + 31 + 30;
    assert DaysBeforeMonth(y, 11) == 31 + feb + 31 + 30 + 31 + 30 + 31 + 31 + 30 + 31;
    assert DaysBeforeMonth(y, 12) == 31 + feb + 31 + 30 + 31 + 30 + 31 + 31 + 30 + 31 + 30;
  }

  function NextDay(d: Date): (e: Date)
    requires ValidDate(d)
    ensures ValidDate(e)
  {
    if d.day < DaysInMonth(d.year, d.month) then d.(day := d.day + 1)
    else if d.month < 12 then Date(d.year, d.month + 1, 1)
    else Date(d.year + 1, 1, 1)
  }

  /** The next day is one day number later. */
  lemma NextDayOrdinal(d: Date)
    requires ValidDate(d)
    ensures Ordinal(NextDay(d)) == Ordinal(d) + 1
  {
    if d.day < DaysInMonth(d.year, d.month) {
    } else if d.month < 12 {
      MonthBoundaryOrdinal(d.year, d.month);
    } else {
      NewYearOrdinal(d.year);
    }
  }

  /** The first of a month follows the last day of the month before. */
  lemma MonthBoundaryOrdinal(y: int, m: int)
    requires 1 <= m < 12
    ensures Ordinal(Date(y, m + 1, 1)) == Ordinal(Date(y, m, DaysInMonth(y, m))) + 1
  {
  }

  /** 1 January follows 31 December of the year before. */
  lemma NewYearOrdinal(y: int)
    ensures Ordinal(Date(y + 1, 1, 1)) == Ordinal(Date(y, 12, 31)) + 1
  {
    YearLength(y);
    DaysBeforeDecember(y);
  }

  function PrevDay(d: Date): (e: Date)
    requires ValidDate(d)
    ensures ValidDate(e)
  {
    if d.day > 1 then d.(day := d.day - 1)
    else if d.month > 1 then Date(d.year, d.month - 1, DaysInMonth(d.year, d.month - 1))
    else Date(d.year - 1, 12, 31)
  }

  /** The previous day is one day number earlier. */
  lemma PrevDayOrdinal(d: Date)
    requires ValidDate(d)
    ensures Ordinal(PrevDay(d)) == Ordinal(d) - 1
  {
    if d.day > 1 {
    } else if d.month > 1 {
      MonthBoundaryOrdinal(d.year, d.month - 1);
    } else {
      NewYearOrdinal(d.year - 1);
    }
  }

  /** k days after d: PHP modify("+k day"), JavaScript setDate(getDate() + k). */
  function DaysLater(d: Date, k: nat): (e: Date)
    requires ValidDate(d)
    ensures ValidDate(e)
    decreases k
  {
    if k == 0 then d else DaysLater(NextDay(d), k - 1)
  }

  /** k days before d: PHP modify("-k day"), JavaScript setDate(getDate() - k). */
  function DaysEarlier(d: Date, k: nat): (e: Date)
    requires ValidDate(d)
    ensures ValidDate(e)
    decreases k
  {
    if k == 0 then d else DaysEarlier(PrevDay(d), k - 1)
  }

  /** A shift by a signed number of days. */
  function AddDays(d: Date, n: int): (e: Date)
    requires ValidDate(d)
    ensures ValidDate(e)
  {
    if n >= 0 then DaysLater(d, n) else DaysEarlier(d, -n)
  }

  lemma {:induction false} DaysLaterOrdinal(d: Date, k: nat)
    requires ValidDate(d)
    decreases k
    ensures Ordinal(DaysLater(d, k)) == Ordinal(d) + k
  {
    if k > 0 {
      NextDayOrdinal(d);
      DaysLaterOrdinal(NextDay(d), k - 1);
    }
  }

  lemma {:induction false} DaysEarlierOrdinal(d: Date, k: nat)
    requires ValidDate(d)
    decreases k
    ensures Ordinal(DaysEarlier(d, k)) == Ordinal(d) - k
  {
    if k > 0 {
      PrevDayOrdinal(d);
      DaysEarlierOrdinal(PrevDay(d), k - 1);
    }
  }

  /** Adding n days moves the day number by exactly n. */
  lemma AddDaysOrdinal(d: Date, n: int)
    requires ValidDate(d)
    ensures Ordinal(AddDays(d, n)) == Ordinal(d) + n
  {
    if n >= 0 { DaysLaterOrdinal(d, n); } else { DaysEarlierOrdinal(d, -n); }
  }

  // ---------------------------------------------------------------------
  // Month and year shifts

  /**
   * The date (y, m, day) with day possibly past the end of month m, rolled
   * forward into the next month the way DateTime and Date normalise it.
   */
  function Overflow(y: int, m: int, day: int): (e: Date)
    requires 1 <= m <= 12 && 1 <= day <= 31
    ensures ValidDate(e)
  {
    var n := DaysInMonth(y, m);
    if day <= n then Date(y, m, day)
    else if m == 12 then Date(y + 1, 1, day - n)
    else Date(y, m + 1, day - n)
  }

  /** Year of the month that lies k months after month m of year y. */
  function ShiftedYear(y: int, m: int, k: int): int
  {
    (y * 12 + (m - 1) + k) / 12
  }

  function ShiftedMonth(y: int, m: int, k: int): (r: int)
    ensures 1 <= r <= 12
  {
    (y * 12 + (m - 1) + k) % 12 + 1
  }

  /**
   * PHP modify("+k month") and JavaScript setMonth(getMonth() + k): the month
   * moves by k, the day is kept, and a missing day overflows forward.
   */
  function AddMonthsOverflow(d: Date, k: int): (e: Date)
    requires ValidDate(d)
    ensures ValidDate(e)
  {
    Overflow(ShiftedYear(d.year, d.month, k), ShiftedMonth(d.year, d.month, k), d.day)
  }

  /**
   * PHP modify("+k year") and JavaScript setFullYear(getFullYear() + k): the
   * year moves by k; 29 February overflows to 1 March in a common year.
   */
  function AddYearsOverflow(d: Date, k: int): (e: Date)
    requires ValidDate(d)
    ensures ValidDate(e)
  {
    Overflow(d.year + k, d.month, d.day)
  }

  /** The last day of the month before d's month (PHP 'last day of previous month'). */
  function LastDayOfPreviousMonth(d: Date): (e: Date)
    requires ValidDate(d)
    ensures ValidDate(e) && e.day == DaysInMonth(e.year, e.month)
    ensures Ordinal(e) == Ordinal(d) - d.day
  {
    PrevDayOrdinal(Date(d.year, d.month, 1));
    PrevDay(Date(d.year, d.month, 1))
  }

  /** k months after d, with the day clamped to the end of a shorter month. */
  function AddMonthsClamped(d: Date, k: int): (e: Date)
    requires ValidDate(d)
    ensures ValidDate(e)
  {
    var y, m := ShiftedYear(d.year, d.month, k), ShiftedMonth(d.year, d.month, k);
    var n := DaysInMonth(y, m);
    Date(y, m, if d.day <= n then d.day else n)
  }

  /** The overflowing shift and the clamped shift agree unless the day is missing. */
  lemma OverflowShiftAgreement(d: Date, k: int)
    requires ValidDate(d)
    ensures var e := AddMonthsOverflow(d, k);
            (e.day == d.day) == (AddMonthsOverflow(d, k) == AddMonthsClamped(d, k))
  {
  }

  /**
   * The month-end repair of the PHP deadline code: after an overflowing
   * shift, the day either stayed (no repair) or wrapped into the following
   * month, and then stepping back to the last day of the previous month
   * lands on the end of the target month. The repair fires exactly when the
   * target month is too short for the day.
   */
  lemma OverflowRepairIsClamp(d: Date, k: int)
    requires ValidDate(d)
    ensures var e := AddMonthsOverflow(d, k);
            var hit := e.day > d.day || (d.day > 28 && e.day < d.day);
            && (hit <==> d.day > DaysInMonth(ShiftedYear(d.year, d.month, k), ShiftedMonth(d.year, d.month, k)))
            && (if hit then LastDayOfPreviousMonth(e) else e) == AddMonthsClamped(d, k)
  {
  }

  // ---------------------------------------------------------------------
  // Instants

  const SecondsPerDay := 86400

  /** A DateTime: a calendar date and the seconds elapsed since its midnight. */
  datatype Instant = Instant(date: Date, second: int)

  predicate ValidInstant(t: Instant)
  {
    ValidDate(t.date) && 0 <= t.second < SecondsPerDay
  }

  /** A DATE column read into a DateTime: midnight of that day. */
  function Midnight(d: Date): Instant
  {
    Instant(d, 0)
  }

  /** Seconds since 0001-01-01 00:00. */
  function Timestamp(t: Instant): int
    requires ValidDate(t.date)
  {
    Ordinal(t.date) * SecondsPerDay + t.second
  }

  predicate Before(a: Instant, b: Instant)
    requires ValidInstant(a) && ValidInstant(b)
  {
    Timestamp(a) < Timestamp(b)
  }

  /** modify("-n days") on an instant: the date moves, the time of day stays. */
  function ShiftDays(t: Instant, n: int): (r: Instant)
    requires ValidInstant(t)
    ensures ValidInstant(r)
  {
    Instant(AddDays(t.date, n), t.second)
  }

  /** An instant precedes midnight of day d exactly when its date is earlier. */
  lemma BeforeMidnight(t: Instant, d: Date)
    requires ValidInstant(t) && ValidDate(d)
    ensures Before(t, Midnight(d)) <==> Ordinal(t.date) < Ordinal(d)
    ensures Before(Midnight(d), t) <==> Ordinal(d) < Ordinal(t.date) || (t.date == d && t.second > 0)
  {
    if Ordinal(t.date) == Ordinal(d) && t.date != d {
      OrdinalInjective(t.date, d);
    }
  }

  /** Valid dates with the same day number are the same date. */
  lemma OrdinalInjective(a: Date, b: Date)
    requires ValidDate(a) && ValidDate(b) && a != b
    ensures Ordinal(a) != Ordinal(b)
  {
    if a.year != b.year {
      if a.year < b.year { OrdinalYearBound(a, b); } else { OrdinalYearBound(b, a); }
    } else if a.month != b.month {
      if a.month < b.month { MonthBound(a.year, a.month, b.month); } else { MonthBound(a.year, b.month, a.month); }
    }
  }

  lemma {:induction false} MonthBound(y: int, m1: int, m2: int)
    requires 1 <= m1 < m2 <= 12
    ensures DaysBeforeMonth(y, m1) + DaysInMonth(y, m1) <= DaysBeforeMonth(y, m2)
    decreases m2 - m1
  {
    if m1 + 1 < m2 { MonthBound(y, m1 + 1, m2); }
  }

  lemma OrdinalYearBound(a: Date, b: Date)
    requires ValidDate(a) && ValidDate(b) && a.year < b.year
    ensures Ordinal(a) < Ordinal(b)
  {
    if a.month < 12 { MonthBound(a.year, a.month, 12); }
    DaysBeforeDecember(a.year);
    YearLength(a.year);
    YearsMonotone(a.year + 1, b.year);
  }

  lemma {:induction false} YearsMonotone(y1: int, y2: int)
    requires y1 <= y2
    ensures DaysBeforeYear(y1) <= DaysBeforeYear(y2)
    decreases y2 - y1
  {
    if y1 < y2 {
      YearLength(y1);
      YearsMonotone(y1 + 1, y2);
    }
  }

  // ---------------------------------------------------------------------
  // The 'Y-m-d' format

  function Zeros(n: nat): (z: string)
    ensures |z| == n && AllDigits(z)
    ensures forall i :: 0 <= i < n ==> z[i] == '0'
  {
    seq(n, _ => '0')
  }

  /** A digit string padded with zeros on the left to at least w characters. */
  function PadLeft(s: string, w: nat): (r: string)
  {
    if |s| >= w then s else Zeros(w - |s|) + s
  }

  /** DateTime::format('Y'): at least four digits, with a minus sign before year 0. */
  function YearString(y: int): string
  {
    if y < 0 then "-" + PadLeft(NatToString(-y), 4) else PadLeft(NatToString(y), 4)
  }

  function TwoDigits(n: int): (s: string)
    requires 0 <= n < 100
    ensures |s| == 2
  {
    [DigitChar(n / 10), DigitChar(n % 10)]
  }

  /** DateTime::format('Y-m-d'). */
  function Ymd(d: Date): (s: string)
    requires ValidDate(d)
  {
    YearString(d.year) + "-" + TwoDigits(d.month) + "-" + TwoDigits(d.day)
  }

  /** Reads back the year that YearString printed. */
  function YearValue(s: string): int
  {
    if |s| > 0 && s[0] == '-' then
      if AllDigits(s[1..]) then -(DigitsValue(s[1..]) as int) else 0
    else if AllDigits(s) then DigitsValue(s) else 0
  }

  lemma {:induction false} ZerosValue(n: nat)
    ensures DigitsValue(Zeros(n)) == 0
  {
    if n > 0 {
      assert Zeros(n)[..n - 1] == Zeros(n - 1);
      ZerosValue(n - 1);
    }
  }

  lemma {:induction false} LeadingZerosValue(n: nat, t: string)
    requires AllDigits(t)
    ensures AllDigits(Zeros(n) + t) && DigitsValue(Zeros(n) + t) == DigitsValue(t)
    decreases |t|
  {
    var u := Zeros(n) + t;
    if t == [] {
      assert u == Zeros(n);
      ZerosValue(n);
    } else {
      assert u[..|u| - 1] == Zeros(n) + t[..|t| - 1];
      LeadingZerosValue(n, t[..|t| - 1]);
    }
  }

  lemma PaddedValue(a: nat)
    ensures var p := PadLeft(NatToString(a), 4);
            |p| > 0 && AllDigits(p) && DigitsValue(p) == a
  {
    var d := NatToString(a);
    DigitsOfNatToString(a);
    if |d| < 4 { LeadingZerosValue(4 - |d|, d); }
  }

  lemma YearStringRoundTrip(y: int)
    ensures YearValue(YearString(y)) == y
  {
    var p := PadLeft(NatToString(if y < 0 then -y else y), 4);
    PaddedValue(if y < 0 then -y else y);
    if y < 0 {
      SignedValue(p);
      assert YearString(y) == "-" + p;
    } else {
      UnsignedValue(p);
      assert YearString(y) == p;
    }
  }

  lemma SignedValue(p: string)
    requires |p| > 0 && AllDigits(p)
    ensures YearValue("-" + p) == -(DigitsValue(p) as int)
  {
    assert ("-" + p)[1..] == p;
  }

  lemma UnsignedValue(p: string)
    requires |p| > 0 && AllDigits(p)
    ensures YearValue(p) == DigitsValue(p)
  {
    assert IsDigit(p[0]);
  }

  lemma TwoDigitsInjective(m: int, n: int)
    requires 0 <= m < 100 && 0 <= n < 100 && TwoDigits(m) == TwoDigits(n)
    ensures m == n
  {
    DigitRoundTrip(m / 10);
    DigitRoundTrip(n / 10);
    DigitRoundTrip(m % 10);
    DigitRoundTrip(n % 10);
  }

  /** Where the year, the month and the day sit in a 'Y-m-d' string. */
  lemma YmdParts(d: Date)
    requires ValidDate(d)
    ensures var s, y := Ymd(d), YearString(d.year);
      && |s| == |y| + 6 && s[..|y|] == y
      && s[|y| + 1..|y| + 3] == TwoDigits(d.month) && s[|y| + 4..] == TwoDigits(d.day)
  {
  }

  /** Distinct dates print differently, so a 'Y-m-d' key identifies its date. */
  lemma YmdInjective(a: Date, b: Date)
    requires ValidDate(a) && ValidDate(b) && Ymd(a) == Ymd(b)
    ensures a == b
  {
    YmdParts(a);
    YmdParts(b);
    YearStringRoundTrip(a.year);
    YearStringRoundTrip(b.year);
    TwoDigitsInjective(a.month, b.month);
    TwoDigitsInjective(a.day, b.day);
  }
}
