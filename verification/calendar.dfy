/** Proleptic Gregorian calendar on integer day ordinals.

    Days are numbered the way Python's `date.toordinal()` numbers them:
    0001-01-01 is day 1 and is a Monday.  Weekdays follow `date.weekday()`:
    Monday is 0 and Sunday is 6.  The conversions are written out here so
    that every date the custody engine builds is a plain integer whose
    arithmetic (`+ timedelta(days=k)`) is integer addition. */
module Calendar {

  /** A calendar day, as its ordinal. */
  type Date = int

  /** A civil (year, month, day) triple. */
  datatype Civil = Civil(year: int, month: int, day: int)

  const Monday: int := 0
  const Tuesday: int := 1
  const Thursday: int := 3
  const Friday: int := 4
  const Saturday: int := 5
  const Sunday: int := 6

  predicate IsLeap(y: int) {
    y % 4 == 0 && (y % 100 != 0 || y % 400 == 0)
  }

  function DaysInYear(y: int): int {
    if IsLeap(y) then 366 else 365
  }

  function DaysInMonth(y: int, m: int): int
    requires 1 <= m <= 12
  {
    if m == 2 then (if IsLeap(y) then 29 else 28)
    else if m == 4 || m == 6 || m == 9 || m == 11 then 30
    else 31
  }

  /** Days of year `y` that precede the first of month `m`. */
  function DaysBeforeMonth(y: int, m: int): int
    requires 1 <= m <= 12
  {
    var leap := if m > 2 && IsLeap(y) then 1 else 0;
    if m == 1 then 0
    else if m == 2 then 31
    else if m == 3 then 59 + leap
    else if m == 4 then 90 + leap
    else if m == 5 then 120 + leap
    else if m == 6 then 151 + leap
    else if m == 7 then 181 + leap
    else if m == 8 then 212 + leap
    else if m == 9 then 243 + leap
    else if m == 10 then 273 + leap
    else if m == 11 then 304 + leap
    else 334 + leap
  }

  /** Days before January 1 of year `y`, counted from 0001-01-01. */
  function DaysBeforeYear(y: int): int {
    var z := y - 1;
    365 * z + z / 4 - z / 100 + z / 400
  }

  /** The dates Python's `datetime(y, m, d)` accepts, years aside. */
  predicate ValidDate(y: int, m: int, d: int) {
    1 <= m <= 12 && 1 <= d <= DaysInMonth(y, m)
  }

  function Ordinal(y: int, m: int, d: int): Date
    requires ValidDate(y, m, d)
  {
    DaysBeforeYear(y) + DaysBeforeMonth(y, m) + d
  }

  /** Monday = 0 ... Sunday = 6. */
  function Weekday(n: Date): (w: int)
    ensures 0 <= w < 7
  {
    (n + 6) % 7
  }

  /** Moving `k` days moves the weekday by `k` modulo 7. */
  lemma WeekdayShift(n: Date, k: int)
    ensures Weekday(n + k) == (Weekday(n) + k) % 7
  {
  }

  function YearStart(y: int): Date {
    Ordinal(y, 1, 1)
  }

  function YearEnd(y: int): Date {
    Ordinal(y, 12, 31)
  }

  /** `date.year == y`, as a range of ordinals. */
  predicate InYear(n: Date, y: int) {
    YearStart(y) <= n <= YearEnd(y)
  }

  /** Year `y` adds one to the count of multiples of 4, 100 and 400 below
      it exactly when it is one. */
  lemma LeapStep(y: int)
    ensures y / 4 - (y - 1) / 4 == (if y % 4 == 0 then 1 else 0)
    ensures y / 100 - (y - 1) / 100 == (if y % 100 == 0 then 1 else 0)
    ensures y / 400 - (y - 1) / 400 == (if y % 400 == 0 then 1 else 0)
  {
  }

  /** Multiples of 400 are multiples of 100, and those of 100 are
      multiples of 4. */
  lemma CenturyDivisors(y: int)
    ensures y % 400 == 0 ==> y % 100 == 0
    ensures y % 100 == 0 ==> y % 4 == 0
  {
    if y % 400 == 0 {
      var n := y / 400;
      assert y == 100 * (4 * n) + 0;
      assert y / 100 == 4 * n;
    }
    if y % 100 == 0 {
      var n := y / 100;
      assert y == 4 * (25 * n) + 0;
      assert y / 4 == 25 * n;
    }
  }

  /** Going from year `y - 1` to `y`, the leap-day count of the Gregorian
      rule grows by one exactly when `y` is a leap year. */
  lemma LeapDays(y: int)
    ensures (y / 4 - y / 100 + y / 400) - ((y - 1) / 4 - (y - 1) / 100 + (y - 1) / 400)
            == if IsLeap(y) then 1 else 0
  {
    LeapStep(y);
    CenturyDivisors(y);
  }

  /** Consecutive years abut: the day after December 31 is January 1. */
  lemma YearEndThenYearStart(y: int)
    ensures YearEnd(y) + 1 == YearStart(y + 1)
    ensures YearEnd(y) - YearStart(y) + 1 == DaysInYear(y)
  {
    LeapDays(y);
  }

  /** Every valid date of year `y` lies between its first and last day. */
  lemma OrdinalWithinYear(y: int, m: int, d: int)
    requires ValidDate(y, m, d)
    ensures YearStart(y) <= Ordinal(y, m, d) <= YearEnd(y)
  {
  }

  /** Years are laid out in order: all of year `a` precedes all of year `b`. */
  lemma {:induction false} YearsInOrder(a: int, b: int)
    requires a < b
    ensures YearEnd(a) < YearStart(b)
    decreases b - a
  {
    YearEndThenYearStart(a);
    if a + 1 < b {
      YearEndThenYearStart(a + 1);
      YearsInOrder(a + 1, b);
    }
  }

  /** Within a year, later (month, day) pairs have larger ordinals. */
  lemma OrdinalInOrderWithinYear(y: int, m1: int, d1: int, m2: int, d2: int)
    requires ValidDate(y, m1, d1) && ValidDate(y, m2, d2)
    requires m1 < m2 || (m1 == m2 && d1 < d2)
    ensures Ordinal(y, m1, d1) < Ordinal(y, m2, d2)
  {
    assert DaysBeforeMonth(y, m1) + DaysInMonth(y, m1) <= DaysBeforeMonth(y, m2) || m1 == m2;
  }

  /** Distinct valid dates have distinct ordinals. */
  lemma OrdinalInjective(y1: int, m1: int, d1: int, y2: int, m2: int, d2: int)
    requires ValidDate(y1, m1, d1) && ValidDate(y2, m2, d2)
    requires Ordinal(y1, m1, d1) == Ordinal(y2, m2, d2)
    ensures y1 == y2 && m1 == m2 && d1 == d2
  {
    OrdinalWithinYear(y1, m1, d1);
    OrdinalWithinYear(y2, m2, d2);
    if y1 < y2 {
      YearsInOrder(y1, y2);
    } else if y2 < y1 {
      YearsInOrder(y2, y1);
    } else if m1 < m2 || (m1 == m2 && d1 < d2) {
      OrdinalInOrderWithinYear(y1, m1, d1, m2, d2);
    } else if m2 < m1 || (m1 == m2 && d2 < d1) {
      OrdinalInOrderWithinYear(y1, m2, d2, m1, d1);
    }
  }

  /** Days of year `y` split into (month, day), scanning from month `m`. */
  function MonthDayOf(y: int, m: int, doy: int): (r: Civil)
    requires 1 <= m <= 12
    requires 0 <= doy < DaysInYear(y) - DaysBeforeMonth(y, m)
    ensures r.year == y && ValidDate(r.year, r.month, r.day)
    ensures DaysBeforeMonth(y, r.month) + r.day == DaysBeforeMonth(y, m) + doy + 1
    decreases 12 - m
  {
    if doy < DaysInMonth(y, m) then Civil(y, m, doy + 1)
    else MonthDayOf(y, m + 1, doy - DaysInMonth(y, m))
  }

  /** Days before the year numbered by a 400/100/4/1-year cycle decomposition. */
  lemma DaysBeforeCycleYear(q: int, a: int, b: int, c: int)
    requires 0 <= a <= 3 && 0 <= b <= 24 && 0 <= c <= 3
    ensures DaysBeforeYear(400 * q + 100 * a + 4 * b + c + 1)
            == 146097 * q + 36524 * a + 1461 * b + 365 * c
  {
    var z := 400 * q + 100 * a + 4 * b + c;
    assert z / 4 == 100 * q + 25 * a + b;
    assert z / 100 == 4 * q + a;
    assert z / 400 == q;
  }

  /** The last day of a 4-year or 400-year cycle, which the cycle
      decomposition reports as day 366 of a leap year. */
  lemma CycleLastDay(q: int, a: int, b: int)
    requires 0 <= a <= 3 && 0 <= b <= 23
    ensures IsLeap(400 * q + 100 * a + 4 * b + 4)
    ensures YearEnd(400 * q + 100 * a + 4 * b + 4)
            == 146097 * q + 36524 * a + 1461 * b + 1461
  {
    CycleYearLeap(q, a, b);
    DaysBeforeCycleYear(q, a, b, 3);
  }

  /** The last year of a 4-year cycle inside a century is a leap year. */
  lemma CycleYearLeap(q: int, a: int, b: int)
    requires 0 <= a <= 3 && 0 <= b <= 23
    ensures IsLeap(400 * q + 100 * a + 4 * b + 4)
  {
    var y := 400 * q + 100 * a + 4 * b + 4;
    Remainders(y, 100 * q + 25 * a + b + 1, 4 * q + a, 4 * b + 4);
  }

  /** Division by 4 and by 100 read backwards. */
  lemma Remainders(y: int, k4: int, k100: int, r: int)
    requires y == 4 * k4 && y == 100 * k100 + r && 0 <= r < 100
    ensures y % 4 == 0 && y % 100 == r
  {
  }

  /** Every multiple of 400 is a leap year. */
  lemma CenturyLeap(m: int)
    ensures IsLeap(400 * m)
  {
    assert 400 * m == 4 * (100 * m);
  }

  lemma CenturyCycleLastDay(q: int)
    ensures IsLeap(400 * q + 400)
    ensures YearEnd(400 * q + 400) == 146097 * q + 146097
  {
    CenturyLeap(q + 1);
    DaysBeforeCycleYear(q, 3, 24, 3);
  }

  /** The civil date of an ordinal; the inverse of `Ordinal`. */
  function CivilOf(n: Date): (r: Civil)
    ensures ValidDate(r.year, r.month, r.day)
    ensures Ordinal(r.year, r.month, r.day) == n
  {
    var n0 := n - 1;
    var n400 := n0 / 146097;
    var r400 := n0 % 146097;
    var n100 := r400 / 36524;
    var r100 := r400 % 36524;
    var n4 := r100 / 1461;
    var r4 := r100 % 1461;
    var n1 := r4 / 365;
    var doy := r4 % 365;
    if n100 == 4 then
      CenturyCycleLastDay(n400);
      Civil(400 * n400 + 400, 12, 31)
    else if n1 == 4 then
      CycleLastDay(n400, n100, n4);
      Civil(400 * n400 + 100 * n100 + 4 * n4 + 4, 12, 31)
    else
      var y := 400 * n400 + 100 * n100 + 4 * n4 + n1 + 1;
      DaysBeforeCycleYear(n400, n100, n4, n1);
      MonthDayOf(y, 1, doy)
  }

  function YearOf(n: Date): int {
    CivilOf(n).year
  }

  /** Round trip: a valid civil date survives conversion to an ordinal and back. */
  lemma CivilOfOrdinal(y: int, m: int, d: int)
    requires ValidDate(y, m, d)
    ensures CivilOf(Ordinal(y, m, d)) == Civil(y, m, d)
  {
    var c := CivilOf(Ordinal(y, m, d));
    OrdinalInjective(c.year, c.month, c.day, y, m, d);
  }

  /** `date.year == y` is membership in the ordinal range of year `y`. */
  lemma YearOfIff(n: Date, y: int)
    ensures YearOf(n) == y <==> InYear(n, y)
  {
    var c := CivilOf(n);
    OrdinalWithinYear(c.year, c.month, c.day);
    if c.year < y {
      YearsInOrder(c.year, y);
    } else if y < c.year {
      YearsInOrder(y, c.year);
    }
  }
}
