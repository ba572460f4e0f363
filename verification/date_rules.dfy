/** The date rules of the custody calendar: dates that move from year to
    year (Easter and the feasts derived from it, the second Sundays of May
    and August, and the two school-break windows). */
module DateRules {
  import opened Calendar
  import opened Outcomes

  // ---------------------------------------------------------------------
  // Easter (calcular_pascoa) and the dates derived from it
  // ---------------------------------------------------------------------

  /** Days from March 22 to Easter Sunday in year `y`: the quantity
      `h + l - 7m` of the anonymous Gregorian (Meeus/Jones/Butcher)
      algorithm.  Every divisor is a positive constant, so Dafny's `/` and
      `%` agree with Python's floor division and modulo, for any year. */
  function EasterOffset(y: int): (r: int)
    ensures 0 <= r <= 34
  {
    var a := y % 19;
    var b := y / 100;
    var c := y % 100;
    var d := b / 4;
    var e := b % 4;
    var f := (b + 8) / 25;
    var g := (b - f + 1) / 3;
    var h := (19 * a + b - d - g + 15) % 30;
    var i := c / 4;
    var k := c % 4;
    var l := (32 + 2 * e + 2 * i - h - k) % 7;
    var m := (a + 11 * h + 22 * l) / 451;
    assert m == 1 ==> h + l >= 7;
    assert h + l >= 35 ==> m == 1;
    h + l - 7 * m
  }

  /** The (month, day) the algorithm reports for Easter of year `y`. */
  function EasterCivil(y: int): (r: Civil)
    ensures r.year == y
    ensures (r.month == 3 && 22 <= r.day <= 31) || (r.month == 4 && 1 <= r.day <= 25)
    ensures ValidDate(r.year, r.month, r.day)
    ensures Ordinal(r.year, r.month, r.day) == Ordinal(y, 3, 22) + EasterOffset(y)
  {
    var v := EasterOffset(y) + 114;
    Civil(y, v / 31, v % 31 + 1)
  }

  /** Ordinal of March 22 of year `y` in closed form. */
  lemma March22(y: int)
    ensures Ordinal(y, 3, 22) == 365 * y + y / 4 - y / 100 + y / 400 - 284
  {
    LeapDays(y);
  }

  /** Weekday arithmetic behind the algorithm, for a year written as
      `400d + 100e + 4i + k` (`d`, `e`: century divided by 4 and its
      remainder; `i`, `k`: year of the century divided by 4 and its
      remainder) and a weekday term equal to `32 + 2e + 2i - k` modulo 7. */
  lemma MeeusWeekday(y: int, d: int, e: int, i: int, k: int, t: int, m: int)
    requires 0 <= e < 4 && 0 <= i < 25 && 0 <= k < 4
    requires y == 400 * d + 100 * e + 4 * i + k
    ensures Weekday(365 * y + y / 4 - y / 100 + y / 400 - 284
                    + (32 + 2 * e + 2 * i - k - 7 * t) - 7 * m) == Sunday
  {
    assert y / 4 == 100 * d + 25 * e + i;
    assert y / 100 == 4 * d + e;
    assert y / 400 == d;
    var n := 365 * y + y / 4 - y / 100 + y / 400 - 284 + (32 + 2 * e + 2 * i - k - 7 * t) - 7 * m;
    assert n + 6 == 7 * (20871 * d + 5218 * e + 209 * i + 52 * k - 36 - t - m) + 6;
  }

  /** The algorithm lands on a Sunday for every year: the weekday term `l`
      exactly cancels the weekday drift of March 22. */
  lemma EasterOffsetIsSunday(y: int)
    ensures Weekday(Ordinal(y, 3, 22) + EasterOffset(y)) == Sunday
  {
    March22(y);
    var a := y % 19;
    var b := y / 100;
    var c := y % 100;
    var d := b / 4;
    var e := b % 4;
    var f := (b + 8) / 25;
    var g := (b - f + 1) / 3;
    var h := (19 * a + b - d - g + 15) % 30;
    var i := c / 4;
    var k := c % 4;
    var l := (32 + 2 * e + 2 * i - h - k) % 7;
    var m := (a + 11 * h + 22 * l) / 451;
    var t := (32 + 2 * e + 2 * i - h - k) / 7;
    assert EasterOffset(y) == h + l - 7 * m;
    YearDigits(y, b, c, d, e, i, k);
    WeekdayTerm(32 + 2 * e + 2 * i - k, h, l, t);
    MeeusWeekday(y, d, e, i, k, t, m);
  }

  /** A year in the digits the algorithm uses. */
  lemma YearDigits(y: int, b: int, c: int, d: int, e: int, i: int, k: int)
    requires b == y / 100 && c == y % 100 && d == b / 4 && e == b % 4 && i == c / 4 && k == c % 4
    ensures 0 <= e < 4 && 0 <= i < 25 && 0 <= k < 4
    ensures y == 400 * d + 100 * e + 4 * i + k
  {
  }

  /** The weekday term `l` of the algorithm, as a remainder modulo 7. */
  lemma WeekdayTerm(x: int, h: int, l: int, t: int)
    requires l == (x - h) % 7 && t == (x - h) / 7
    ensures h + l == x - 7 * t
  {
  }

  /** Easter Sunday of year `y` (calcular_pascoa). */
  function Easter(y: int): (r: Date)
    ensures Ordinal(y, 3, 22) <= r <= Ordinal(y, 4, 25)
    ensures Weekday(r) == Sunday
  {
    var md := EasterCivil(y);
    EasterOffsetIsSunday(y);
    Ordinal(md.year, md.month, md.day)
  }

  /** Where the Easter-derived dates fall, for any date `e` in Easter's
      window March 22 .. April 25. */
  lemma EasterWindowShifts(y: int, e: Date)
    requires Ordinal(y, 3, 22) <= e <= Ordinal(y, 4, 25)
    ensures Ordinal(y, 3, 15) <= e - 7
    ensures Ordinal(y, 2, 3) <= e - 47 <= Ordinal(y, 3, 9)
    ensures Ordinal(y, 5, 21) <= e + 60 <= Ordinal(y, 6, 24)
  {
  }

  /** The weekdays of the feasts counted from a Sunday: a week before it
      is a Sunday, 47 days before a Tuesday, 60 days after a Thursday. */
  lemma SundayShifts(e: Date)
    requires Weekday(e) == Sunday
    ensures Weekday(e - 7) == Sunday
    ensures Weekday(e - 47) == Tuesday
    ensures Weekday(e + 60) == Thursday
  {
    WeekdayShift(e, -7);
    WeekdayShift(e, -47);
    WeekdayShift(e, 60);
  }

  /** Palm Sunday through Easter Sunday (calcular_semana_santa). */
  function HolyWeek(y: int): (r: seq<Date>)
    ensures |r| == 8
    ensures r[7] == Easter(y) && Weekday(r[0]) == Sunday
    ensures forall j :: 0 <= j < 8 ==> r[j] == r[0] + j
    ensures Ordinal(y, 3, 15) <= r[0] && r[7] <= Ordinal(y, 4, 25)
  {
    SundayShifts(Easter(y));
    EasterWindowShifts(y, Easter(y));
    seq(8, j => Easter(y) - 7 + j)
  }

  /** Carnival Tuesday (calcular_carnaval). */
  function Carnival(y: int): (r: Date)
    ensures r + 47 == Easter(y)
    ensures Weekday(r) == Tuesday
    ensures Ordinal(y, 2, 3) <= r <= Ordinal(y, 3, 9)
  {
    SundayShifts(Easter(y));
    EasterWindowShifts(y, Easter(y));
    Easter(y) - 47
  }

  /** Corpus Christi (calcular_corpus_christi). */
  function CorpusChristi(y: int): (r: Date)
    ensures r == Easter(y) + 60
    ensures Weekday(r) == Thursday
    ensures Ordinal(y, 5, 21) <= r <= Ordinal(y, 6, 24)
  {
    SundayShifts(Easter(y));
    EasterWindowShifts(y, Easter(y));
    Easter(y) + 60
  }

  // ---------------------------------------------------------------------
  // Weekday searches
  // ---------------------------------------------------------------------

  /** The first day of `days`, in list order, on which month `mo` of year
      `y` has weekday `wd` (the `for dia in ...: if weekday: break` loops). */
  function FirstOnWeekday(y: int, mo: int, days: seq<int>, wd: int): (r: Option<int>)
    requires forall j :: 0 <= j < |days| ==> ValidDate(y, mo, days[j])
    ensures r.Some? ==> ValidDate(y, mo, r.value) && Weekday(Ordinal(y, mo, r.value)) == wd
    ensures r.Some? ==> exists j :: 0 <= j < |days| && days[j] == r.value
                         && forall j' :: 0 <= j' < j ==> Weekday(Ordinal(y, mo, days[j'])) != wd
    ensures r.None? <==> forall j :: 0 <= j < |days| ==> Weekday(Ordinal(y, mo, days[j])) != wd
  {
    if |days| == 0 then None
    else if Weekday(Ordinal(y, mo, days[0])) == wd then Some(days[0])
    else
      var rest := FirstOnWeekday(y, mo, days[1..], wd);
      if rest.Some? then
        ghost var j :| 0 <= j < |days[1..]| && days[1..][j] == rest.value
                       && forall j' :: 0 <= j' < j ==> Weekday(Ordinal(y, mo, days[1..][j'])) != wd;
        assert days[j + 1] == rest.value;
        rest
      else rest
  }

  /** Seven consecutive days of a month hold every weekday. */
  lemma WeekHasWeekday(y: int, mo: int, days: seq<int>, wd: int)
    requires 1 <= mo <= 12 && 0 <= wd < 7
    requires |days| == 7 && forall j :: 0 <= j < 7 ==> days[j] == days[0] + j
    requires forall j :: 0 <= j < |days| ==> ValidDate(y, mo, days[j])
    ensures FirstOnWeekday(y, mo, days, wd).Some?
  {
    var n := Ordinal(y, mo, days[0]);
    var j := (wd - Weekday(n) + 7) % 7;
    WeekdayWithinWeek(n, wd);
    assert Ordinal(y, mo, days[j]) == n + j;
  }

  /** Within the week from day `n`, weekday `wd` comes `(wd - Weekday(n))`
      modulo 7 days later. */
  lemma WeekdayWithinWeek(n: Date, wd: int)
    requires 0 <= wd < 7
    ensures 0 <= (wd - Weekday(n) + 7) % 7 < 7
    ensures Weekday(n + (wd - Weekday(n) + 7) % 7) == wd
  {
    WeekdayShift(n, (wd - Weekday(n) + 7) % 7);
  }

  /** The first day on or after `d` with weekday `wd`: the
      `while data.weekday() != wd: data += timedelta(days=1)` loops. */
  function OnOrAfter(d: Date, wd: int): (r: Date)
    requires 0 <= wd < 7
    ensures d <= r <= d + 6 && Weekday(r) == wd
    ensures forall x :: d <= x < r ==> Weekday(x) != wd
    decreases (wd - Weekday(d) + 7) % 7
  {
    if Weekday(d) == wd then d else OnOrAfter(d + 1, wd)
  }

  /** The days-of-month from `from` to 31 that are Sundays, ascending: the
      `domingos` lists built over `range(1, 32)` for a 31-day month. */
  function SundaysFrom(y: int, mo: int, from: int): (r: seq<int>)
    requires 1 <= mo <= 12 && DaysInMonth(y, mo) == 31 && 1 <= from
    ensures forall j :: 0 <= j < |r| ==> from <= r[j] <= 31 && Weekday(Ordinal(y, mo, r[j])) == Sunday
    ensures forall j, k :: 0 <= j < k < |r| ==> r[j] < r[k]
    ensures forall dd :: from <= dd <= 31 && Weekday(Ordinal(y, mo, dd)) == Sunday ==> dd in r
    decreases 32 - from
  {
    if from > 31 then []
    else if Weekday(Ordinal(y, mo, from)) == Sunday then [from] + SundaysFrom(y, mo, from + 1)
    else SundaysFrom(y, mo, from + 1)
  }

  /** The Sundays of a month are the days congruent, modulo 7, to the
      first one, which falls on day 1..7. */
  lemma SundaysRecur(y: int, mo: int, dd: int)
    requires 1 <= mo <= 12 && 1 <= dd <= DaysInMonth(y, mo)
    ensures var first := 1 + (Sunday - Weekday(Ordinal(y, mo, 1)) + 7) % 7;
            Weekday(Ordinal(y, mo, dd)) == Sunday <==> dd >= first && (dd - first) % 7 == 0
  {
    var n := Ordinal(y, mo, 1);
    assert Ordinal(y, mo, dd) == n + (dd - 1);
    WeekdayShift(n, dd - 1);
  }

  /** An ascending list of numbers congruent to `f` modulo 7, none below
      `f`, that holds `f`, `f + 7` and `f + 14`, starts with exactly these. */
  lemma AscendingCongruentPrefix(s: seq<int>, f: int)
    requires forall j, k :: 0 <= j < k < |s| ==> s[j] < s[k]
    requires forall j :: 0 <= j < |s| ==> s[j] >= f && (s[j] - f) % 7 == 0
    requires f in s && f + 7 in s && f + 14 in s
    ensures |s| >= 3 && s[0] == f && s[1] == f + 7 && s[2] == f + 14
  {
    var j0 :| 0 <= j0 < |s| && s[j0] == f;
    var j1 :| 0 <= j1 < |s| && s[j1] == f + 7;
    var j2 :| 0 <= j2 < |s| && s[j2] == f + 14;
    assert j0 == 0;
    assert j1 > 0 && j2 > j1;
    assert s[1] - f > 0 && (s[1] - f) % 7 == 0;
    assert j1 == 1;
    assert s[2] - s[1] > 0 && (s[2] - s[1]) % 7 == 0;
    assert j2 == 2;
  }

  /** A 31-day month has at least three Sundays, the second on day 8..14
      and the third on day 15..21. */
  lemma SundaysOfMonth(y: int, mo: int)
    requires 1 <= mo <= 12 && DaysInMonth(y, mo) == 31
    ensures |SundaysFrom(y, mo, 1)| >= 3
    ensures 8 <= SundaysFrom(y, mo, 1)[1] <= 14
    ensures 15 <= SundaysFrom(y, mo, 1)[2] <= 21
  {
    var s := SundaysFrom(y, mo, 1);
    var first := 1 + (Sunday - Weekday(Ordinal(y, mo, 1)) + 7) % 7;
    SundaysRecur(y, mo, first);
    SundaysRecur(y, mo, first + 7);
    SundaysRecur(y, mo, first + 14);
    forall j | 0 <= j < |s|
      ensures s[j] >= first && (s[j] - first) % 7 == 0
    {
      SundaysRecur(y, mo, s[j]);
    }
    AscendingCongruentPrefix(s, first);
  }

  /** `domingos[1]`: the day of the second Sunday of a 31-day month. */
  function SecondSunday(y: int, mo: int): (r: int)
    requires 1 <= mo <= 12 && DaysInMonth(y, mo) == 31
    ensures 8 <= r <= 14 && Weekday(Ordinal(y, mo, r)) == Sunday
  {
    SundaysOfMonth(y, mo);
    SundaysFrom(y, mo, 1)[1]
  }

  /** Father's Day, the second Sunday of August (calcular_dia_pais). */
  function FathersDay(y: int): (r: Date)
    ensures Ordinal(y, 8, 8) <= r <= Ordinal(y, 8, 14) && Weekday(r) == Sunday
  {
    Ordinal(y, 8, SecondSunday(y, 8))
  }

  /** Mother's Day, the second Sunday of May (calcular_dia_maes). */
  function MothersDay(y: int): (r: Date)
    ensures Ordinal(y, 5, 8) <= r <= Ordinal(y, 5, 14) && Weekday(r) == Sunday
  {
    Ordinal(y, 5, SecondSunday(y, 5))
  }

  // ---------------------------------------------------------------------
  // School breaks
  // ---------------------------------------------------------------------

  /** `range(a, b)` as a list of day numbers. */
  function DayRange(a: int, b: int): (r: seq<int>)
    requires a <= b
    ensures |r| == b - a && forall j :: 0 <= j < |r| ==> r[j] == a + j
  {
    seq(b - a, j => a + j)
  }

  /** A weekday recurs only after seven days: a day with weekday `wd` has
      no other day with that weekday in the six days before it. */
  lemma OnlyWeekdayInWindow(a: Date, r: Date, wd: int)
    requires a <= r < a + 7 && Weekday(r) == wd
    ensures forall x :: a <= x < r ==> Weekday(x) != wd
  {
    forall x | a <= x < r
      ensures Weekday(x) != wd
    {
      WeekdayShift(x, r - x);
    }
  }

  /** The first day with weekday `wd` on or after `a` is at most six days on. */
  lemma FirstInWindow(a: Date, r: Date, wd: int)
    requires 0 <= wd < 7 && a <= r && Weekday(r) == wd
    requires forall x :: a <= x < r ==> Weekday(x) != wd
    ensures r <= a + 6
  {
    var k := (wd - Weekday(a) + 7) % 7;
    WeekdayShift(a, k);
    assert Weekday(a + k) == wd;
  }

  /** When June 27..30 has no Monday, the July search finds one by July 3,
      and no Monday lies between June 27 and it. */
  lemma JulyFallback(y: int)
    requires FirstOnWeekday(y, 6, [30, 29, 28, 27], Monday).None?
    ensures var first := FirstOnWeekday(y, 7, DayRange(1, 8), Monday);
            && first.Some? && first.value <= 3
            && forall x :: Ordinal(y, 6, 27) <= x < Ordinal(y, 7, first.value) ==> Weekday(x) != Monday
  {
    var june := [30, 29, 28, 27];
    var july := DayRange(1, 8);
    WeekHasWeekday(y, 7, july, Monday);
    var first := FirstOnWeekday(y, 7, july, Monday);
    var j :| 0 <= j < |july| && july[j] == first.value
             && forall j' :: 0 <= j' < j ==> Weekday(Ordinal(y, 7, july[j'])) != Monday;
    var a := Ordinal(y, 6, 27);
    var r := Ordinal(y, 7, first.value);
    forall x | a <= x < r
      ensures Weekday(x) != Monday
    {
      if x <= Ordinal(y, 6, 30) {
        var dd := 27 + (x - a);
        assert Ordinal(y, 6, dd) == x;
        assert june[30 - dd] == dd;
      } else {
        var dd := x - Ordinal(y, 7, 1) + 1;
        assert Ordinal(y, 7, dd) == x;
        assert july[dd - 1] == dd;
      }
    }
    FirstInWindow(a, r, Monday);
  }

  /** Start of the mid-year break (calcular_ferias_meio_ano): the Monday
      among June 30, 29, 28, 27 if there is one, else the first Monday of
      July.  Either way it is the first Monday on or after June 27. */
  function MidYearStart(y: int): (r: Date)
    ensures Weekday(r) == Monday
    ensures Ordinal(y, 6, 27) <= r <= Ordinal(y, 7, 3)
    ensures r > Ordinal(y, 6, 30) <==> forall dd :: 27 <= dd <= 30 ==> Weekday(Ordinal(y, 6, dd)) != Monday
    ensures forall x :: Ordinal(y, 6, 27) <= x < r ==> Weekday(x) != Monday
  {
    var june := [30, 29, 28, 27];
    var last := FirstOnWeekday(y, 6, june, Monday);
    if last.Some? && last.value in [27, 28, 29, 30] then
      var r := Ordinal(y, 6, last.value);
      OnlyWeekdayInWindow(Ordinal(y, 6, 27), r, Monday);
      r
    else
      JulyFallback(y);
      var first := FirstOnWeekday(y, 7, DayRange(1, 8), Monday);
      Ordinal(y, 7, first.value)
  }

  /** The mid-year break: it opens on the first Monday from June 27 on,
      which is June 27..July 3, and lasts 30 days, both ends inclusive. */
  function MidYearBreak(y: int): (r: (Date, Date))
    ensures Weekday(r.0) == Monday && Ordinal(y, 6, 27) <= r.0 <= Ordinal(y, 7, 3)
    ensures forall x :: Ordinal(y, 6, 27) <= x < r.0 ==> Weekday(x) != Monday
    ensures r.1 - r.0 + 1 == 30
  {
    var start := MidYearStart(y);
    (start, start + 29)
  }

  /** Start of the year-end break: the first Monday among December 13..31,
      falling back to the first Monday of January of `y + 1`. */
  function YearEndStart(y: int): (r: Date)
    ensures Weekday(r) == Monday
    ensures Ordinal(y, 12, 13) <= r <= Ordinal(y + 1, 1, 7)
  {
    var december := DayRange(13, 32);
    var found := FirstOnWeekday(y, 12, december, Monday);
    YearEndThenYearStart(y);
    if found.Some? then
      Ordinal(y, 12, found.value)
    else
      OnOrAfter(YearStart(y + 1), Monday)
  }

  /** The December search always succeeds: the break starts on the first
      Monday on or after December 13, which is December 13..19, and the
      January fallback is never taken. */
  lemma YearEndStartInDecember(y: int)
    ensures Ordinal(y, 12, 13) <= YearEndStart(y) <= Ordinal(y, 12, 19)
    ensures forall x :: Ordinal(y, 12, 13) <= x < YearEndStart(y) ==> Weekday(x) != Monday
  {
    var december := DayRange(13, 32);
    WeekHasWeekday(y, 12, december[..7], Monday);
    var found := FirstOnWeekday(y, 12, december, Monday);
    var w := FirstOnWeekday(y, 12, december[..7], Monday).value;
    var jw :| 0 <= jw < 7 && december[..7][jw] == w;
    assert Weekday(Ordinal(y, 12, december[jw])) == Monday;
    assert found.Some?;
    var j :| 0 <= j < |december| && december[j] == found.value
             && forall j' :: 0 <= j' < j ==> Weekday(Ordinal(y, 12, december[j'])) != Monday;
    var a := Ordinal(y, 12, 13);
    var r := Ordinal(y, 12, found.value);
    assert r == YearEndStart(y);
    forall x | a <= x < r
      ensures Weekday(x) != Monday
    {
      var dd := 13 + (x - a);
      assert Ordinal(y, 12, dd) == x;
      assert december[dd - 13] == dd;
    }
    FirstInWindow(a, r, Monday);
  }

  /** A window of December that opens on the 13th and holds no Monday,
      read as days of the month. */
  lemma NoMondayBefore(y: int, r: Date)
    requires forall x :: Ordinal(y, 12, 13) <= x < r ==> Weekday(x) != Monday
    ensures forall dd :: 13 <= dd <= 19 && Ordinal(y, 12, dd) < r ==> Weekday(Ordinal(y, 12, dd)) != Monday
  {
    forall dd | 13 <= dd <= 19 && Ordinal(y, 12, dd) < r
      ensures Weekday(Ordinal(y, 12, dd)) != Monday
    {
      assert Ordinal(y, 12, 13) <= Ordinal(y, 12, dd);
    }
  }

  /** `domingos[2] if len(domingos) >= 3 else domingos[-1]`. */
  function ThirdOrLast(s: seq<int>): (r: int)
    requires |s| > 0
    ensures r in s
    ensures |s| >= 3 ==> r == s[2]
  {
    if |s| >= 3 then s[2] else s[|s| - 1]
  }

  /** End of the year-end break: the third Sunday of January of `y + 1`. */
  function YearEndEnd(y: int): (r: Date)
    ensures Ordinal(y + 1, 1, 15) <= r <= Ordinal(y + 1, 1, 21) && Weekday(r) == Sunday
  {
    SundaysOfMonth(y + 1, 1);
    Ordinal(y + 1, 1, ThirdOrLast(SundaysFrom(y + 1, 1, 1)))
  }

  /** The year-end break (calcular_ferias_final_ano), both ends inclusive. */
  function YearEndBreak(y: int): (r: (Date, Date))
    ensures Weekday(r.0) == Monday && Ordinal(y, 12, 13) <= r.0 <= Ordinal(y, 12, 19)
    ensures forall dd :: 13 <= dd <= 19 && Ordinal(y, 12, dd) < r.0 ==> Weekday(Ordinal(y, 12, dd)) != Monday
    ensures Weekday(r.1) == Sunday && Ordinal(y + 1, 1, 15) <= r.1 <= Ordinal(y + 1, 1, 21)
  {
    YearEndStartInDecember(y);
    NoMondayBefore(y, YearEndStart(y));
    (YearEndStart(y), YearEndEnd(y))
  }
}
