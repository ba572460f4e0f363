/** The claims a year files for the days of its school breaks and for its
    first days, where only a few of its rules can apply. */
module DayFacts {
  import opened Calendar
  import opened DateRules
  import opened Claims
  import opened ClaimFacts
  import opened BreakFacts

  // ---------------------------------------------------------------------
  // Days without a fixed day or a common holiday
  // ---------------------------------------------------------------------

  /** Month-day `(m, dd)` comes before `(m2, dd2)` in every year. */
  predicate MonthDayBefore(m: int, dd: int, m2: int, dd2: int) {
    m < m2 || (m == m2 && dd < dd2)
  }

  /** No fixed family day falls on a day between two dates of its year
      when none of the table's month-days lies between them. */
  lemma FixedDaysOutside(y: int, d: Date, m1: int, d1: int, m2: int, d2: int)
    requires ValidDate(y, m1, d1) && ValidDate(y, m2, d2)
    requires Ordinal(y, m1, d1) <= d <= Ordinal(y, m2, d2)
    requires forall k :: 0 <= k < |FixedDays| ==>
               MonthDayBefore(FixedDays[k].month, FixedDays[k].day, m1, d1)
               || MonthDayBefore(m2, d2, FixedDays[k].month, FixedDays[k].day)
    ensures ClaimsOn(FixedEntries(y), d) == []
  {
    var f := FixedEntries(y);
    FixedDaysValid(y);
    forall k | 0 <= k < |f|
      ensures f[k].date != d
    {
      var fd := FixedDays[k];
      if MonthDayBefore(fd.month, fd.day, m1, d1) {
        OrdinalInOrderWithinYear(y, fd.month, fd.day, m1, d1);
      } else {
        OrdinalInOrderWithinYear(y, m2, d2, fd.month, fd.day);
      }
    }
    ClaimsOnAbsent(f, d);
  }

  /** The common holidays run from April 21 (Tiradentes) to December 8,
      and none falls between June 25 and August 15. */
  lemma CommonHolidaysSpread(y: int, corpusChristi: Date, e: Entry)
    requires Ordinal(y, 5, 21) <= corpusChristi <= Ordinal(y, 6, 24)
    requires e in CommonHolidayEntries(y, corpusChristi)
    ensures Ordinal(y, 4, 21) <= e.date <= Ordinal(y, 12, 8)
    ensures e.date <= Ordinal(y, 6, 24) || Ordinal(y, 8, 16) <= e.date
  {
    var es := CommonHolidayEntries(y, corpusChristi);
    var k :| 0 <= k < |es| && es[k] == e;
    OrdinalInOrderWithinYear(y, 4, 21, 5, 1);
    OrdinalInOrderWithinYear(y, 4, 21, 5, 21);
    OrdinalInOrderWithinYear(y, 5, 1, 6, 24);
    OrdinalInOrderWithinYear(y, 8, 16, 9, 7);
    OrdinalInOrderWithinYear(y, 9, 7, 10, 12);
    OrdinalInOrderWithinYear(y, 10, 12, 10, 15);
    OrdinalInOrderWithinYear(y, 10, 15, 10, 19);
    OrdinalInOrderWithinYear(y, 10, 19, 11, 2);
    OrdinalInOrderWithinYear(y, 11, 2, 11, 20);
    OrdinalInOrderWithinYear(y, 11, 20, 12, 8);
    OrdinalInOrderWithinYear(y, 6, 24, 12, 8);
  }

  /** No common holiday falls on `d` when it lies outside their spread. */
  lemma CommonHolidaysOutside(y: int, corpusChristi: Date, d: Date)
    requires Ordinal(y, 5, 21) <= corpusChristi <= Ordinal(y, 6, 24)
    requires d < Ordinal(y, 4, 21) || Ordinal(y, 12, 8) < d || Ordinal(y, 6, 24) < d < Ordinal(y, 8, 16)
    ensures ClaimsOn(CommonHolidayEntries(y, corpusChristi), d) == []
  {
    var es := CommonHolidayEntries(y, corpusChristi);
    forall e | e in es
      ensures e.date != d
    {
      CommonHolidaysSpread(y, corpusChristi, e);
    }
    ClaimsOnAbsent(es, d);
  }

  /** A day's claims from breaks, common holidays and weekends, part by
      part. */
  lemma MinorClaimsOn(y: int, yd: YearDates, d: Date)
    ensures ClaimsOn(MinorEntries(y, yd), d)
            == ClaimsOn(MidYearEntries(y, yd.midYear), d) + ClaimsOn(YearEndEntries(y, yd.yearEnd), d)
               + ClaimsOn(CommonHolidayEntries(y, yd.corpusChristi), d) + ClaimsOn(WeekendEntries(y), d)
  {
    var m := MidYearEntries(y, yd.midYear);
    var e := YearEndEntries(y, yd.yearEnd);
    var c := CommonHolidayEntries(y, yd.corpusChristi);
    ClaimsOnAppend(m + e + c, WeekendEntries(y), d);
    ClaimsOnAppend(m + e, c, d);
    ClaimsOnAppend(m, e, d);
  }

  // ---------------------------------------------------------------------
  // January
  // ---------------------------------------------------------------------

  /** A day of year `y` before Carnival and Holy Week. */
  predicate BeforeMovableFeasts(y: int, yd: YearDates, d: Date) {
    && YearStart(y) <= d < Ordinal(y, 7, 6)
    && |yd.holyWeek| > 0 && (forall k :: 0 <= k < |yd.holyWeek| ==> yd.holyWeek[k] == yd.holyWeek[0] + k)
    && d < yd.holyWeek[0] && d + 1 < yd.carnival && d < yd.fathersDay && d < yd.mothersDay
  }

  lemma JanuaryWindow(y: int, yd: YearDates, d: Date)
    requires DatesOk(y, yd) && YearStart(y) <= d <= Ordinal(y, 1, 31)
    ensures BeforeMovableFeasts(y, yd, d)
  {
    OrdinalInOrderWithinYear(y, 1, 31, 2, 2);
    OrdinalInOrderWithinYear(y, 1, 31, 7, 6);
  }

  /** Before the movable feasts only the fixed family days claim a day at
      priority 0. */
  lemma EarlyMajor(y: int, yd: YearDates, d: Date)
    requires BeforeMovableFeasts(y, yd, d)
    ensures ClaimsOn(MajorEntries(y, yd), d) == ClaimsOn(FixedEntries(y), d)
  {
    OrdinalInOrderWithinYear(y, 7, 6, 12, 24);
    NoYearEndHolidayBefore(y, d);
    HolyWeekClaimsOn(y, yd.holyWeek, d);
    CarnivalClaimsOn(y, yd.carnival, d);
    BirthdayClaimsOn(y, d);
    ParentsDayClaimsOn(yd.fathersDay, yd.mothersDay, d);
    MajorClaimsOn(y, yd, d);
  }

  /** In January only the fixed family days claim a day at priority 0. */
  lemma JanuaryMajor(y: int, yd: YearDates, d: Date)
    requires DatesOk(y, yd) && YearStart(y) <= d <= Ordinal(y, 1, 31)
    ensures ClaimsOn(MajorEntries(y, yd), d) == ClaimsOn(FixedEntries(y), d)
  {
    JanuaryWindow(y, yd, d);
    EarlyMajor(y, yd, d);
  }

  /** In January only the weekends claim a day at a lower priority. */
  lemma JanuaryMinor(y: int, yd: YearDates, d: Date)
    requires DatesOk(y, yd) && YearStart(y) <= d <= Ordinal(y, 1, 31)
    ensures ClaimsOn(MinorEntries(y, yd), d) == ClaimsOn(WeekendEntries(y), d)
  {
    OrdinalInOrderWithinYear(y, 1, 31, 4, 21);
    OrdinalInOrderWithinYear(y, 1, 31, 6, 27);
    OrdinalInOrderWithinYear(y, 1, 31, 12, 13);
    MidYearClaimsOn(y, yd.midYear, d);
    YearEndClaimsOn(y, yd.yearEnd, d);
    CommonHolidaysOutside(y, yd.corpusChristi, d);
    MinorClaimsOn(y, yd, d);
  }

  /** January 1 is claimed only as part of the first weekend: when it is a
      Friday of an odd year, for the father. */
  lemma FirstDayWeekend(y: int)
    ensures ClaimsOn(WeekendEntries(y), YearStart(y))
            == if OddYear(y) && Weekday(YearStart(y)) == Friday
               then [Claim(Weekend, Father, WeekendReason)] else []
  {
    var d := YearStart(y);
    var ff := FirstFriday(y);
    WeekdayShift(d, ff - d);
    assert d + (ff - d) == ff;
    OrdinalWithinYear(y, 1, 1);
    WeekendEntriesClaimsOn(y, d);
  }

  /** No fixed family day is on January 1. */
  lemma NoFixedDayOnFirstDay(y: int)
    ensures ClaimsOn(FixedEntries(y), YearStart(y)) == []
  {
    FixedDaysOutside(y, YearStart(y), 1, 1, 1, 1);
  }

  lemma FirstDayCompose(y: int, yd: YearDates)
    requires ClaimsOn(MajorEntries(y, yd), YearStart(y)) == ClaimsOn(FixedEntries(y), YearStart(y))
    requires ClaimsOn(MinorEntries(y, yd), YearStart(y)) == ClaimsOn(WeekendEntries(y), YearStart(y))
    ensures ClaimsOn(EntriesFor(y, yd), YearStart(y))
            == if OddYear(y) && Weekday(YearStart(y)) == Friday
               then [Claim(Weekend, Father, WeekendReason)] else []
  {
    var d := YearStart(y);
    EntriesForClaimsOn(y, yd, d);
    NoFixedDayOnFirstDay(y);
    FirstDayWeekend(y);
  }

  /** What year `y` files for its own January 1: nothing but, when it is
      a Friday of an odd year, the father's first weekend. */
  lemma FirstDayClaimsOf(y: int, yd: YearDates)
    requires DatesOk(y, yd)
    ensures ClaimsOn(EntriesFor(y, yd), YearStart(y))
            == if OddYear(y) && Weekday(YearStart(y)) == Friday
               then [Claim(Weekend, Father, WeekendReason)] else []
  {
    OrdinalInOrderWithinYear(y, 1, 1, 1, 31);
    JanuaryMajor(y, yd, YearStart(y));
    JanuaryMinor(y, yd, YearStart(y));
    FirstDayCompose(y, yd);
  }

  // ---------------------------------------------------------------------
  // The mid-year break
  // ---------------------------------------------------------------------

  /** The 30-day mid-year break never reaches past August 1. */
  lemma MidYearEndsByAugust(y: int, window: (Date, Date))
    requires Ordinal(y, 6, 27) <= window.0 <= Ordinal(y, 7, 3) && window.1 == window.0 + 29
    ensures window.1 <= Ordinal(y, 8, 1)
  {
  }

  /** A day of the mid-year break lies after Holy Week and Carnival, after
      Mother's Day and before Father's Day, between the common holidays of
      June and of August, and before the year-end break. */
  lemma MidYearWindow(y: int, yd: YearDates, d: Date)
    requires DatesOk(y, yd) && yd.midYear.0 <= d <= yd.midYear.1
    ensures AfterMovableFeasts(y, yd, d)
    ensures yd.mothersDay < d < yd.fathersDay && d < yd.yearEnd.0
    ensures Ordinal(y, 6, 27) <= d <= Ordinal(y, 8, 1)
    ensures Ordinal(y, 6, 24) < d < Ordinal(y, 8, 16)
  {
    MidYearEndsByAugust(y, yd.midYear);
    OrdinalInOrderWithinYear(y, 4, 25, 6, 27);
    OrdinalInOrderWithinYear(y, 5, 14, 6, 27);
    OrdinalInOrderWithinYear(y, 8, 1, 8, 8);
    OrdinalInOrderWithinYear(y, 8, 1, 12, 13);
    OrdinalInOrderWithinYear(y, 6, 24, 6, 27);
    OrdinalInOrderWithinYear(y, 8, 1, 8, 16);
  }

  /** No priority-0 rule claims a day of the mid-year break other than
      July 6. */
  lemma MidYearMajor(y: int, yd: YearDates, d: Date)
    requires AfterMovableFeasts(y, yd, d) && yd.mothersDay < d < yd.fathersDay
    requires Ordinal(y, 6, 27) <= d <= Ordinal(y, 8, 1) && d != Ordinal(y, 7, 6)
    ensures ClaimsOn(MajorEntries(y, yd), d) == []
  {
    NoEarlierFeast(y, yd, d);
    BirthdayClaimsOn(y, d);
    FixedDaysOutside(y, d, 6, 27, 8, 1);
    ParentsDayClaimsOn(yd.fathersDay, yd.mothersDay, d);
    MajorClaimsOn(y, yd, d);
  }

  /** A day of a 30-day mid-year break is claimed by the break, then by
      nothing but a weekend. */
  lemma MidYearMinor(y: int, yd: YearDates, d: Date)
    requires Ordinal(y, 5, 21) <= yd.corpusChristi <= Ordinal(y, 6, 24)
    requires Ordinal(y, 6, 24) < d < Ordinal(y, 8, 16) && d < yd.yearEnd.0
    requires yd.midYear.1 == yd.midYear.0 + 29 && yd.midYear.0 <= d <= yd.midYear.1
    ensures ClaimsOn(MinorEntries(y, yd), d)
            == [Claim(VacationBlock, MidYearHolder(y, d - yd.midYear.0), MidYearReason)]
               + ClaimsOn(WeekendEntries(y), d)
  {
    MidYearClaimsOn(y, yd.midYear, d);
    YearEndClaimsOn(y, yd.yearEnd, d);
    CommonHolidaysOutside(y, yd.corpusChristi, d);
    MinorClaimsOn(y, yd, d);
  }

  /** Every day of the mid-year break but July 6 is claimed first by the
      break, for the holder of the 5-10-5-10 split, and then at most by a
      weekend. */
  lemma MidYearDayClaimsOf(y: int, yd: YearDates, d: Date)
    requires DatesOk(y, yd) && yd.midYear.0 <= d <= yd.midYear.1 && d != Ordinal(y, 7, 6)
    ensures ClaimsOn(EntriesFor(y, yd), d)
            == [Claim(VacationBlock, MidYearHolder(y, d - yd.midYear.0), MidYearReason)]
               + ClaimsOn(WeekendEntries(y), d)
  {
    MidYearWindow(y, yd, d);
    MidYearMajor(y, yd, d);
    MidYearMinor(y, yd, d);
    EntriesForClaimsOn(y, yd, d);
  }

  /** What year `y` files for a day of its mid-year break other than July
      6: the break's claim, then at most a weekend's. */
  lemma MidYearDayClaims(y: int, d: Date)
    requires MidYearBreak(y).0 <= d <= MidYearBreak(y).1 && d != Ordinal(y, 7, 6)
    ensures ClaimsOn(YearEntries(y), d)
            == [Claim(VacationBlock, MidYearHolder(y, d - MidYearBreak(y).0), MidYearReason)]
               + ClaimsOn(WeekendEntries(y), d)
  {
    DatesOfOk(y);
    MidYearDayClaimsOf(y, DatesOf(y), d);
  }

  /** Weekends claim at priority 3 only. */
  lemma WeekendClaimsWeakest(y: int, d: Date)
    ensures forall c :: c in ClaimsOn(WeekendEntries(y), d) ==> c.priority == Weekend
    ensures NoneStronger(ClaimsOn(WeekendEntries(y), d), Weekend)
  {
    WeekendEntriesClaimsOn(y, d);
  }

  // ---------------------------------------------------------------------
  // The year-end break in December
  // ---------------------------------------------------------------------

  /** A December day of the year-end break comes after every movable feast,
      the mid-year break and the common holidays. */
  lemma DecemberBreakWindow(y: int, yd: YearDates, d: Date)
    requires DatesOk(y, yd) && yd.yearEnd.0 <= d <= Ordinal(y, 12, 30)
    ensures Ordinal(y, 12, 13) <= d && d <= yd.yearEnd.1
    ensures yd.holyWeek[0] + 8 <= d && yd.carnival + 1 < d
    ensures yd.fathersDay < d && yd.mothersDay < d && yd.midYear.1 < d
    ensures Ordinal(y, 12, 8) < d
  {
    MidYearEndsByAugust(y, yd.midYear);
    OrdinalInOrderWithinYear(y, 8, 14, 12, 13);
    OrdinalInOrderWithinYear(y, 8, 1, 12, 13);
    OrdinalInOrderWithinYear(y, 4, 25, 12, 13);
    OrdinalInOrderWithinYear(y, 12, 8, 12, 13);
    OrdinalWithinYear(y, 12, 30);
    YearEndThenYearStart(y);
    OrdinalWithinYear(y + 1, 1, 15);
  }

  /** No priority-0 rule claims a December day of the break other than
      Christmas Eve, Christmas and New Year's Eve. */
  lemma DecemberBreakMajor(y: int, yd: YearDates, d: Date)
    requires |yd.holyWeek| == 8 && (forall k :: 0 <= k < 8 ==> yd.holyWeek[k] == yd.holyWeek[0] + k)
    requires yd.holyWeek[0] + 8 <= d && yd.carnival + 1 < d
    requires yd.fathersDay < d && yd.mothersDay < d
    requires Ordinal(y, 12, 13) <= d <= Ordinal(y, 12, 30)
    requires d != Ordinal(y, 12, 24) && d != Ordinal(y, 12, 25)
    ensures ClaimsOn(MajorEntries(y, yd), d) == []
  {
    ChristmasClaimsOn(y, d);
    NewYearClaimsOn(y, d);
    HolyWeekClaimsOn(y, yd.holyWeek, d);
    CarnivalClaimsOn(y, yd.carnival, d);
    OrdinalInOrderWithinYear(y, 7, 6, 12, 13);
    BirthdayClaimsOn(y, d);
    if d < Ordinal(y, 12, 24) {
      FixedDaysOutside(y, d, 12, 13, 12, 23);
    } else {
      FixedDaysOutside(y, d, 12, 26, 12, 30);
    }
    ParentsDayClaimsOn(yd.fathersDay, yd.mothersDay, d);
    MajorClaimsOn(y, yd, d);
  }

  /** A December day of the year-end break is claimed by the break, then by
      nothing but a weekend. */
  lemma DecemberBreakMinor(y: int, yd: YearDates, d: Date)
    requires Ordinal(y, 5, 21) <= yd.corpusChristi <= Ordinal(y, 6, 24)
    requires Ordinal(y, 12, 8) < d && yd.midYear.1 < d && yd.yearEnd.0 <= d <= yd.yearEnd.1
    ensures ClaimsOn(MinorEntries(y, yd), d)
            == [Claim(VacationBlock, Alternate(YearEndFirst(y), (d - yd.yearEnd.0) / 7), YearEndReason)]
               + ClaimsOn(WeekendEntries(y), d)
  {
    MidYearClaimsOn(y, yd.midYear, d);
    YearEndClaimsOn(y, yd.yearEnd, d);
    CommonHolidaysOutside(y, yd.corpusChristi, d);
    MinorClaimsOn(y, yd, d);
  }

  /** Every December day of the year-end break but Christmas Eve and
      Christmas is claimed first by the break, for the holder of its week,
      and then at most by a weekend. */
  lemma DecemberBreakClaimsOf(y: int, yd: YearDates, d: Date)
    requires DatesOk(y, yd) && yd.yearEnd.0 <= d <= Ordinal(y, 12, 30)
    requires d != Ordinal(y, 12, 24) && d != Ordinal(y, 12, 25)
    ensures ClaimsOn(EntriesFor(y, yd), d)
            == [Claim(VacationBlock, Alternate(YearEndFirst(y), (d - yd.yearEnd.0) / 7), YearEndReason)]
               + ClaimsOn(WeekendEntries(y), d)
  {
    DecemberBreakWindow(y, yd, d);
    DecemberBreakMajor(y, yd, d);
    DecemberBreakMinor(y, yd, d);
    EntriesForClaimsOn(y, yd, d);
  }

  /** What year `y` files for a December day of its year-end break other
      than Christmas Eve and Christmas. */
  lemma DecemberBreakClaims(y: int, d: Date)
    requires YearEndBreak(y).0 <= d <= Ordinal(y, 12, 30)
    requires d != Ordinal(y, 12, 24) && d != Ordinal(y, 12, 25)
    ensures ClaimsOn(YearEntries(y), d)
            == [Claim(VacationBlock, Alternate(YearEndFirst(y), (d - YearEndBreak(y).0) / 7), YearEndReason)]
               + ClaimsOn(WeekendEntries(y), d)
  {
    DatesOfOk(y);
    DecemberBreakClaimsOf(y, DatesOf(y), d);
  }

  // ---------------------------------------------------------------------
  // January of the next year
  // ---------------------------------------------------------------------

  /** Past January 1 of the next year, a year files nothing of priority 0. */
  lemma NoMajorCarried(j: int, yd: YearDates, d: Date)
    requires DatesOk(j, yd) && YearStart(j + 1) < d
    ensures ClaimsOn(MajorEntries(j, yd), d) == []
  {
    MajorEntriesSpan(j, yd);
    ClaimsOnAbsent(MajorEntries(j, yd), d);
  }

  /** Past January 1 of the next year, a year files claims of priority 1
      to 3 only. */
  lemma CarriedClaimsWeakOf(j: int, yd: YearDates, d: Date)
    requires DatesOk(j, yd) && YearStart(j + 1) < d
    ensures NoneStronger(ClaimsOn(EntriesFor(j, yd), d), VacationBlock)
  {
    NoMajorCarried(j, yd, d);
    EntriesForClaimsOn(j, yd, d);
    MinorEntriesPriority(j, yd);
  }

  lemma CarriedClaimsWeak(j: int, d: Date)
    requires YearStart(j + 1) < d
    ensures NoneStronger(ClaimsOn(YearEntries(j), d), VacationBlock)
  {
    DatesOfOk(j);
    CarriedClaimsWeakOf(j, DatesOf(j), d);
  }

  /** A January day of the break lies past everything else the year
      before files. */
  lemma CarriedBreakWindow(j: int, yd: YearDates, d: Date)
    requires DatesOk(j, yd) && YearStart(j + 1) < d <= yd.yearEnd.1
    ensures Ordinal(j, 12, 8) < d && yd.midYear.1 < d && yd.yearEnd.0 <= d && !InYear(d, j)
  {
    MidYearEndsByAugust(j, yd.midYear);
    OrdinalInOrderWithinYear(j, 8, 1, 12, 13);
    OrdinalWithinYear(j, 12, 19);
    YearEndThenYearStart(j);
  }

  /** Past January 1 of the next year, the only claim a year files for a
      day is that of its year-end break. */
  lemma CarriedBreakClaimsOf(j: int, yd: YearDates, d: Date)
    requires DatesOk(j, yd) && YearStart(j + 1) < d <= yd.yearEnd.1
    ensures ClaimsOn(EntriesFor(j, yd), d)
            == [Claim(VacationBlock, Alternate(YearEndFirst(j), (d - yd.yearEnd.0) / 7), YearEndReason)]
  {
    CarriedBreakWindow(j, yd, d);
    NoMajorCarried(j, yd, d);
    DecemberBreakMinor(j, yd, d);
    WeekendEntriesClaimsOn(j, d);
    EntriesForClaimsOn(j, yd, d);
  }

  lemma CarriedBreakClaimsFor(j: int, d: Date)
    requires YearStart(j + 1) < d <= YearEndBreak(j).1
    ensures ClaimsOn(YearEntries(j), d)
            == [Claim(VacationBlock, Alternate(YearEndFirst(j), (d - DatesOf(j).yearEnd.0) / 7), YearEndReason)]
  {
    DatesOfOk(j);
    CarriedBreakClaimsOf(j, DatesOf(j), d);
  }

  lemma DatesOfYearEnd(j: int)
    ensures DatesOf(j).yearEnd == YearEndBreak(j)
  {
  }

  lemma YearEndWeekOf(j: int, d: Date)
    requires YearStart(j + 1) < d <= YearEndBreak(j).1
    ensures (d - YearEndBreak(j).0) / 7 == (d - DatesOf(j).yearEnd.0) / 7
  {
    DatesOfYearEnd(j);
  }

  /** What year `j` files for a day of its year-end break in January of
      the next year: the break's claim alone. */
  lemma CarriedBreakClaims(j: int, d: Date)
    requires YearStart(j + 1) < d <= YearEndBreak(j).1
    ensures ClaimsOn(YearEntries(j), d)
            == [Claim(VacationBlock, Alternate(YearEndFirst(j), (d - YearEndBreak(j).0) / 7), YearEndReason)]
  {
    YearEndWeekOf(j, d);
    CarriedBreakClaimsFor(j, d);
  }

  /** January 14 and 20 are the only fixed family days in January. */
  lemma NoFixedDayInJanuary(y: int, d: Date)
    requires Ordinal(y, 1, 2) <= d <= Ordinal(y, 1, 31)
    requires d != Ordinal(y, 1, 14) && d != Ordinal(y, 1, 20)
    ensures ClaimsOn(FixedEntries(y), d) == []
  {
    if d < Ordinal(y, 1, 14) {
      FixedDaysOutside(y, d, 1, 2, 1, 13);
    } else if d < Ordinal(y, 1, 20) {
      FixedDaysOutside(y, d, 1, 15, 1, 19);
    } else {
      FixedDaysOutside(y, d, 1, 21, 1, 31);
    }
  }

  /** No two fixed family days share a month-day. */
  lemma FixedDaysDistinct()
    ensures forall i, k :: 0 <= i < |FixedDays| && 0 <= k < |FixedDays| && i != k ==>
              FixedDays[i].month != FixedDays[k].month || FixedDays[i].day != FixedDays[k].day
  {
  }

  /** No two fixed family days share a date. */
  lemma FixedDatesDistinct(y: int, k: int)
    requires 0 <= k < |FixedDays|
    ensures forall i :: 0 <= i < |FixedDays| && i != k ==> FixedEntries(y)[i].date != FixedEntries(y)[k].date
  {
    var f := FixedEntries(y);
    FixedDaysValid(y);
    FixedDaysDistinct();
    forall i | 0 <= i < |f| && i != k
      ensures f[i].date != f[k].date
    {
      if f[i].date == f[k].date {
        OrdinalInjective(y, FixedDays[i].month, FixedDays[i].day, y, FixedDays[k].month, FixedDays[k].day);
      }
    }
  }

  lemma {:induction false} NoEntryOn(es: seq<Entry>, d: Date)
    requires forall i :: 0 <= i < |es| ==> es[i].date != d
    ensures ClaimsOn(es, d) == []
    decreases |es|
  {
    if |es| > 0 {
      NoEntryOn(es[1..], d);
    }
  }

  /** An entry whose date no other entry of `es` carries gives the only
      claim for that date. */
  lemma {:induction false} OnlyEntryOn(es: seq<Entry>, k: int)
    requires 0 <= k < |es|
    requires forall i :: 0 <= i < |es| && i != k ==> es[i].date != es[k].date
    ensures ClaimsOn(es, es[k].date) == [es[k].claim]
    decreases |es|
  {
    if k == 0 {
      NoEntryOn(es[1..], es[0].date);
    } else {
      assert es[1..][k - 1] == es[k];
      OnlyEntryOn(es[1..], k - 1);
    }
  }

  /** Every fixed family day is claimed by the table exactly once. */
  lemma FixedDayClaimsOn(y: int, k: int)
    requires 0 <= k < |FixedDays|
    ensures ValidDate(y, FixedDays[k].month, FixedDays[k].day)
    ensures ClaimsOn(FixedEntries(y), Ordinal(y, FixedDays[k].month, FixedDays[k].day))
            == [Claim(MajorFixed, FixedDays[k].guardian, FixedDays[k].reason)]
  {
    FixedDaysValid(y);
    FixedDatesDistinct(y, k);
    OnlyEntryOn(FixedEntries(y), k);
  }

  /** A January day other than the 1st, the 14th and the 20th is claimed
      by a year only as part of a weekend. */
  lemma JanuaryPlainDayOf(y: int, yd: YearDates, d: Date)
    requires DatesOk(y, yd) && Ordinal(y, 1, 2) <= d <= Ordinal(y, 1, 31)
    requires d != Ordinal(y, 1, 14) && d != Ordinal(y, 1, 20)
    ensures ClaimsOn(EntriesFor(y, yd), d) == ClaimsOn(WeekendEntries(y), d)
  {
    JanuaryMajor(y, yd, d);
    JanuaryMinor(y, yd, d);
    NoFixedDayInJanuary(y, d);
    EntriesForClaimsOn(y, yd, d);
  }

  lemma JanuaryPlainDay(y: int, d: Date)
    requires Ordinal(y, 1, 2) <= d <= Ordinal(y, 1, 31)
    requires d != Ordinal(y, 1, 14) && d != Ordinal(y, 1, 20)
    ensures ClaimsOn(YearEntries(y), d) == ClaimsOn(WeekendEntries(y), d)
  {
    DatesOfOk(y);
    JanuaryPlainDayOf(y, DatesOf(y), d);
  }

  /** On such a day the year files nothing stronger than a weekend. */
  lemma JanuaryPlainDayWeak(y: int, d: Date)
    requires d != Ordinal(y, 1, 14) && d != Ordinal(y, 1, 20)
    requires YearStart(y) < d <= YearStart(y) + 20
    ensures NoneStronger(ClaimsOn(YearEntries(y), d), Weekend)
  {
    JanuaryPlainDay(y, d);
    WeekendClaimsWeakest(y, d);
  }

  /** A fixed family day in January is claimed by the table's entry, then
      at most by a weekend. */
  lemma JanuaryFixedDayOf(y: int, yd: YearDates, k: int)
    requires DatesOk(y, yd) && 0 <= k < |FixedDays| && FixedDays[k].month == 1
    ensures ValidDate(y, 1, FixedDays[k].day)
    ensures ClaimsOn(EntriesFor(y, yd), Ordinal(y, 1, FixedDays[k].day))
            == [Claim(MajorFixed, FixedDays[k].guardian, FixedDays[k].reason)]
               + ClaimsOn(WeekendEntries(y), Ordinal(y, 1, FixedDays[k].day))
  {
    var d := Ordinal(y, 1, FixedDays[k].day);
    FixedDayClaimsOn(y, k);
    OrdinalWithinYear(y, 1, FixedDays[k].day);
    JanuaryMajor(y, yd, d);
    JanuaryMinor(y, yd, d);
    EntriesForClaimsOn(y, yd, d);
  }

  lemma JanuaryFixedDay(y: int, k: int)
    requires 0 <= k < |FixedDays| && FixedDays[k].month == 1
    ensures ValidDate(y, 1, FixedDays[k].day)
    ensures ClaimsOn(YearEntries(y), Ordinal(y, 1, FixedDays[k].day))
            == [Claim(MajorFixed, FixedDays[k].guardian, FixedDays[k].reason)]
               + ClaimsOn(WeekendEntries(y), Ordinal(y, 1, FixedDays[k].day))
  {
    DatesOfOk(y);
    JanuaryFixedDayOf(y, DatesOf(y), k);
  }
}
