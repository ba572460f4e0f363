/** Who gets the common holidays (priority 2).  Both school breaks miss
    every one of them, so a common holiday goes to the parent whose turn
    the holiday list gives it, weekend or not, unless a priority-0 rule
    claims the same day: Holy Week can take Tiradentes (April 21), and a
    fixed birthday can take Corpus Christi when it falls on June 1 or
    June 12. */
module HolidayFacts {
  import opened Calendar
  import opened DateRules
  import opened Outcomes
  import opened Claims
  import opened Resolver
  import opened ClaimFacts
  import opened DayFacts
  import opened BreakFacts
  import opened Custody

  /** The claim the list files for common holiday `idx`. */
  function HolidayClaim(y: int, corpusChristi: Date, idx: int): Claim
    requires 0 <= idx < 11
  {
    Claim(CommonHoliday, CommonHolidayGuardian(y, idx), "Feriado: " + CommonHolidays(y, corpusChristi)[idx].1)
  }

  /** The common holidays in date order: Tiradentes (April 21), May 1,
      Corpus Christi (May 21 to June 24), August 16, September 7,
      October 12, 15 and 19, November 2 and 20, December 8. */
  lemma HolidaysInOrder(y: int, corpusChristi: Date)
    requires Ordinal(y, 5, 21) <= corpusChristi <= Ordinal(y, 6, 24)
    ensures var es := CommonHolidayEntries(y, corpusChristi);
            && es[7].date < es[0].date < es[1].date < es[2].date < es[3].date < es[4].date
            && es[4].date < es[5].date < es[6].date < es[8].date < es[10].date < es[9].date
  {
    OrdinalInOrderWithinYear(y, 4, 21, 5, 1);
    OrdinalInOrderWithinYear(y, 5, 1, 5, 21);
    OrdinalInOrderWithinYear(y, 6, 24, 8, 16);
    OrdinalInOrderWithinYear(y, 8, 16, 9, 7);
    OrdinalInOrderWithinYear(y, 9, 7, 10, 12);
    OrdinalInOrderWithinYear(y, 10, 12, 10, 15);
    OrdinalInOrderWithinYear(y, 10, 15, 10, 19);
    OrdinalInOrderWithinYear(y, 10, 19, 11, 2);
    OrdinalInOrderWithinYear(y, 11, 2, 11, 20);
    OrdinalInOrderWithinYear(y, 11, 20, 12, 8);
  }

  /** Eleven entries whose dates follow the holidays' date order have
      pairwise distinct dates. */
  lemma ChainDistinct(es: seq<Entry>, k: int)
    requires |es| == 11 && 0 <= k < 11
    requires && es[7].date < es[0].date < es[1].date < es[2].date < es[3].date < es[4].date
             && es[4].date < es[5].date < es[6].date < es[8].date < es[10].date < es[9].date
    ensures forall i :: 0 <= i < 11 && i != k ==> es[i].date != es[k].date
  {
  }

  /** No two common holidays share a date. */
  lemma HolidayDatesDistinct(y: int, corpusChristi: Date, k: int)
    requires Ordinal(y, 5, 21) <= corpusChristi <= Ordinal(y, 6, 24) && 0 <= k < 11
    ensures forall i :: 0 <= i < 11 && i != k ==>
              CommonHolidayEntries(y, corpusChristi)[i].date != CommonHolidayEntries(y, corpusChristi)[k].date
  {
    HolidaysInOrder(y, corpusChristi);
    ChainDistinct(CommonHolidayEntries(y, corpusChristi), k);
  }

  /** Each common holiday is the only one filed under its date. */
  lemma HolidayClaimsOn(y: int, corpusChristi: Date, idx: int)
    requires Ordinal(y, 5, 21) <= corpusChristi <= Ordinal(y, 6, 24) && 0 <= idx < 11
    ensures ClaimsOn(CommonHolidayEntries(y, corpusChristi), CommonHolidays(y, corpusChristi)[idx].0)
            == [HolidayClaim(y, corpusChristi, idx)]
  {
    HolidayDatesDistinct(y, corpusChristi, idx);
    OnlyEntryOn(CommonHolidayEntries(y, corpusChristi), idx);
  }

  /** A common holiday's date lies from April 21 to December 8, outside
      both school breaks. */
  lemma HolidayOutsideBreaks(y: int, yd: YearDates, idx: int)
    requires DatesOk(y, yd) && 0 <= idx < 11
    ensures var h := CommonHolidays(y, yd.corpusChristi)[idx].0;
            && Ordinal(y, 4, 21) <= h <= Ordinal(y, 12, 8)
            && (h < yd.midYear.0 || yd.midYear.1 < h)
            && h < yd.yearEnd.0
  {
    var es := CommonHolidayEntries(y, yd.corpusChristi);
    CommonHolidaysSpread(y, yd.corpusChristi, es[idx]);
    MidYearEndsByAugust(y, yd.midYear);
    OrdinalInOrderWithinYear(y, 6, 24, 6, 27);
    OrdinalInOrderWithinYear(y, 8, 1, 8, 16);
    OrdinalInOrderWithinYear(y, 12, 8, 12, 13);
  }

  /** The school breaks claim nothing outside their windows. */
  lemma NoBreakClaims(y: int, yd: YearDates, h: Date)
    requires yd.midYear.1 == yd.midYear.0 + 29
    requires (h < yd.midYear.0 || yd.midYear.1 < h) && h < yd.yearEnd.0
    ensures ClaimsOn(MidYearEntries(y, yd.midYear), h) == []
    ensures ClaimsOn(YearEndEntries(y, yd.yearEnd), h) == []
  {
    MidYearClaimsOn(y, yd.midYear, h);
    YearEndClaimsOn(y, yd.yearEnd, h);
  }

  /** Below priority 0, a day outside both school breaks that a single
      common holiday claims is claimed by it and then at most by a
      weekend. */
  lemma MinorOutsideBreaks(y: int, yd: YearDates, h: Date, c: Claim)
    requires yd.midYear.1 == yd.midYear.0 + 29
    requires (h < yd.midYear.0 || yd.midYear.1 < h) && h < yd.yearEnd.0
    requires ClaimsOn(CommonHolidayEntries(y, yd.corpusChristi), h) == [c]
    ensures ClaimsOn(MinorEntries(y, yd), h) == [c] + ClaimsOn(WeekendEntries(y), h)
  {
    NoBreakClaims(y, yd, h);
    MinorClaimsOn(y, yd, h);
  }

  /** Below priority 0, a common holiday is claimed by itself and then at
      most by a weekend. */
  lemma HolidayMinor(y: int, yd: YearDates, idx: int)
    requires DatesOk(y, yd) && 0 <= idx < 11
    ensures ClaimsOn(MinorEntries(y, yd), CommonHolidays(y, yd.corpusChristi)[idx].0)
            == [HolidayClaim(y, yd.corpusChristi, idx)]
               + ClaimsOn(WeekendEntries(y), CommonHolidays(y, yd.corpusChristi)[idx].0)
  {
    var h := CommonHolidays(y, yd.corpusChristi)[idx].0;
    HolidayOutsideBreaks(y, yd, idx);
    HolidayClaimsOn(y, yd.corpusChristi, idx);
    MinorOutsideBreaks(y, yd, h, HolidayClaim(y, yd.corpusChristi, idx));
  }

  /** Whether a priority-0 rule of a year with dates `yd` also claims
      common holiday `idx`. */
  predicate Shadowed(y: int, yd: YearDates, idx: int)
    requires |yd.holyWeek| == 8
  {
    || (idx == 7 && yd.holyWeek[0] <= Ordinal(y, 4, 21) <= yd.holyWeek[7])
    || (idx == 1 && (yd.corpusChristi == Ordinal(y, 6, 1) || yd.corpusChristi == Ordinal(y, 6, 12)))
  }

  /** No fixed family day falls on a day strictly between two month-days
      of its year when none of the table's month-days lies strictly
      between them. */
  lemma FixedDaysBetween(y: int, d: Date, m1: int, d1: int, m2: int, d2: int)
    requires ValidDate(y, m1, d1) && ValidDate(y, m2, d2)
    requires Ordinal(y, m1, d1) < d < Ordinal(y, m2, d2)
    requires forall k :: 0 <= k < |FixedDays| ==>
               !MonthDayBefore(m1, d1, FixedDays[k].month, FixedDays[k].day)
               || !MonthDayBefore(FixedDays[k].month, FixedDays[k].day, m2, d2)
    ensures ClaimsOn(FixedEntries(y), d) == []
  {
    var f := FixedEntries(y);
    FixedDaysValid(y);
    forall k | 0 <= k < |f|
      ensures f[k].date != d
    {
      var fd := FixedDays[k];
      if !MonthDayBefore(m1, d1, fd.month, fd.day) {
        if fd.month != m1 || fd.day != d1 {
          OrdinalInOrderWithinYear(y, fd.month, fd.day, m1, d1);
        }
      } else if fd.month != m2 || fd.day != d2 {
        OrdinalInOrderWithinYear(y, m2, d2, fd.month, fd.day);
      }
    }
    ClaimsOnAbsent(f, d);
  }

  /** Corpus Christi is a fixed family day exactly when it falls on June 1
      or June 12. */
  lemma CorpusChristiFixed(y: int, yd: YearDates)
    requires DatesOk(y, yd)
    ensures ClaimsOn(FixedEntries(y), yd.corpusChristi) == [] <==> !Shadowed(y, yd, 1)
  {
    var cc := yd.corpusChristi;
    if cc == Ordinal(y, 6, 1) {
      FixedDayClaimsOn(y, 2);
    } else if cc == Ordinal(y, 6, 12) {
      FixedDayClaimsOn(y, 1);
    } else if cc < Ordinal(y, 6, 1) {
      OrdinalInOrderWithinYear(y, 5, 20, 5, 21);
      FixedDaysBetween(y, cc, 5, 20, 6, 1);
    } else if cc < Ordinal(y, 6, 12) {
      FixedDaysBetween(y, cc, 6, 1, 6, 12);
    } else {
      OrdinalInOrderWithinYear(y, 6, 24, 6, 25);
      FixedDaysBetween(y, cc, 6, 12, 6, 25);
    }
  }

  /** The month-day of every common holiday but Corpus Christi. */
  function HolidayMonthDay(idx: int): (int, int)
    requires 0 <= idx < 11 && idx != 1
  {
    [(5, 1), (0, 0), (8, 16), (9, 7), (10, 12), (10, 15), (10, 19), (4, 21), (11, 2), (12, 8), (11, 20)][idx]
  }

  /** A common holiday other than Corpus Christi is on its month-day. */
  lemma HolidayOnMonthDay(y: int, corpusChristi: Date, idx: int)
    requires 0 <= idx < 11 && idx != 1
    ensures ValidDate(y, HolidayMonthDay(idx).0, HolidayMonthDay(idx).1)
    ensures CommonHolidays(y, corpusChristi)[idx].0 == Ordinal(y, HolidayMonthDay(idx).0, HolidayMonthDay(idx).1)
  {
  }

  /** No fixed family day falls on a common holiday other than Corpus
      Christi. */
  lemma HolidayNotFixed(y: int, corpusChristi: Date, idx: int)
    requires 0 <= idx < 11 && idx != 1
    ensures ClaimsOn(FixedEntries(y), CommonHolidays(y, corpusChristi)[idx].0) == []
  {
    var (m, dd) := HolidayMonthDay(idx);
    HolidayOnMonthDay(y, corpusChristi, idx);
    FixedDaysOutside(y, CommonHolidays(y, corpusChristi)[idx].0, m, dd, m, dd);
  }

  /** Where a common holiday lies in its year: between Tiradentes and
      Imaculada Conceição, off the mid-year gap, clear of the week Dia das
      Mães may fall in, and no earlier than May 1 unless it is Tiradentes. */
  lemma HolidayPlace(y: int, corpusChristi: Date, idx: int)
    requires Ordinal(y, 5, 21) <= corpusChristi <= Ordinal(y, 6, 24) && 0 <= idx < 11
    ensures var h := CommonHolidays(y, corpusChristi)[idx].0;
            && Ordinal(y, 4, 21) <= h <= Ordinal(y, 12, 8)
            && (h <= Ordinal(y, 6, 24) || Ordinal(y, 8, 16) <= h)
            && (h < Ordinal(y, 5, 8) || Ordinal(y, 5, 14) < h)
            && (idx != 7 ==> Ordinal(y, 5, 1) <= h)
  {
    CommonHolidaysSpread(y, corpusChristi, CommonHolidayEntries(y, corpusChristi)[idx]);
    if idx == 1 {
      OrdinalInOrderWithinYear(y, 5, 14, 5, 21);
      OrdinalInOrderWithinYear(y, 5, 1, 5, 21);
    } else {
      var (m, dd) := HolidayMonthDay(idx);
      HolidayOnMonthDay(y, corpusChristi, idx);
      if idx == 0 {
        OrdinalInOrderWithinYear(y, 5, 1, 5, 8);
      } else if idx == 7 {
        OrdinalInOrderWithinYear(y, 4, 21, 5, 8);
      } else {
        OrdinalInOrderWithinYear(y, 5, 14, m, dd);
      }
    }
  }

  /** Where a common holiday lies against the other priority-0 rules: past
      Carnival, before Christmas, off July 6 and off both parents' days;
      only Tiradentes can come before the end of Holy Week. */
  lemma HolidayWindow(y: int, yd: YearDates, idx: int)
    requires DatesOk(y, yd) && 0 <= idx < 11
    ensures var h := CommonHolidays(y, yd.corpusChristi)[idx].0;
            && YearStart(y) <= h < Ordinal(y, 12, 24)
            && yd.carnival + 1 < h
            && (idx != 7 ==> yd.holyWeek[7] < h)
            && h != Ordinal(y, 7, 6) && h != yd.fathersDay && h != yd.mothersDay
  {
    HolidayPlace(y, yd.corpusChristi, idx);
    OrdinalWithinYear(y, 4, 21);
    OrdinalInOrderWithinYear(y, 12, 8, 12, 24);
    OrdinalInOrderWithinYear(y, 3, 9, 4, 20);
    OrdinalInOrderWithinYear(y, 4, 20, 4, 21);
    OrdinalInOrderWithinYear(y, 4, 25, 5, 1);
    OrdinalInOrderWithinYear(y, 6, 24, 7, 6);
    OrdinalInOrderWithinYear(y, 7, 6, 8, 16);
    OrdinalInOrderWithinYear(y, 6, 24, 8, 8);
    OrdinalInOrderWithinYear(y, 8, 14, 8, 16);
  }

  /** Between Carnival and Christmas, off July 6 and off both parents'
      days, only Holy Week and the fixed family days can claim a day at
      priority 0. */
  lemma MajorBetweenFeasts(y: int, yd: YearDates, h: Date)
    requires |yd.holyWeek| > 0 && forall k :: 0 <= k < |yd.holyWeek| ==> yd.holyWeek[k] == yd.holyWeek[0] + k
    requires YearStart(y) <= h < Ordinal(y, 12, 24) && yd.carnival + 1 < h
    requires h != Ordinal(y, 7, 6) && h != yd.fathersDay && h != yd.mothersDay
    ensures ClaimsOn(MajorEntries(y, yd), h)
            == ClaimsOn(HolyWeekEntries(y, yd.holyWeek), h) + ClaimsOn(FixedEntries(y), h)
  {
    NoYearEndHolidayBefore(y, h);
    CarnivalClaimsOn(y, yd.carnival, h);
    BirthdayClaimsOn(y, h);
    ParentsDayClaimsOn(yd.fathersDay, yd.mothersDay, h);
    MajorClaimsOn(y, yd, h);
  }

  /** A common holiday is free of priority-0 claims exactly when it is not
      shadowed: Tiradentes only by Holy Week, Corpus Christi only by a
      fixed birthday. */
  lemma HolidayMajor(y: int, yd: YearDates, idx: int)
    requires DatesOk(y, yd) && 0 <= idx < 11
    ensures ClaimsOn(MajorEntries(y, yd), CommonHolidays(y, yd.corpusChristi)[idx].0) == []
            <==> !Shadowed(y, yd, idx)
  {
    var h := CommonHolidays(y, yd.corpusChristi)[idx].0;
    HolidayWindow(y, yd, idx);
    MajorBetweenFeasts(y, yd, h);
    HolyWeekClaimsOn(y, yd.holyWeek, h);
    if idx == 1 {
      CorpusChristiFixed(y, yd);
    } else {
      HolidayNotFixed(y, yd.corpusChristi, idx);
    }
  }

  /** What a year files for common holiday `idx`: the priority-0 claims of
      its date, then the holiday's own claim, then at most a weekend's. */
  lemma HolidayDayClaimsOf(y: int, yd: YearDates, idx: int)
    requires DatesOk(y, yd) && 0 <= idx < 11
    ensures ClaimsOn(EntriesFor(y, yd), CommonHolidays(y, yd.corpusChristi)[idx].0)
            == ClaimsOn(MajorEntries(y, yd), CommonHolidays(y, yd.corpusChristi)[idx].0)
               + [HolidayClaim(y, yd.corpusChristi, idx)]
               + ClaimsOn(WeekendEntries(y), CommonHolidays(y, yd.corpusChristi)[idx].0)
  {
    HolidayMinor(y, yd, idx);
    EntriesForClaimsOn(y, yd, CommonHolidays(y, yd.corpusChristi)[idx].0);
  }

  /** The date of common holiday `idx` of year `y`. */
  function HolidayDate(y: int, idx: int): Date
    requires 0 <= idx < 11
  {
    CommonHolidays(y, CorpusChristi(y))[idx].0
  }

  /** An unshadowed common holiday is claimed first by the list, and
      nothing beats that claim. */
  lemma HolidayClaimUnbeaten(k: int, idx: int)
    requires 0 <= idx < 11 && !Shadowed(k, DatesOf(k), idx)
    ensures FirstUnbeaten(ClaimsOn(YearEntries(k), HolidayDate(k, idx)))
    ensures ClaimsOn(YearEntries(k), HolidayDate(k, idx))[0] == HolidayClaim(k, CorpusChristi(k), idx)
  {
    var h := HolidayDate(k, idx);
    DatesOfOk(k);
    HolidayDayClaimsOf(k, DatesOf(k), idx);
    HolidayMajor(k, DatesOf(k), idx);
    WeekendClaimsWeakest(k, h);
    HeadUnbeaten(HolidayClaim(k, CorpusChristi(k), idx), ClaimsOn(WeekendEntries(k), h));
  }

  /** Every common holiday lies from April 21 to December 8. */
  lemma HolidaySpan(y: int, corpusChristi: Date, idx: int)
    requires Ordinal(y, 5, 21) <= corpusChristi <= Ordinal(y, 6, 24) && 0 <= idx < 11
    ensures Ordinal(y, 4, 21) <= CommonHolidays(y, corpusChristi)[idx].0 <= Ordinal(y, 12, 8)
  {
    CommonHolidaysSpread(y, corpusChristi, CommonHolidayEntries(y, corpusChristi)[idx]);
  }

  /** A common holiday lies in its year, past the days the year before
      may still claim. */
  lemma HolidayInYear(k: int, idx: int)
    requires 0 <= idx < 11
    ensures InYear(HolidayDate(k, idx), k) && YearStart(k) + 21 <= HolidayDate(k, idx)
  {
    HolidaySpan(k, CorpusChristi(k), idx);
    PastCarryOver(k, HolidayDate(k, idx), 4, 21, 12, 8);
  }

  /** Common holiday `idx` goes to the parent its place in the list gives
      (the father when `idx + k` is even), weekend or not, whenever no
      priority-0 rule claims the same day. */
  lemma HolidayRecord(y0: int, y1: int, k: int, idx: int)
    requires YearsInRange(y0, y1) && y0 <= k <= y1
    requires 0 <= idx < 11 && !Shadowed(k, DatesOf(k), idx)
    ensures Generate(y0, y1).Ok?
    ensures RecordOn(Generate(y0, y1).value, HolidayDate(k, idx))
            == Some(Record(HolidayDate(k, idx), CommonHolidayGuardian(k, idx),
                           "Feriado: " + CommonHolidays(k, CorpusChristi(k))[idx].1, CommonHoliday))
  {
    HolidayRecordWith(y0, y1, k, idx);
  }

  /** `HolidayRecord`, stated of the run over `YearEntries`. */
  lemma HolidayRecordWith(y0: int, y1: int, k: int, idx: int)
    requires YearsInRange(y0, y1) && y0 <= k <= y1
    requires 0 <= idx < 11 && !Shadowed(k, DatesOf(k), idx)
    ensures GenerateWith(YearEntries, y0, y1).Ok?
    ensures RecordOn(GenerateWith(YearEntries, y0, y1).value, HolidayDate(k, idx))
            == Some(Record(HolidayDate(k, idx), CommonHolidayGuardian(k, idx),
                           "Feriado: " + CommonHolidays(k, CorpusChristi(k))[idx].1, CommonHoliday))
  {
    HolidayInYear(k, idx);
    HolidayClaimUnbeaten(k, idx);
    AllYearsSpill(y0, y1);
    OwnFirstClaimRecords(YearEntries, y0, y1, k, HolidayDate(k, idx));
  }

  /** Every day from Palm Sunday to Easter Sunday goes to Holy Week,
      whatever else claims it. */
  lemma HolyWeekDayRecord(y0: int, y1: int, k: int, d: Date)
    requires YearsInRange(y0, y1) && y0 <= k <= y1
    requires HolyWeek(k)[0] <= d <= HolyWeek(k)[7]
    ensures Generate(y0, y1).Ok?
    ensures RecordOn(Generate(y0, y1).value, d)
            == Some(Record(d, HolyWeekGuardian(k), "Semana Santa/Páscoa", MajorFixed))
  {
    var j := d - HolyWeek(k)[0];
    assert 0 <= j < 8 && HolyWeek(k)[j] == d;
    HolyWeekRecord(y0, y1, k, j);
  }

  /** When Tiradentes falls in Holy Week, Holy Week takes it. */
  lemma TiradentesInHolyWeek(y0: int, y1: int, k: int)
    requires YearsInRange(y0, y1) && y0 <= k <= y1
    requires HolyWeek(k)[0] <= Ordinal(k, 4, 21) <= HolyWeek(k)[7]
    ensures Generate(y0, y1).Ok?
    ensures RecordOn(Generate(y0, y1).value, Ordinal(k, 4, 21))
            == Some(Record(Ordinal(k, 4, 21), HolyWeekGuardian(k), "Semana Santa/Páscoa", MajorFixed))
  {
    HolyWeekDayRecord(y0, y1, k, Ordinal(k, 4, 21));
  }

  /** When Corpus Christi falls on June 1 or June 12, the first
      priority-0 claim of the day is the fixed birthday of that day. */
  lemma CorpusChristiMajor(y: int, yd: YearDates, i: int)
    requires DatesOk(y, yd) && (i == 1 || i == 2)
    requires ValidDate(y, FixedDays[i].month, FixedDays[i].day)
    requires yd.corpusChristi == Ordinal(y, FixedDays[i].month, FixedDays[i].day)
    ensures FirstClaimIs(ClaimsOn(MajorEntries(y, yd), yd.corpusChristi),
                         Claim(MajorFixed, Father, FixedDays[i].reason))
  {
    HolidayWindow(y, yd, 1);
    MajorBetweenFeasts(y, yd, yd.corpusChristi);
    HolyWeekClaimsOn(y, yd.holyWeek, yd.corpusChristi);
    FixedDayClaimsOn(y, i);
  }

  /** When Corpus Christi falls on June 1 or June 12, the fixed birthday
      of that day (the father's side) takes it. */
  lemma CorpusChristiOnBirthday(y0: int, y1: int, k: int, i: int)
    requires YearsInRange(y0, y1) && y0 <= k <= y1
    requires i == 1 || i == 2
    requires ValidDate(k, FixedDays[i].month, FixedDays[i].day)
    requires CorpusChristi(k) == Ordinal(k, FixedDays[i].month, FixedDays[i].day)
    ensures Generate(y0, y1).Ok?
    ensures RecordOn(Generate(y0, y1).value, CorpusChristi(k))
            == Some(Record(CorpusChristi(k), Father, FixedDays[i].reason, MajorFixed))
  {
    DatesOfOk(k);
    CorpusChristiMajor(k, DatesOf(k), i);
    HolidayInYear(k, 1);
    MajorClaimRecords(y0, y1, k, CorpusChristi(k), Claim(MajorFixed, Father, FixedDays[i].reason));
  }
}
