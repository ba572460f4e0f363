/** What one year's claims look like: where they fall, how strong they are,
    which claim comes first on the days the program cares most about, and
    closed forms for the school breaks and weekends. */
module ClaimFacts {
  import opened Calendar
  import opened DateRules
  import opened Claims

  // ---------------------------------------------------------------------
  // Where a year's claims fall, and how strong they are
  // ---------------------------------------------------------------------

  /** Every entry of `es` is dated between `lo` and `hi`. */
  predicate Within(es: seq<Entry>, lo: Date, hi: Date) {
    forall e :: e in es ==> lo <= e.date <= hi
  }

  /** Every claim of `es` is of priority 3 or stronger, so it is recorded
      whenever it wins its day. */
  predicate Recordable(es: seq<Entry>) {
    forall e :: e in es ==> e.claim.priority <= Weekend
  }

  lemma WithinAppend(a: seq<Entry>, b: seq<Entry>, lo: Date, hi: Date)
    requires Within(a, lo, hi) && Within(b, lo, hi)
    ensures Within(a + b, lo, hi)
  {
  }

  lemma WithinWiden(es: seq<Entry>, lo: Date, hi: Date, lo': Date, hi': Date)
    requires Within(es, lo, hi) && lo' <= lo && hi <= hi'
    ensures Within(es, lo', hi')
  {
  }

  /** A run of entries on consecutive days lies between its first and last day. */
  lemma ConsecutiveWithin(es: seq<Entry>, base: Date, lo: Date, hi: Date)
    requires forall k :: 0 <= k < |es| ==> es[k].date == base + k
    requires lo <= base && base + |es| - 1 <= hi
    ensures Within(es, lo, hi)
  {
    forall e | e in es
      ensures lo <= e.date <= hi
    {
      var k :| 0 <= k < |es| && es[k] == e;
    }
  }

  lemma FixedEntriesInYear(y: int)
    ensures Within(FixedEntries(y), YearStart(y), YearEnd(y))
    ensures forall e :: e in FixedEntries(y) ==> e.claim.priority == MajorFixed
  {
    FixedDaysValid(y);
    forall e | e in FixedEntries(y)
      ensures YearStart(y) <= e.date <= YearEnd(y)
    {
      var k :| 0 <= k < |FixedEntries(y)| && FixedEntries(y)[k] == e;
      OrdinalWithinYear(y, FixedDays[k].month, FixedDays[k].day);
    }
  }

  lemma CommonHolidaysInYear(y: int, corpusChristi: Date)
    requires InYear(corpusChristi, y)
    ensures Within(CommonHolidayEntries(y, corpusChristi), YearStart(y), YearEnd(y))
    ensures forall e :: e in CommonHolidayEntries(y, corpusChristi) ==> e.claim.priority == CommonHoliday
  {
    var es := CommonHolidayEntries(y, corpusChristi);
    forall e | e in es
      ensures YearStart(y) <= e.date <= YearEnd(y)
    {
      var k :| 0 <= k < |es| && es[k] == e;
    }
  }

  /** Christmas and New Year run from December 24 to January 1 of the next year. */
  lemma YearEndHolidaysSpan(y: int)
    ensures Within(ChristmasEntries(y) + NewYearEntries(y), YearStart(y), YearStart(y + 1))
  {
    YearEndThenYearStart(y);
  }

  /** Holy Week, Carnival, Father's and Mother's Day fall inside the year. */
  lemma MovableFeastsSpan(y: int, yd: YearDates)
    requires DatesOk(y, yd)
    ensures Within(HolyWeekEntries(y, yd.holyWeek), YearStart(y), YearEnd(y))
    ensures Within(CarnivalEntries(y, yd.carnival), YearStart(y), YearEnd(y))
    ensures Within(ParentsDayEntries(yd.fathersDay, yd.mothersDay), YearStart(y), YearEnd(y))
  {
    ConsecutiveWithin(HolyWeekEntries(y, yd.holyWeek), yd.holyWeek[0], YearStart(y), YearEnd(y));
    ConsecutiveWithin(CarnivalEntries(y, yd.carnival), yd.carnival - 1, YearStart(y), YearEnd(y));
  }

  /** The priority-0 part of a year, from its parts' spans. */
  lemma MajorEntriesWithin(y: int, yd: YearDates, lo: Date, hi: Date)
    requires Within(ChristmasEntries(y) + NewYearEntries(y), lo, hi)
    requires Within(HolyWeekEntries(y, yd.holyWeek), lo, hi)
    requires Within(CarnivalEntries(y, yd.carnival), lo, hi)
    requires Within(BirthdayEntries(y), lo, hi)
    requires Within(FixedEntries(y), lo, hi)
    requires Within(ParentsDayEntries(yd.fathersDay, yd.mothersDay), lo, hi)
    ensures Within(MajorEntries(y, yd), lo, hi)
  {
    var c := ChristmasEntries(y);
    var n := NewYearEntries(y);
    var hw := HolyWeekEntries(y, yd.holyWeek);
    var ca := CarnivalEntries(y, yd.carnival);
    var b := BirthdayEntries(y);
    var f := FixedEntries(y);
    WithinAppend(c + n, hw, lo, hi);
    WithinAppend(c + n + hw, ca, lo, hi);
    WithinAppend(c + n + hw + ca, b, lo, hi);
    WithinAppend(c + n + hw + ca + b, f, lo, hi);
    WithinAppend(c + n + hw + ca + b + f, ParentsDayEntries(yd.fathersDay, yd.mothersDay), lo, hi);
  }

  /** The priority-0 part of a year lies within the year, but for
      January 1 of the next year. */
  lemma MajorEntriesSpan(y: int, yd: YearDates)
    requires DatesOk(y, yd)
    ensures Within(MajorEntries(y, yd), YearStart(y), YearStart(y + 1))
  {
    var lo, hi := YearStart(y), YearStart(y + 1);
    YearEndThenYearStart(y);
    YearEndHolidaysSpan(y);
    MovableFeastsSpan(y, yd);
    WithinWiden(HolyWeekEntries(y, yd.holyWeek), lo, YearEnd(y), lo, hi);
    WithinWiden(CarnivalEntries(y, yd.carnival), lo, YearEnd(y), lo, hi);
    WithinWiden(ParentsDayEntries(yd.fathersDay, yd.mothersDay), lo, YearEnd(y), lo, hi);
    FixedEntriesInYear(y);
    WithinWiden(FixedEntries(y), lo, YearEnd(y), lo, hi);
    assert Within(BirthdayEntries(y), lo, hi);
    MajorEntriesWithin(y, yd, lo, hi);
  }

  lemma MajorEntriesPriority(y: int, yd: YearDates)
    ensures forall e :: e in MajorEntries(y, yd) ==> e.claim.priority == MajorFixed
  {
    FixedEntriesInYear(y);
    var hw := HolyWeekEntries(y, yd.holyWeek);
    forall e | e in hw
      ensures e.claim.priority == MajorFixed
    {
      var k :| 0 <= k < |hw| && hw[k] == e;
    }
    var ca := CarnivalEntries(y, yd.carnival);
    forall e | e in ca
      ensures e.claim.priority == MajorFixed
    {
      var k :| 0 <= k < |ca| && ca[k] == e;
    }
  }

  /** The rest of a year, from its parts' spans. */
  lemma MinorEntriesWithin(y: int, yd: YearDates, lo: Date, hi: Date)
    requires lo <= yd.midYear.0 && yd.midYear.1 <= hi
    requires lo <= yd.yearEnd.0 && yd.yearEnd.1 <= hi
    requires Within(CommonHolidayEntries(y, yd.corpusChristi), lo, hi)
    requires lo <= YearStart(y) && YearEnd(y) <= hi
    ensures Within(MinorEntries(y, yd), lo, hi)
  {
  }

  /** The rest of a year lies within the year, but for the end of the
      year-end break, which reaches January 21 of the next year at most. */
  lemma MinorEntriesSpan(y: int, yd: YearDates)
    requires DatesOk(y, yd)
    ensures Within(MinorEntries(y, yd), YearStart(y), YearStart(y + 1) + 20)
  {
    YearEndThenYearStart(y);
    CommonHolidaysInYear(y, yd.corpusChristi);
    WithinWiden(CommonHolidayEntries(y, yd.corpusChristi), YearStart(y), YearEnd(y), YearStart(y), YearStart(y + 1) + 20);
    MinorEntriesWithin(y, yd, YearStart(y), YearStart(y + 1) + 20);
  }

  /** Breaks, common holidays and weekends are all of priority 1 to 3. */
  lemma MinorEntriesPriority(y: int, yd: YearDates)
    ensures Recordable(MinorEntries(y, yd))
    ensures forall e :: e in MinorEntries(y, yd) ==> VacationBlock <= e.claim.priority
  {
    var ch := CommonHolidayEntries(y, yd.corpusChristi);
    forall e | e in ch
      ensures e.claim.priority == CommonHoliday
    {
      var k :| 0 <= k < |ch| && ch[k] == e;
    }
  }

  /** All of year `y`'s claims fall between January 1 of `y` and
      January 21 of `y + 1`, and every one of them is of priority 3 or
      stronger. */
  lemma EntriesForSpan(y: int, yd: YearDates)
    requires DatesOk(y, yd)
    ensures Within(EntriesFor(y, yd), YearStart(y), YearStart(y + 1) + 20)
    ensures Recordable(EntriesFor(y, yd))
  {
    MajorEntriesSpan(y, yd);
    WithinWiden(MajorEntries(y, yd), YearStart(y), YearStart(y + 1), YearStart(y), YearStart(y + 1) + 20);
    MajorEntriesPriority(y, yd);
    MinorEntriesSpan(y, yd);
    MinorEntriesPriority(y, yd);
  }

  /** The same for the dates the rules give. */
  lemma YearEntriesWithin(y: int)
    ensures Within(YearEntries(y), YearStart(y), YearStart(y + 1) + 20)
    ensures Recordable(YearEntries(y))
  {
    DatesOfOk(y);
    EntriesForSpan(y, DatesOf(y));
  }

  // ---------------------------------------------------------------------
  // The claims of one day, part by part
  // ---------------------------------------------------------------------

  /** A day's claims in a year are its priority-0 claims, then the rest. */
  lemma EntriesForClaimsOn(y: int, yd: YearDates, d: Date)
    ensures ClaimsOn(EntriesFor(y, yd), d) == ClaimsOn(MajorEntries(y, yd), d) + ClaimsOn(MinorEntries(y, yd), d)
  {
    ClaimsOnAppend(MajorEntries(y, yd), MinorEntries(y, yd), d);
  }

  /** A day's priority-0 claims, in the order the program files them. */
  lemma MajorClaimsOn(y: int, yd: YearDates, d: Date)
    ensures ClaimsOn(MajorEntries(y, yd), d)
            == ClaimsOn(ChristmasEntries(y), d) + ClaimsOn(NewYearEntries(y), d)
               + ClaimsOn(HolyWeekEntries(y, yd.holyWeek), d) + ClaimsOn(CarnivalEntries(y, yd.carnival), d)
               + ClaimsOn(BirthdayEntries(y), d) + ClaimsOn(FixedEntries(y), d)
               + ClaimsOn(ParentsDayEntries(yd.fathersDay, yd.mothersDay), d)
  {
    var c := ChristmasEntries(y);
    var n := NewYearEntries(y);
    var hw := HolyWeekEntries(y, yd.holyWeek);
    var ca := CarnivalEntries(y, yd.carnival);
    var b := BirthdayEntries(y);
    var f := FixedEntries(y);
    var p := ParentsDayEntries(yd.fathersDay, yd.mothersDay);
    ClaimsOnAppend(c + n + hw + ca + b + f, p, d);
    ClaimsOnAppend(c + n + hw + ca + b, f, d);
    ClaimsOnAppend(c + n + hw + ca, b, d);
    ClaimsOnAppend(c + n + hw, ca, d);
    ClaimsOnAppend(c + n, hw, d);
    ClaimsOnAppend(c, n, d);
  }

  lemma ChristmasClaimsOn(y: int, d: Date)
    ensures ClaimsOn(ChristmasEntries(y), d)
            == if Ordinal(y, 12, 24) <= d <= Ordinal(y, 12, 25)
               then [Claim(MajorFixed, ChristmasGuardian(y), "Natal")] else []
  {
    ClaimsOnConsecutive(ChristmasEntries(y), Ordinal(y, 12, 24), d);
  }

  lemma NewYearClaimsOn(y: int, d: Date)
    ensures ClaimsOn(NewYearEntries(y), d)
            == if Ordinal(y, 12, 31) <= d <= YearStart(y + 1)
               then [Claim(MajorFixed, NewYearGuardian(y), "Ano Novo")] else []
  {
    YearEndThenYearStart(y);
    ClaimsOnConsecutive(NewYearEntries(y), Ordinal(y, 12, 31), d);
  }

  lemma HolyWeekClaimsOn(y: int, week: seq<Date>, d: Date)
    requires |week| > 0 && forall k :: 0 <= k < |week| ==> week[k] == week[0] + k
    ensures ClaimsOn(HolyWeekEntries(y, week), d)
            == if week[0] <= d < week[0] + |week|
               then [Claim(MajorFixed, HolyWeekGuardian(y), "Semana Santa/Páscoa")] else []
  {
    ClaimsOnConsecutive(HolyWeekEntries(y, week), week[0], d);
  }

  lemma CarnivalClaimsOn(y: int, carnival: Date, d: Date)
    ensures ClaimsOn(CarnivalEntries(y, carnival), d)
            == if carnival - 1 <= d <= carnival + 1
               then [Claim(MajorFixed, CarnivalGuardian(y), "Carnaval")] else []
  {
    ClaimsOnConsecutive(CarnivalEntries(y, carnival), carnival - 1, d);
  }

  lemma BirthdayClaimsOn(y: int, d: Date)
    ensures ClaimsOn(BirthdayEntries(y), d)
            == if d == Ordinal(y, 7, 6)
               then [Claim(MajorFixed, BirthdayGuardian(y), "Aniversário Letícia")] else []
  {
    ClaimsOnConsecutive(BirthdayEntries(y), Ordinal(y, 7, 6), d);
  }

  lemma ParentsDayClaimsOn(fathersDay: Date, mothersDay: Date, d: Date)
    ensures ClaimsOn(ParentsDayEntries(fathersDay, mothersDay), d)
            == (if d == fathersDay then [Claim(MajorFixed, Father, "Dia dos Pais")] else [])
               + (if d == mothersDay then [Claim(MajorFixed, Mother, "Dia das Mães")] else [])
  {
    var p := ParentsDayEntries(fathersDay, mothersDay);
    assert p == [p[0]] + [p[1]];
    ClaimsOnAppend([p[0]], [p[1]], d);
    ClaimsOnConsecutive([p[0]], fathersDay, d);
    ClaimsOnConsecutive([p[1]], mothersDay, d);
  }

  /** No fixed family day is in May or August. */
  lemma FixedDaysMonths()
    ensures forall k :: 0 <= k < |FixedDays| ==> FixedDays[k].month != 5 && FixedDays[k].month != 8
  {
  }

  /** A day of month `m` is not in a different month `mo` of the same year. */
  lemma OutsideMonth(y: int, m: int, dd: int, mo: int, x: Date)
    requires ValidDate(y, m, dd) && 1 <= mo <= 12 && m != mo
    requires Ordinal(y, mo, 1) <= x <= Ordinal(y, mo, DaysInMonth(y, mo))
    ensures Ordinal(y, m, dd) != x
  {
    if m < mo {
      OrdinalInOrderWithinYear(y, m, dd, mo, 1);
    } else {
      OrdinalInOrderWithinYear(y, mo, DaysInMonth(y, mo), m, dd);
    }
  }

  /** No fixed family day falls on the second Sunday of May or of August. */
  lemma FixedDaysAvoidParentsDays(y: int, mo: int, d: Date)
    requires mo == 5 || mo == 8
    requires Ordinal(y, mo, 8) <= d <= Ordinal(y, mo, 14)
    ensures ClaimsOn(FixedEntries(y), d) == []
  {
    var f := FixedEntries(y);
    FixedDaysValid(y);
    FixedDaysMonths();
    forall k | 0 <= k < |f|
      ensures f[k].date != d
    {
      OutsideMonth(y, FixedDays[k].month, FixedDays[k].day, mo, d);
    }
    ClaimsOnAbsent(f, d);
  }

  /** The two fixed birthdays that share a day with a major holiday. */
  lemma FixedEntriesOnHolidays(y: int)
    ensures Entry(Ordinal(y, 12, 25), Claim(MajorFixed, Mother, "Aniversário Tio Filipe")) in FixedEntries(y)
    ensures Entry(Ordinal(y, 12, 31), Claim(MajorFixed, Mother, "Aniversário Bisa Orquídea")) in FixedEntries(y)
  {
    FixedDaysValid(y);
    assert FixedEntries(y)[8] == Entry(Ordinal(y, 12, 25), Claim(MajorFixed, Mother, "Aniversário Tio Filipe"));
    assert FixedEntries(y)[7] == Entry(Ordinal(y, 12, 31), Claim(MajorFixed, Mother, "Aniversário Bisa Orquídea"));
  }

  // ---------------------------------------------------------------------
  // The first claim on the major days
  // ---------------------------------------------------------------------

  /** When the priority-0 part has a claim for `d`, the year's first claim
      for `d` is the first of them. */
  lemma FirstClaimIsMajor(y: int, yd: YearDates, d: Date)
    requires ClaimsOn(MajorEntries(y, yd), d) != []
    ensures ClaimsOn(EntriesFor(y, yd), d) != []
    ensures ClaimsOn(EntriesFor(y, yd), d)[0] == ClaimsOn(MajorEntries(y, yd), d)[0]
    ensures ClaimsOn(EntriesFor(y, yd), d)[0].priority == MajorFixed
  {
    EntriesForClaimsOn(y, yd, d);
    MajorEntriesPriority(y, yd);
    assert Entry(d, ClaimsOn(MajorEntries(y, yd), d)[0]) in MajorEntries(y, yd);
  }

  /** December 24 and 25: Natal is the first claim. */
  lemma ChristmasFirst(y: int, yd: YearDates, d: Date)
    requires d == Ordinal(y, 12, 24) || d == Ordinal(y, 12, 25)
    ensures ClaimsOn(MajorEntries(y, yd), d) != []
    ensures ClaimsOn(MajorEntries(y, yd), d)[0] == Claim(MajorFixed, ChristmasGuardian(y), "Natal")
  {
    assert ClaimsOn(ChristmasEntries(y), d) == [Claim(MajorFixed, ChristmasGuardian(y), "Natal")] by {
      ChristmasClaimsOn(y, d);
    }
    MajorClaimsOn(y, yd, d);
  }

  /** December 25 is also claimed, at the same priority, by a fixed birthday. */
  lemma ChristmasTie(y: int, yd: YearDates)
    ensures Claim(MajorFixed, Mother, "Aniversário Tio Filipe") in ClaimsOn(MajorEntries(y, yd), Ordinal(y, 12, 25))
  {
    var d := Ordinal(y, 12, 25);
    FixedEntriesOnHolidays(y);
    assert Claim(MajorFixed, Mother, "Aniversário Tio Filipe") in ClaimsOn(FixedEntries(y), d);
    MajorClaimsOn(y, yd, d);
  }

  /** December 31: Ano Novo is the first claim. */
  lemma NewYearsEveFirst(y: int, yd: YearDates)
    ensures ClaimsOn(MajorEntries(y, yd), Ordinal(y, 12, 31)) != []
    ensures ClaimsOn(MajorEntries(y, yd), Ordinal(y, 12, 31))[0]
            == Claim(MajorFixed, NewYearGuardian(y), "Ano Novo")
  {
    var d := Ordinal(y, 12, 31);
    assert ClaimsOn(ChristmasEntries(y), d) == [] by {
      ChristmasClaimsOn(y, d);
    }
    assert ClaimsOn(NewYearEntries(y), d) == [Claim(MajorFixed, NewYearGuardian(y), "Ano Novo")] by {
      NewYearClaimsOn(y, d);
    }
    MajorClaimsOn(y, yd, d);
  }

  /** December 31 is also claimed, at the same priority, by a fixed birthday. */
  lemma NewYearsEveTie(y: int, yd: YearDates)
    ensures Claim(MajorFixed, Mother, "Aniversário Bisa Orquídea") in ClaimsOn(MajorEntries(y, yd), Ordinal(y, 12, 31))
  {
    var d := Ordinal(y, 12, 31);
    FixedEntriesOnHolidays(y);
    assert Claim(MajorFixed, Mother, "Aniversário Bisa Orquídea") in ClaimsOn(FixedEntries(y), d);
    MajorClaimsOn(y, yd, d);
  }

  /** January 1 of the next year: Ano Novo is the first claim year `y`
      files for it. */
  lemma NewYearsDayFirst(y: int, yd: YearDates)
    ensures ClaimsOn(MajorEntries(y, yd), YearStart(y + 1)) != []
    ensures ClaimsOn(MajorEntries(y, yd), YearStart(y + 1))[0]
            == Claim(MajorFixed, NewYearGuardian(y), "Ano Novo")
  {
    var d := YearStart(y + 1);
    assert ClaimsOn(ChristmasEntries(y), d) == [] by {
      YearEndThenYearStart(y);
      ChristmasClaimsOn(y, d);
    }
    assert ClaimsOn(NewYearEntries(y), d) == [Claim(MajorFixed, NewYearGuardian(y), "Ano Novo")] by {
      YearEndThenYearStart(y);
      NewYearClaimsOn(y, d);
    }
    MajorClaimsOn(y, yd, d);
  }

  /** Nothing from Christmas or New Year falls on a day of year `y` before
      December 24. */
  lemma NoYearEndHolidayBefore(y: int, d: Date)
    requires YearStart(y) <= d < Ordinal(y, 12, 24)
    ensures ClaimsOn(ChristmasEntries(y), d) == [] && ClaimsOn(NewYearEntries(y), d) == []
  {
    ChristmasClaimsOn(y, d);
    NewYearClaimsOn(y, d);
  }

  /** Day `d` of year `y` comes after Holy Week and Carnival and before
      Christmas. */
  predicate AfterMovableFeasts(y: int, yd: YearDates, d: Date) {
    && YearStart(y) <= d < Ordinal(y, 12, 24)
    && |yd.holyWeek| == 8 && (forall k :: 0 <= k < 8 ==> yd.holyWeek[k] == yd.holyWeek[0] + k)
    && yd.holyWeek[0] + 8 <= d && yd.carnival + 1 < d
  }

  lemma NoEarlierFeast(y: int, yd: YearDates, d: Date)
    requires AfterMovableFeasts(y, yd, d)
    ensures ClaimsOn(ChristmasEntries(y), d) == [] && ClaimsOn(NewYearEntries(y), d) == []
    ensures ClaimsOn(HolyWeekEntries(y, yd.holyWeek), d) == []
    ensures ClaimsOn(CarnivalEntries(y, yd.carnival), d) == []
  {
    NoYearEndHolidayBefore(y, d);
    HolyWeekClaimsOn(y, yd.holyWeek, d);
    CarnivalClaimsOn(y, yd.carnival, d);
  }

  lemma HolyWeekWindow(y: int, yd: YearDates, k: int)
    requires DatesOk(y, yd) && 0 <= k < 8
    ensures YearStart(y) <= yd.holyWeek[k] < Ordinal(y, 12, 24)
  {
  }

  lemma HolyWeekFirstWithin(y: int, yd: YearDates, k: int)
    requires |yd.holyWeek| == 8 && forall j :: 0 <= j < 8 ==> yd.holyWeek[j] == yd.holyWeek[0] + j
    requires 0 <= k < 8 && YearStart(y) <= yd.holyWeek[k] < Ordinal(y, 12, 24)
    ensures ClaimsOn(MajorEntries(y, yd), yd.holyWeek[k]) != []
    ensures ClaimsOn(MajorEntries(y, yd), yd.holyWeek[k])[0]
            == Claim(MajorFixed, HolyWeekGuardian(y), "Semana Santa/Páscoa")
  {
    var d := yd.holyWeek[k];
    NoYearEndHolidayBefore(y, d);
    assert ClaimsOn(HolyWeekEntries(y, yd.holyWeek), d)
           == [Claim(MajorFixed, HolyWeekGuardian(y), "Semana Santa/Páscoa")] by {
      HolyWeekClaimsOn(y, yd.holyWeek, d);
    }
    MajorClaimsOn(y, yd, d);
  }

  /** Every day from Palm Sunday to Easter: the Holy Week claim is first. */
  lemma HolyWeekFirst(y: int, yd: YearDates, k: int)
    requires DatesOk(y, yd) && 0 <= k < 8
    ensures ClaimsOn(MajorEntries(y, yd), yd.holyWeek[k]) != []
    ensures ClaimsOn(MajorEntries(y, yd), yd.holyWeek[k])[0]
            == Claim(MajorFixed, HolyWeekGuardian(y), "Semana Santa/Páscoa")
  {
    HolyWeekWindow(y, yd, k);
    HolyWeekFirstWithin(y, yd, k);
  }

  /** The three Carnival days lie in February or March, before Holy Week. */
  lemma CarnivalWindow(y: int, yd: YearDates, d: Date)
    requires DatesOk(y, yd) && yd.carnival - 1 <= d <= yd.carnival + 1
    ensures YearStart(y) <= d < Ordinal(y, 12, 24) && d < yd.holyWeek[0]
  {
  }

  lemma CarnivalFirstWithin(y: int, yd: YearDates, d: Date)
    requires yd.carnival - 1 <= d <= yd.carnival + 1
    requires YearStart(y) <= d < Ordinal(y, 12, 24)
    requires |yd.holyWeek| > 0 && forall k :: 0 <= k < |yd.holyWeek| ==> yd.holyWeek[k] == yd.holyWeek[0] + k
    requires d < yd.holyWeek[0]
    ensures ClaimsOn(MajorEntries(y, yd), d) != []
    ensures ClaimsOn(MajorEntries(y, yd), d)[0] == Claim(MajorFixed, CarnivalGuardian(y), "Carnaval")
  {
    NoYearEndHolidayBefore(y, d);
    assert ClaimsOn(HolyWeekEntries(y, yd.holyWeek), d) == [] by {
      HolyWeekClaimsOn(y, yd.holyWeek, d);
    }
    assert ClaimsOn(CarnivalEntries(y, yd.carnival), d) == [Claim(MajorFixed, CarnivalGuardian(y), "Carnaval")] by {
      CarnivalClaimsOn(y, yd.carnival, d);
    }
    MajorClaimsOn(y, yd, d);
  }

  /** The three Carnival days: the Carnival claim is first. */
  lemma CarnivalFirst(y: int, yd: YearDates, d: Date)
    requires DatesOk(y, yd) && yd.carnival - 1 <= d <= yd.carnival + 1
    ensures ClaimsOn(MajorEntries(y, yd), d) != []
    ensures ClaimsOn(MajorEntries(y, yd), d)[0] == Claim(MajorFixed, CarnivalGuardian(y), "Carnaval")
  {
    CarnivalWindow(y, yd, d);
    CarnivalFirstWithin(y, yd, d);
  }

  lemma BirthdayWindow(y: int, yd: YearDates)
    requires DatesOk(y, yd)
    ensures AfterMovableFeasts(y, yd, Ordinal(y, 7, 6))
  {
  }

  lemma BirthdayFirstWithin(y: int, yd: YearDates)
    requires AfterMovableFeasts(y, yd, Ordinal(y, 7, 6))
    ensures ClaimsOn(MajorEntries(y, yd), Ordinal(y, 7, 6)) != []
    ensures ClaimsOn(MajorEntries(y, yd), Ordinal(y, 7, 6))[0]
            == Claim(MajorFixed, BirthdayGuardian(y), "Aniversário Letícia")
  {
    var d := Ordinal(y, 7, 6);
    NoEarlierFeast(y, yd, d);
    assert ClaimsOn(BirthdayEntries(y), d) == [Claim(MajorFixed, BirthdayGuardian(y), "Aniversário Letícia")] by {
      BirthdayClaimsOn(y, d);
    }
    MajorClaimsOn(y, yd, d);
  }

  /** July 6: the birthday claim is first, inside the mid-year break. */
  lemma BirthdayFirst(y: int, yd: YearDates)
    requires DatesOk(y, yd)
    ensures ClaimsOn(MajorEntries(y, yd), Ordinal(y, 7, 6)) != []
    ensures ClaimsOn(MajorEntries(y, yd), Ordinal(y, 7, 6))[0]
            == Claim(MajorFixed, BirthdayGuardian(y), "Aniversário Letícia")
  {
    BirthdayWindow(y, yd);
    BirthdayFirstWithin(y, yd);
  }

  lemma ParentsDaysWindow(y: int, yd: YearDates)
    requires DatesOk(y, yd)
    ensures AfterMovableFeasts(y, yd, yd.fathersDay) && AfterMovableFeasts(y, yd, yd.mothersDay)
    ensures yd.fathersDay != Ordinal(y, 7, 6) && yd.mothersDay != Ordinal(y, 7, 6)
    ensures yd.fathersDay != yd.mothersDay
  {
  }

  lemma FathersDayFirstWithin(y: int, yd: YearDates)
    requires AfterMovableFeasts(y, yd, yd.fathersDay) && yd.fathersDay != Ordinal(y, 7, 6)
    requires Ordinal(y, 8, 8) <= yd.fathersDay <= Ordinal(y, 8, 14)
    ensures ClaimsOn(MajorEntries(y, yd), yd.fathersDay) != []
    ensures ClaimsOn(MajorEntries(y, yd), yd.fathersDay)[0] == Claim(MajorFixed, Father, "Dia dos Pais")
  {
    var d := yd.fathersDay;
    NoEarlierFeast(y, yd, d);
    BirthdayClaimsOn(y, d);
    FixedDaysAvoidParentsDays(y, 8, d);
    ParentsDayClaimsOn(yd.fathersDay, yd.mothersDay, d);
    MajorClaimsOn(y, yd, d);
  }

  /** The second Sunday of August: the father's claim is first. */
  lemma FathersDayFirst(y: int, yd: YearDates)
    requires DatesOk(y, yd)
    ensures ClaimsOn(MajorEntries(y, yd), yd.fathersDay) != []
    ensures ClaimsOn(MajorEntries(y, yd), yd.fathersDay)[0] == Claim(MajorFixed, Father, "Dia dos Pais")
  {
    ParentsDaysWindow(y, yd);
    FathersDayFirstWithin(y, yd);
  }

  lemma MothersDayFirstWithin(y: int, yd: YearDates)
    requires AfterMovableFeasts(y, yd, yd.mothersDay) && yd.mothersDay != Ordinal(y, 7, 6)
    requires Ordinal(y, 5, 8) <= yd.mothersDay <= Ordinal(y, 5, 14) && yd.fathersDay != yd.mothersDay
    ensures ClaimsOn(MajorEntries(y, yd), yd.mothersDay) != []
    ensures ClaimsOn(MajorEntries(y, yd), yd.mothersDay)[0] == Claim(MajorFixed, Mother, "Dia das Mães")
  {
    var d := yd.mothersDay;
    NoEarlierFeast(y, yd, d);
    BirthdayClaimsOn(y, d);
    FixedDaysAvoidParentsDays(y, 5, d);
    ParentsDayClaimsOn(yd.fathersDay, yd.mothersDay, d);
    MajorClaimsOn(y, yd, d);
  }

  /** The second Sunday of May: the mother's claim is first. */
  lemma MothersDayFirst(y: int, yd: YearDates)
    requires DatesOk(y, yd)
    ensures ClaimsOn(MajorEntries(y, yd), yd.mothersDay) != []
    ensures ClaimsOn(MajorEntries(y, yd), yd.mothersDay)[0] == Claim(MajorFixed, Mother, "Dia das Mães")
  {
    ParentsDaysWindow(y, yd);
    MothersDayFirstWithin(y, yd);
  }

  // ---------------------------------------------------------------------
  // The same, for the dates the rules compute for year `y`
  // ---------------------------------------------------------------------

  lemma HolyWeekFirstOf(y: int, j: int)
    requires 0 <= j < 8
    ensures FirstClaimIs(ClaimsOn(MajorEntries(y, DatesOf(y)), HolyWeek(y)[j]),
                         Claim(MajorFixed, HolyWeekGuardian(y), "Semana Santa/Páscoa"))
  {
    DatesOfOk(y);
    HolyWeekFirst(y, DatesOf(y), j);
  }

  lemma CarnivalFirstOf(y: int, d: Date)
    requires Carnival(y) - 1 <= d <= Carnival(y) + 1
    ensures FirstClaimIs(ClaimsOn(MajorEntries(y, DatesOf(y)), d),
                         Claim(MajorFixed, CarnivalGuardian(y), "Carnaval"))
  {
    DatesOfOk(y);
    CarnivalFirst(y, DatesOf(y), d);
  }

  lemma BirthdayFirstOf(y: int)
    ensures FirstClaimIs(ClaimsOn(MajorEntries(y, DatesOf(y)), Ordinal(y, 7, 6)),
                         Claim(MajorFixed, BirthdayGuardian(y), "Aniversário Letícia"))
  {
    DatesOfOk(y);
    BirthdayFirst(y, DatesOf(y));
  }

  lemma FathersDayFirstOf(y: int)
    ensures FirstClaimIs(ClaimsOn(MajorEntries(y, DatesOf(y)), FathersDay(y)),
                         Claim(MajorFixed, Father, "Dia dos Pais"))
  {
    DatesOfOk(y);
    FathersDayFirst(y, DatesOf(y));
  }

  lemma MothersDayFirstOf(y: int)
    ensures FirstClaimIs(ClaimsOn(MajorEntries(y, DatesOf(y)), MothersDay(y)),
                         Claim(MajorFixed, Mother, "Dia das Mães"))
  {
    DatesOfOk(y);
    MothersDayFirst(y, DatesOf(y));
  }
}
