/** The whole run, `gerar_calendario(ano_inicio, ano_fim)` without its ics
    output: which record every day of the range gets, and what that record
    is on the days the custody arrangement singles out. */
module Custody {
  import opened Calendar
  import opened DateRules
  import opened Outcomes
  import opened Claims
  import opened Store
  import opened Resolver
  import opened ClaimFacts
  import opened Years
  import opened DayFacts
  import opened BreakFacts

  /** `gerar_calendario(y0, y1)`: the records of the days from January 1
      of `y0` to December 31 of `y1`, or the error `datetime` raises.  Each
      day of the range gets the record its claims, from every year of the
      loop, resolve to; no other day gets one. */
  function Generate(y0: int, y1: int): (r: Result<seq<Record>, GenError>)
    ensures r.Err? <==> !YearsInRange(y0, y1)
    ensures r.Ok? ==> Ascending(r.value)
    ensures r.Ok? ==> forall x :: RecordOn(r.value, x)
                        == if YearStart(y0) <= x <= YearEnd(y1)
                           then Expected(x, ClaimsOn(AllEntries(YearEntries, y0, y1), x))
                           else None
  {
    YearsSupportedIff(y0, y1);
    GenerateWith(YearEntries, y0, y1)
  }

  // ---------------------------------------------------------------------
  // Which years claim a day
  // ---------------------------------------------------------------------

  /** A year's claims run from its January 1 to January 21 of the next
      year, and are all recorded when they win. */
  lemma YearEntriesSpan(y: int)
    ensures YearSpills(YearEntries, YearStart, y)
    ensures Recordable(YearEntries(y))
  {
    YearEndThenYearStart(y);
    YearEntriesWithin(y);
  }

  lemma AllYearsSpill(y0: int, y1: int)
    ensures Spills(YearEntries, YearStart, y0, y1)
  {
    forall k | y0 <= k <= y1 {
      YearEntriesSpan(k);
    }
  }

  /** The claims day `d` of year `k` collects in a run starting at `y0`:
      in its first three weeks those of year `k - 1` (when `y0 < k`), then
      those of year `k`. */
  function DayClaims(y0: int, k: int, d: Date): seq<Claim> {
    CarriedOver(YearEntries, YearStart, y0, k, d) + ClaimsOn(YearEntries(k), d)
  }

  /** A day of year `k` lies in the range of a run over `y0 .. y1`. */
  lemma DayInRange(y0: int, y1: int, k: int, d: Date)
    requires y0 <= k <= y1 && InYear(d, k)
    ensures YearStart(y0) <= d <= YearEnd(y1)
  {
    if y0 < k {
      YearsInOrder(y0, k);
    }
    if k < y1 {
      YearsInOrder(k, y1);
    }
  }

  /** In a run over years that spill at most three weeks, each day of
      year `k` is resolved from the claims of year `k` and those carried
      over from the year before. */
  lemma DayOfRun(entriesOf: int -> seq<Entry>, y0: int, y1: int, k: int, d: Date)
    requires YearsInRange(y0, y1) && y0 <= k <= y1 && InYear(d, k)
    requires Spills(entriesOf, YearStart, y0, y1)
    ensures GenerateWith(entriesOf, y0, y1).Ok?
    ensures RecordOn(GenerateWith(entriesOf, y0, y1).value, d)
            == Expected(d, CarriedOver(entriesOf, YearStart, y0, k, d) + ClaimsOn(entriesOf(k), d))
  {
    YearsSupportedIff(y0, y1);
    DayInRange(y0, y1, k, d);
    YearEndThenYearStart(k);
    ClaimsOfDay(entriesOf, YearStart, y0, y1, k, d);
  }

  /** Every day of the range gets the record its own claims call for: the
      fold over years and the day loop together resolve day `d` of year `k`
      from exactly the claims of year `k` and, early in January, of the
      year before. */
  lemma RecordOfDay(y0: int, y1: int, k: int, d: Date)
    requires YearsInRange(y0, y1) && y0 <= k <= y1 && InYear(d, k)
    ensures Generate(y0, y1).Ok?
    ensures RecordOn(Generate(y0, y1).value, d) == Expected(d, DayClaims(y0, k, d))
  {
    RecordOfDayWith(y0, y1, k, d);
  }

  /** `RecordOfDay`, stated of the run over `YearEntries`. */
  lemma RecordOfDayWith(y0: int, y1: int, k: int, d: Date)
    requires YearsInRange(y0, y1) && y0 <= k <= y1 && InYear(d, k)
    ensures GenerateWith(YearEntries, y0, y1).Ok?
    ensures RecordOn(GenerateWith(YearEntries, y0, y1).value, d) == Expected(d, DayClaims(y0, k, d))
  {
    AllYearsSpill(y0, y1);
    DayOfRun(YearEntries, y0, y1, k, d);
  }

  /** In a run whose years file only recordable claims, so is every
      claim collected under a day. */
  lemma RunDayRecordable(entriesOf: int -> seq<Entry>, y0: int, k: int, d: Date)
    requires Recordable(entriesOf(k)) && Recordable(entriesOf(k - 1))
    ensures AllRecorded(CarriedOver(entriesOf, YearStart, y0, k, d) + ClaimsOn(entriesOf(k), d))
  {
  }

  /** Every claim collected under a day is of priority 3 or stronger. */
  lemma DayClaimsRecordable(y0: int, k: int, d: Date)
    ensures AllRecorded(DayClaims(y0, k, d))
  {
    YearEntriesSpan(k);
    YearEntriesSpan(k - 1);
    RunDayRecordable(YearEntries, y0, k, d);
  }

  /** A day of the range gets a record exactly when some year claims it,
      and the record carries the strongest priority claimed for it. */
  lemma RecordIffClaimed(y0: int, y1: int, k: int, d: Date)
    requires YearsInRange(y0, y1) && y0 <= k <= y1 && InYear(d, k)
    ensures Generate(y0, y1).Ok?
    ensures RecordOn(Generate(y0, y1).value, d).Some? <==> DayClaims(y0, k, d) != []
    ensures RecordOn(Generate(y0, y1).value, d).Some? ==>
              RecordOn(Generate(y0, y1).value, d).value.date == d
              && RecordOn(Generate(y0, y1).value, d).value.priority == MinPriority(DayClaims(y0, k, d))
  {
    RecordIffClaimedWith(y0, y1, k, d);
  }

  /** `RecordIffClaimed`, stated of the run over `YearEntries`. */
  lemma RecordIffClaimedWith(y0: int, y1: int, k: int, d: Date)
    requires YearsInRange(y0, y1) && y0 <= k <= y1 && InYear(d, k)
    ensures GenerateWith(YearEntries, y0, y1).Ok?
    ensures RecordOn(GenerateWith(YearEntries, y0, y1).value, d).Some? <==> DayClaims(y0, k, d) != []
    ensures RecordOn(GenerateWith(YearEntries, y0, y1).value, d).Some? ==>
              RecordOn(GenerateWith(YearEntries, y0, y1).value, d).value.date == d
              && RecordOn(GenerateWith(YearEntries, y0, y1).value, d).value.priority == MinPriority(DayClaims(y0, k, d))
  {
    RecordOfDayWith(y0, y1, k, d);
    DayClaimsRecordable(y0, k, d);
    ExpectedIffClaimed(d, DayClaims(y0, k, d));
  }

  /** No record falls outside the range of years. */
  lemma NoRecordOutside(y0: int, y1: int, d: Date)
    requires YearsInRange(y0, y1) && (d < YearStart(y0) || YearEnd(y1) < d)
    ensures Generate(y0, y1).Ok?
    ensures RecordOn(Generate(y0, y1).value, d) == None
  {
  }

  // ---------------------------------------------------------------------
  // The winning claim of a day
  // ---------------------------------------------------------------------

  /** When the first claim filed under a day is not beaten by any later
      one, the day's record is that claim. */
  lemma FirstClaimRecords(y0: int, y1: int, k: int, d: Date)
    requires YearsInRange(y0, y1) && y0 <= k <= y1 && InYear(d, k)
    requires FirstUnbeaten(DayClaims(y0, k, d))
    ensures Generate(y0, y1).Ok?
    ensures RecordOn(Generate(y0, y1).value, d)
            == Some(Record(d, DayClaims(y0, k, d)[0].guardian, DayClaims(y0, k, d)[0].reason,
                           DayClaims(y0, k, d)[0].priority))
  {
    RecordOfDay(y0, y1, k, d);
    DayClaimsRecordable(y0, k, d);
    FirstStrongestWins(DayClaims(y0, k, d));
  }

  /** Past the first three weeks of year `k`, a day whose first claim
      from year `k` is unbeaten gets that claim. */
  lemma OwnFirstClaimRecords(entriesOf: int -> seq<Entry>, y0: int, y1: int, k: int, d: Date)
    requires YearsInRange(y0, y1) && y0 <= k <= y1 && InYear(d, k) && YearStart(k) + 21 <= d
    requires Spills(entriesOf, YearStart, y0, y1)
    requires FirstUnbeaten(ClaimsOn(entriesOf(k), d)) && ClaimsOn(entriesOf(k), d)[0].priority <= Weekend
    ensures GenerateWith(entriesOf, y0, y1).Ok?
    ensures RecordOn(GenerateWith(entriesOf, y0, y1).value, d)
            == Some(Record(d, ClaimsOn(entriesOf(k), d)[0].guardian, ClaimsOn(entriesOf(k), d)[0].reason,
                           ClaimsOn(entriesOf(k), d)[0].priority))
  {
    var cs := ClaimsOn(entriesOf(k), d);
    DayOfRun(entriesOf, y0, y1, k, d);
    assert CarriedOver(entriesOf, YearStart, y0, k, d) + cs == cs;
    FirstStrongestWins(cs);
  }

  /** Past the first three weeks of year `k`, a day whose first claim
      from year `k` is of priority 0 gets that claim. */
  lemma OwnMajorClaimRecords(entriesOf: int -> seq<Entry>, y0: int, y1: int, k: int, d: Date)
    requires YearsInRange(y0, y1) && y0 <= k <= y1 && InYear(d, k) && YearStart(k) + 21 <= d
    requires Spills(entriesOf, YearStart, y0, y1)
    requires ClaimsOn(entriesOf(k), d) != [] && ClaimsOn(entriesOf(k), d)[0].priority == MajorFixed
    ensures GenerateWith(entriesOf, y0, y1).Ok?
    ensures RecordOn(GenerateWith(entriesOf, y0, y1).value, d)
            == Some(Record(d, ClaimsOn(entriesOf(k), d)[0].guardian, ClaimsOn(entriesOf(k), d)[0].reason, MajorFixed))
  {
    var cs := ClaimsOn(entriesOf(k), d);
    DayOfRun(entriesOf, y0, y1, k, d);
    assert CarriedOver(entriesOf, YearStart, y0, k, d) + cs == cs;
    FirstStrongestWins(cs);
  }

  /** Past the first three weeks of year `k`, a day with a priority-0 claim
      gets the first such claim year `k` files for it. */
  lemma MajorClaimRecords(y0: int, y1: int, k: int, d: Date, c: Claim)
    requires YearsInRange(y0, y1) && y0 <= k <= y1 && InYear(d, k) && YearStart(k) + 21 <= d
    requires FirstClaimIs(ClaimsOn(MajorEntries(k, DatesOf(k)), d), c)
    ensures Generate(y0, y1).Ok?
    ensures RecordOn(Generate(y0, y1).value, d) == Some(Record(d, c.guardian, c.reason, MajorFixed))
  {
    MajorClaimRecordsWith(y0, y1, k, d, c);
  }

  /** `MajorClaimRecords`, stated of the run over `YearEntries`. */
  lemma MajorClaimRecordsWith(y0: int, y1: int, k: int, d: Date, c: Claim)
    requires YearsInRange(y0, y1) && y0 <= k <= y1 && InYear(d, k) && YearStart(k) + 21 <= d
    requires FirstClaimIs(ClaimsOn(MajorEntries(k, DatesOf(k)), d), c)
    ensures GenerateWith(YearEntries, y0, y1).Ok?
    ensures RecordOn(GenerateWith(YearEntries, y0, y1).value, d) == Some(Record(d, c.guardian, c.reason, MajorFixed))
  {
    AllYearsSpill(y0, y1);
    FirstClaimIsMajor(k, DatesOf(k), d);
    OwnMajorClaimRecords(YearEntries, y0, y1, k, d);
  }

  // ---------------------------------------------------------------------
  // The days the arrangement names
  // ---------------------------------------------------------------------

  /** A day between two dates of year `y`, the first from January 22 on,
      lies in year `y`, past the days the previous year's break may still
      claim. */
  lemma PastCarryOver(y: int, d: Date, m1: int, d1: int, m2: int, d2: int)
    requires ValidDate(y, m1, d1) && ValidDate(y, m2, d2) && (m1 > 1 || 22 <= d1)
    requires Ordinal(y, m1, d1) <= d <= Ordinal(y, m2, d2)
    ensures InYear(d, y) && YearStart(y) + 21 <= d
  {
    OrdinalWithinYear(y, m2, d2);
    if m1 > 1 {
      OrdinalInOrderWithinYear(y, 1, 22, m1, d1);
    }
  }

  /** December 24 and 25 go to the parent whose turn it is for Natal,
      although December 25 is also a fixed birthday of the other side. */
  lemma ChristmasRecord(y0: int, y1: int, k: int, d: Date)
    requires YearsInRange(y0, y1) && y0 <= k <= y1
    requires d == Ordinal(k, 12, 24) || d == Ordinal(k, 12, 25)
    ensures Generate(y0, y1).Ok?
    ensures RecordOn(Generate(y0, y1).value, d) == Some(Record(d, ChristmasGuardian(k), "Natal", MajorFixed))
  {
    PastCarryOver(k, d, 12, 24, 12, 25);
    ChristmasFirst(k, DatesOf(k), d);
    MajorClaimRecords(y0, y1, k, d, Claim(MajorFixed, ChristmasGuardian(k), "Natal"));
  }

  /** December 31 goes to the parent whose turn it is for Ano Novo,
      although it is also a fixed birthday of the mother's side. */
  lemma NewYearsEveRecord(y0: int, y1: int, k: int)
    requires YearsInRange(y0, y1) && y0 <= k <= y1
    ensures Generate(y0, y1).Ok?
    ensures RecordOn(Generate(y0, y1).value, YearEnd(k))
            == Some(Record(YearEnd(k), NewYearGuardian(k), "Ano Novo", MajorFixed))
  {
    PastCarryOver(k, YearEnd(k), 12, 31, 12, 31);
    NewYearsEveFirst(k, DatesOf(k));
    MajorClaimRecords(y0, y1, k, YearEnd(k), Claim(MajorFixed, NewYearGuardian(k), "Ano Novo"));
  }

  /** Every day from Palm Sunday to Easter Sunday goes to the parent whose
      turn it is for Semana Santa. */
  lemma HolyWeekRecord(y0: int, y1: int, k: int, j: int)
    requires YearsInRange(y0, y1) && y0 <= k <= y1 && 0 <= j < 8
    ensures Generate(y0, y1).Ok?
    ensures RecordOn(Generate(y0, y1).value, HolyWeek(k)[j])
            == Some(Record(HolyWeek(k)[j], HolyWeekGuardian(k), "Semana Santa/Páscoa", MajorFixed))
  {
    PastCarryOver(k, HolyWeek(k)[j], 3, 15, 4, 25);
    HolyWeekFirstOf(k, j);
    MajorClaimRecords(y0, y1, k, HolyWeek(k)[j], Claim(MajorFixed, HolyWeekGuardian(k), "Semana Santa/Páscoa"));
  }

  /** Carnival Monday, Tuesday and Ash Wednesday go to the parent whose turn
      it is for Carnaval. */
  lemma CarnivalRecord(y0: int, y1: int, k: int, d: Date)
    requires YearsInRange(y0, y1) && y0 <= k <= y1
    requires Carnival(k) - 1 <= d <= Carnival(k) + 1
    ensures Generate(y0, y1).Ok?
    ensures RecordOn(Generate(y0, y1).value, d) == Some(Record(d, CarnivalGuardian(k), "Carnaval", MajorFixed))
  {
    PastCarryOver(k, d, 2, 2, 3, 10);
    CarnivalFirstOf(k, d);
    MajorClaimRecords(y0, y1, k, d, Claim(MajorFixed, CarnivalGuardian(k), "Carnaval"));
  }

  /** July 6 goes to the parent whose turn it is for the birthday, inside
      the mid-year break. */
  lemma BirthdayRecord(y0: int, y1: int, k: int)
    requires YearsInRange(y0, y1) && y0 <= k <= y1
    ensures Generate(y0, y1).Ok?
    ensures RecordOn(Generate(y0, y1).value, Ordinal(k, 7, 6))
            == Some(Record(Ordinal(k, 7, 6), BirthdayGuardian(k), "Aniversário Letícia", MajorFixed))
  {
    PastCarryOver(k, Ordinal(k, 7, 6), 7, 6, 7, 6);
    BirthdayFirstOf(k);
    MajorClaimRecords(y0, y1, k, Ordinal(k, 7, 6), Claim(MajorFixed, BirthdayGuardian(k), "Aniversário Letícia"));
  }

  /** Father's Day always goes to the father. */
  lemma FathersDayRecord(y0: int, y1: int, k: int)
    requires YearsInRange(y0, y1) && y0 <= k <= y1
    ensures Generate(y0, y1).Ok?
    ensures RecordOn(Generate(y0, y1).value, FathersDay(k))
            == Some(Record(FathersDay(k), Father, "Dia dos Pais", MajorFixed))
  {
    PastCarryOver(k, FathersDay(k), 8, 8, 8, 14);
    FathersDayFirstOf(k);
    MajorClaimRecords(y0, y1, k, FathersDay(k), Claim(MajorFixed, Father, "Dia dos Pais"));
  }

  /** Mother's Day always goes to the mother. */
  lemma MothersDayRecord(y0: int, y1: int, k: int)
    requires YearsInRange(y0, y1) && y0 <= k <= y1
    ensures Generate(y0, y1).Ok?
    ensures RecordOn(Generate(y0, y1).value, MothersDay(k))
            == Some(Record(MothersDay(k), Mother, "Dia das Mães", MajorFixed))
  {
    PastCarryOver(k, MothersDay(k), 5, 8, 5, 14);
    MothersDayFirstOf(k);
    MajorClaimRecords(y0, y1, k, MothersDay(k), Claim(MajorFixed, Mother, "Dia das Mães"));
  }

  // ---------------------------------------------------------------------
  // January 1
  // ---------------------------------------------------------------------

  /** What year `y` files for its own January 1. */
  lemma FirstDayClaims(y: int)
    ensures ClaimsOn(YearEntries(y), YearStart(y))
            == if OddYear(y) && Weekday(YearStart(y)) == Friday
               then [Claim(Weekend, Father, WeekendReason)] else []
  {
    DatesOfOk(y);
    FirstDayClaimsOf(y, DatesOf(y));
  }

  /** January 1 of the first year gets no Ano Novo record: the claim for it
      belongs to the year before, which the run does not build.  It gets a
      record only when it opens the father's first weekend of an odd year. */
  lemma FirstYearNewYearsDay(y0: int, y1: int)
    requires YearsInRange(y0, y1) && y0 <= y1
    ensures Generate(y0, y1).Ok?
    ensures RecordOn(Generate(y0, y1).value, YearStart(y0))
            == if OddYear(y0) && Weekday(YearStart(y0)) == Friday
               then Some(Record(YearStart(y0), Father, WeekendReason, Weekend)) else None
  {
    FirstYearNewYearsDayWith(y0, y1);
  }

  /** `FirstYearNewYearsDay`, stated of the run over `YearEntries`. */
  lemma FirstYearNewYearsDayWith(y0: int, y1: int)
    requires YearsInRange(y0, y1) && y0 <= y1
    ensures GenerateWith(YearEntries, y0, y1).Ok?
    ensures RecordOn(GenerateWith(YearEntries, y0, y1).value, YearStart(y0))
            == if OddYear(y0) && Weekday(YearStart(y0)) == Friday
               then Some(Record(YearStart(y0), Father, WeekendReason, Weekend)) else None
  {
    var d := YearStart(y0);
    OrdinalWithinYear(y0, 1, 1);
    RecordOfDayWith(y0, y1, y0, d);
    FirstDayClaims(y0);
    assert DayClaims(y0, y0, d) == ClaimsOn(YearEntries(y0), d);
    if OddYear(y0) && Weekday(d) == Friday {
      FirstStrongestWins([Claim(Weekend, Father, WeekendReason)]);
    }
  }

  /** In the first three weeks of year `j + 1`, a day whose first claim
      from year `j` is of priority 0 gets that claim. */
  lemma CarriedMajorClaimRecords(entriesOf: int -> seq<Entry>, y0: int, y1: int, j: int, d: Date)
    requires YearsInRange(y0, y1) && y0 <= j < y1 && YearStart(j + 1) <= d <= YearStart(j + 1) + 20
    requires Spills(entriesOf, YearStart, y0, y1)
    requires ClaimsOn(entriesOf(j), d) != [] && ClaimsOn(entriesOf(j), d)[0].priority == MajorFixed
    ensures GenerateWith(entriesOf, y0, y1).Ok?
    ensures RecordOn(GenerateWith(entriesOf, y0, y1).value, d)
            == Some(Record(d, ClaimsOn(entriesOf(j), d)[0].guardian,
                           ClaimsOn(entriesOf(j), d)[0].reason, MajorFixed))
  {
    var cs := ClaimsOn(entriesOf(j), d) + ClaimsOn(entriesOf(j + 1), d);
    YearEndThenYearStart(j + 1);
    DayOfRun(entriesOf, y0, y1, j + 1, d);
    assert CarriedOver(entriesOf, YearStart, y0, j + 1, d) + ClaimsOn(entriesOf(j + 1), d) == cs;
    FirstStrongestWins(cs);
  }

  /** In the first three weeks of year `j + 1`, a day whose first claim,
      counting those year `j` files first, is unbeaten gets that claim. */
  lemma CarriedFirstClaimRecords(entriesOf: int -> seq<Entry>, y0: int, y1: int, j: int, d: Date)
    requires YearsInRange(y0, y1) && y0 <= j < y1 && YearStart(j + 1) <= d <= YearStart(j + 1) + 20
    requires Spills(entriesOf, YearStart, y0, y1)
    requires FirstUnbeaten(ClaimsOn(entriesOf(j), d) + ClaimsOn(entriesOf(j + 1), d))
    requires (ClaimsOn(entriesOf(j), d) + ClaimsOn(entriesOf(j + 1), d))[0].priority <= Weekend
    ensures GenerateWith(entriesOf, y0, y1).Ok?
    ensures RecordOn(GenerateWith(entriesOf, y0, y1).value, d)
            == Some(Record(d, (ClaimsOn(entriesOf(j), d) + ClaimsOn(entriesOf(j + 1), d))[0].guardian,
                           (ClaimsOn(entriesOf(j), d) + ClaimsOn(entriesOf(j + 1), d))[0].reason,
                           (ClaimsOn(entriesOf(j), d) + ClaimsOn(entriesOf(j + 1), d))[0].priority))
  {
    var cs := ClaimsOn(entriesOf(j), d) + ClaimsOn(entriesOf(j + 1), d);
    YearEndThenYearStart(j + 1);
    DayOfRun(entriesOf, y0, y1, j + 1, d);
    assert CarriedOver(entriesOf, YearStart, y0, j + 1, d) + ClaimsOn(entriesOf(j + 1), d) == cs;
    FirstStrongestWins(cs);
  }

  /** A day whose own year's first claim is unbeaten there and stronger
      than anything the year before carries over gets that claim. */
  lemma OwnClaimOverCarried(entriesOf: int -> seq<Entry>, y0: int, y1: int, k: int, d: Date)
    requires YearsInRange(y0, y1) && y0 <= k <= y1 && InYear(d, k)
    requires Spills(entriesOf, YearStart, y0, y1)
    requires FirstUnbeaten(ClaimsOn(entriesOf(k), d)) && ClaimsOn(entriesOf(k), d)[0].priority <= Weekend
    requires ClaimsOn(entriesOf(k), d)[0].priority == MajorFixed
    requires NoneStronger(CarriedOver(entriesOf, YearStart, y0, k, d), VacationBlock)
    ensures GenerateWith(entriesOf, y0, y1).Ok?
    ensures RecordOn(GenerateWith(entriesOf, y0, y1).value, d)
            == Some(Record(d, ClaimsOn(entriesOf(k), d)[0].guardian, ClaimsOn(entriesOf(k), d)[0].reason,
                           ClaimsOn(entriesOf(k), d)[0].priority))
  {
    DayOfRun(entriesOf, y0, y1, k, d);
    WeakerClaimsFirst(CarriedOver(entriesOf, YearStart, y0, k, d), ClaimsOn(entriesOf(k), d));
  }

  /** Ano Novo is the first claim year `k` files for January 1 of the
      next year. */
  lemma NewYearsDayClaim(k: int)
    ensures ClaimsOn(YearEntries(k), YearStart(k + 1)) != []
    ensures ClaimsOn(YearEntries(k), YearStart(k + 1))[0] == Claim(MajorFixed, NewYearGuardian(k), "Ano Novo")
  {
    var yd := DatesOf(k);
    NewYearsDayFirst(k, yd);
    FirstClaimIsMajor(k, yd, YearStart(k + 1));
  }

  /** January 1 of every later year goes to the parent who had Ano Novo
      in the year before. */
  lemma NewYearsDayRecord(y0: int, y1: int, k: int)
    requires YearsInRange(y0, y1) && y0 <= k < y1
    ensures Generate(y0, y1).Ok?
    ensures RecordOn(Generate(y0, y1).value, YearStart(k + 1))
            == Some(Record(YearStart(k + 1), NewYearGuardian(k), "Ano Novo", MajorFixed))
  {
    NewYearsDayRecordWith(y0, y1, k);
  }

  /** `NewYearsDayRecord`, stated of the run over `YearEntries`. */
  lemma NewYearsDayRecordWith(y0: int, y1: int, k: int)
    requires YearsInRange(y0, y1) && y0 <= k < y1
    ensures GenerateWith(YearEntries, y0, y1).Ok?
    ensures RecordOn(GenerateWith(YearEntries, y0, y1).value, YearStart(k + 1))
            == Some(Record(YearStart(k + 1), NewYearGuardian(k), "Ano Novo", MajorFixed))
  {
    NewYearsDayClaim(k);
    AllYearsSpill(y0, y1);
    CarriedMajorClaimRecords(YearEntries, y0, y1, k, YearStart(k + 1));
  }

  // ---------------------------------------------------------------------
  // The school breaks
  // ---------------------------------------------------------------------

  /** On a day of the mid-year break but July 6, the break's claim comes
      first and nothing beats it. */
  lemma MidYearClaimUnbeaten(k: int, d: Date)
    requires MidYearBreak(k).0 <= d <= MidYearBreak(k).1 && d != Ordinal(k, 7, 6)
    ensures FirstUnbeaten(ClaimsOn(YearEntries(k), d))
    ensures ClaimsOn(YearEntries(k), d)[0]
            == Claim(VacationBlock, MidYearHolder(k, d - MidYearBreak(k).0), MidYearReason)
  {
    MidYearDayClaims(k, d);
    WeekendClaimsWeakest(k, d);
    HeadUnbeaten(Claim(VacationBlock, MidYearHolder(k, d - MidYearBreak(k).0), MidYearReason),
                 ClaimsOn(WeekendEntries(k), d));
  }

  /** Every day of the mid-year break but July 6 goes to the holder of the
      5-10-5-10 split, whatever weekend it falls on. */
  lemma MidYearRecord(y0: int, y1: int, k: int, d: Date)
    requires YearsInRange(y0, y1) && y0 <= k <= y1
    requires MidYearBreak(k).0 <= d <= MidYearBreak(k).1 && d != Ordinal(k, 7, 6)
    ensures Generate(y0, y1).Ok?
    ensures RecordOn(Generate(y0, y1).value, d)
            == Some(Record(d, MidYearHolder(k, d - MidYearBreak(k).0), MidYearReason, VacationBlock))
  {
    MidYearRecordWith(y0, y1, k, d);
  }

  /** `MidYearRecord`, stated of the run over `YearEntries`. */
  lemma MidYearRecordWith(y0: int, y1: int, k: int, d: Date)
    requires YearsInRange(y0, y1) && y0 <= k <= y1
    requires MidYearBreak(k).0 <= d <= MidYearBreak(k).1 && d != Ordinal(k, 7, 6)
    ensures GenerateWith(YearEntries, y0, y1).Ok?
    ensures RecordOn(GenerateWith(YearEntries, y0, y1).value, d)
            == Some(Record(d, MidYearHolder(k, d - MidYearBreak(k).0), MidYearReason, VacationBlock))
  {
    MidYearEndsByAugust(k, MidYearBreak(k));
    PastCarryOver(k, d, 6, 27, 8, 1);
    MidYearClaimUnbeaten(k, d);
    AllYearsSpill(y0, y1);
    OwnFirstClaimRecords(YearEntries, y0, y1, k, d);
  }

  /** On a December day of the year-end break but Christmas Eve and
      Christmas, the break's claim comes first and nothing beats it. */
  lemma DecemberBreakClaimUnbeaten(k: int, d: Date)
    requires YearEndBreak(k).0 <= d <= Ordinal(k, 12, 30)
    requires d != Ordinal(k, 12, 24) && d != Ordinal(k, 12, 25)
    ensures FirstUnbeaten(ClaimsOn(YearEntries(k), d))
    ensures ClaimsOn(YearEntries(k), d)[0]
            == Claim(VacationBlock, Alternate(YearEndFirst(k), (d - YearEndBreak(k).0) / 7), YearEndReason)
  {
    DecemberBreakClaims(k, d);
    WeekendClaimsWeakest(k, d);
    HeadUnbeaten(Claim(VacationBlock, Alternate(YearEndFirst(k), (d - YearEndBreak(k).0) / 7), YearEndReason),
                 ClaimsOn(WeekendEntries(k), d));
  }

  /** Every December day of the year-end break but Christmas Eve, Christmas
      and New Year's Eve goes to the holder of its week of the break,
      whatever weekend it falls on. */
  lemma DecemberBreakRecord(y0: int, y1: int, k: int, d: Date)
    requires YearsInRange(y0, y1) && y0 <= k <= y1
    requires YearEndBreak(k).0 <= d <= Ordinal(k, 12, 30)
    requires d != Ordinal(k, 12, 24) && d != Ordinal(k, 12, 25)
    ensures Generate(y0, y1).Ok?
    ensures RecordOn(Generate(y0, y1).value, d)
            == Some(Record(d, Alternate(YearEndFirst(k), (d - YearEndBreak(k).0) / 7), YearEndReason, VacationBlock))
  {
    DecemberBreakRecordWith(y0, y1, k, d);
  }

  /** `DecemberBreakRecord`, stated of the run over `YearEntries`. */
  lemma DecemberBreakRecordWith(y0: int, y1: int, k: int, d: Date)
    requires YearsInRange(y0, y1) && y0 <= k <= y1
    requires YearEndBreak(k).0 <= d <= Ordinal(k, 12, 30)
    requires d != Ordinal(k, 12, 24) && d != Ordinal(k, 12, 25)
    ensures GenerateWith(YearEntries, y0, y1).Ok?
    ensures RecordOn(GenerateWith(YearEntries, y0, y1).value, d)
            == Some(Record(d, Alternate(YearEndFirst(k), (d - YearEndBreak(k).0) / 7), YearEndReason, VacationBlock))
  {
    YearEndStartInDecember(k);
    PastCarryOver(k, d, 12, 13, 12, 30);
    DecemberBreakClaimUnbeaten(k, d);
    AllYearsSpill(y0, y1);
    OwnFirstClaimRecords(YearEntries, y0, y1, k, d);
  }

  /** In the first three weeks of year `j + 1`, a day for which year `j`
      files a single claim of priority 1 and year `j + 1` nothing but a
      weekend gets the claim of year `j`. */
  lemma CarriedClaimOverWeekend(entriesOf: int -> seq<Entry>, y0: int, y1: int, j: int, d: Date, c: Claim)
    requires YearsInRange(y0, y1) && y0 <= j < y1 && YearStart(j + 1) <= d <= YearStart(j + 1) + 20
    requires Spills(entriesOf, YearStart, y0, y1)
    requires ClaimsOn(entriesOf(j), d) == [c] && c.priority == VacationBlock
    requires NoneStronger(ClaimsOn(entriesOf(j + 1), d), Weekend)
    ensures GenerateWith(entriesOf, y0, y1).Ok?
    ensures RecordOn(GenerateWith(entriesOf, y0, y1).value, d) == Some(Record(d, c.guardian, c.reason, VacationBlock))
  {
    HeadUnbeaten(c, ClaimsOn(entriesOf(j + 1), d));
    CarriedFirstClaimRecords(entriesOf, y0, y1, j, d);
  }

  /** In January of year `j + 1`, a day for which year `j` files a single
      claim of priority 1, other than the 14th and the 20th, gets that
      claim. */
  lemma CarriedClaimRecords(y0: int, y1: int, j: int, d: Date, c: Claim)
    requires YearsInRange(y0, y1) && y0 <= j < y1
    requires d != Ordinal(j + 1, 1, 14) && d != Ordinal(j + 1, 1, 20)
    requires YearStart(j + 1) < d <= YearStart(j + 1) + 20
    requires ClaimsOn(YearEntries(j), d) == [c] && c.priority == VacationBlock
    ensures Generate(y0, y1).Ok?
    ensures RecordOn(Generate(y0, y1).value, d) == Some(Record(d, c.guardian, c.reason, VacationBlock))
  {
    CarriedClaimRecordsWith(y0, y1, j, d, c);
  }

  /** `CarriedClaimRecords`, stated of the run over `YearEntries`. */
  lemma CarriedClaimRecordsWith(y0: int, y1: int, j: int, d: Date, c: Claim)
    requires YearsInRange(y0, y1) && y0 <= j < y1
    requires d != Ordinal(j + 1, 1, 14) && d != Ordinal(j + 1, 1, 20)
    requires YearStart(j + 1) < d <= YearStart(j + 1) + 20
    requires ClaimsOn(YearEntries(j), d) == [c] && c.priority == VacationBlock
    ensures GenerateWith(YearEntries, y0, y1).Ok?
    ensures RecordOn(GenerateWith(YearEntries, y0, y1).value, d) == Some(Record(d, c.guardian, c.reason, VacationBlock))
  {
    JanuaryPlainDayWeak(j + 1, d);
    AllYearsSpill(y0, y1);
    CarriedClaimOverWeekend(YearEntries, y0, y1, j, d, c);
  }

  /** The year-end break goes on into January of the next year: each of
      its days there but the 14th and the 20th goes to the holder of its
      week, whatever weekend it falls on. */
  lemma JanuaryBreakRecord(y0: int, y1: int, j: int, d: Date)
    requires YearsInRange(y0, y1) && y0 <= j < y1
    requires d != Ordinal(j + 1, 1, 14) && d != Ordinal(j + 1, 1, 20)
    requires YearStart(j + 1) < d <= YearEndBreak(j).1
    ensures Generate(y0, y1).Ok?
    ensures RecordOn(Generate(y0, y1).value, d)
            == Some(Record(d, Alternate(YearEndFirst(j), (d - YearEndBreak(j).0) / 7), YearEndReason, VacationBlock))
  {
    CarriedBreakClaims(j, d);
    CarriedClaimRecords(y0, y1, j, d,
      Claim(VacationBlock, Alternate(YearEndFirst(j), (d - YearEndBreak(j).0) / 7), YearEndReason));
  }

  /** Nothing the year before carries into year `k` past January 1 is of
      priority 0. */
  lemma CarriedOverWeak(y0: int, k: int, d: Date)
    requires YearStart(k) < d
    ensures NoneStronger(CarriedOver(YearEntries, YearStart, y0, k, d), VacationBlock)
  {
    if y0 < k {
      CarriedOverWeakFrom(y0, k, d);
    } else {
      assert CarriedOver(YearEntries, YearStart, y0, k, d) == [];
    }
  }

  lemma CarriedOverWeakFrom(y0: int, k: int, d: Date)
    requires y0 < k && YearStart(k) < d
    ensures NoneStronger(CarriedOver(YearEntries, YearStart, y0, k, d), VacationBlock)
  {
    CarriedClaimsWeak(k - 1, d);
    CarriedOverBound(YearEntries, YearStart, y0, k, d, VacationBlock);
  }

  /** Past January 1 of year `k`, a day whose first claim from year `k`
      is of priority 0 and unbeaten there gets that claim, whatever the
      year before carries over. */
  lemma OwnMajorOverCarried(y0: int, y1: int, k: int, d: Date, c: Claim)
    requires YearsInRange(y0, y1) && y0 <= k <= y1 && YearStart(k) < d <= YearEnd(k)
    requires FirstUnbeaten(ClaimsOn(YearEntries(k), d)) && ClaimsOn(YearEntries(k), d)[0] == c
    requires c.priority == MajorFixed
    ensures Generate(y0, y1).Ok?
    ensures RecordOn(Generate(y0, y1).value, d) == Some(Record(d, c.guardian, c.reason, MajorFixed))
  {
    OwnMajorOverCarriedWith(y0, y1, k, d, c);
  }

  /** `OwnMajorOverCarried`, stated of the run over `YearEntries`. */
  lemma OwnMajorOverCarriedWith(y0: int, y1: int, k: int, d: Date, c: Claim)
    requires YearsInRange(y0, y1) && y0 <= k <= y1 && YearStart(k) < d <= YearEnd(k)
    requires FirstUnbeaten(ClaimsOn(YearEntries(k), d)) && ClaimsOn(YearEntries(k), d)[0] == c
    requires c.priority == MajorFixed
    ensures GenerateWith(YearEntries, y0, y1).Ok?
    ensures RecordOn(GenerateWith(YearEntries, y0, y1).value, d) == Some(Record(d, c.guardian, c.reason, MajorFixed))
  {
    CarriedOverWeak(y0, k, d);
    AllYearsSpill(y0, y1);
    OwnClaimOverCarried(YearEntries, y0, y1, k, d);
  }

  /** On a fixed family day in January, the table's claim comes first and
      nothing beats it. */
  lemma JanuaryFixedClaimUnbeaten(k: int, i: int)
    requires 0 <= i < |FixedDays| && FixedDays[i].month == 1
    ensures ValidDate(k, 1, FixedDays[i].day)
    ensures FirstUnbeaten(ClaimsOn(YearEntries(k), Ordinal(k, 1, FixedDays[i].day)))
    ensures ClaimsOn(YearEntries(k), Ordinal(k, 1, FixedDays[i].day))[0]
            == Claim(MajorFixed, FixedDays[i].guardian, FixedDays[i].reason)
  {
    JanuaryFixedDay(k, i);
    WeekendClaimsWeakest(k, Ordinal(k, 1, FixedDays[i].day));
    HeadUnbeaten(Claim(MajorFixed, FixedDays[i].guardian, FixedDays[i].reason),
                 ClaimsOn(WeekendEntries(k), Ordinal(k, 1, FixedDays[i].day)));
  }

  /** The fixed family days in January fall after January 1. */
  lemma JanuaryFixedDayInYear(k: int, i: int)
    requires 0 <= i < |FixedDays| && FixedDays[i].month == 1
    ensures ValidDate(k, 1, FixedDays[i].day)
    ensures YearStart(k) < Ordinal(k, 1, FixedDays[i].day) <= YearEnd(k)
  {
    FixedDaysValid(k);
    OrdinalWithinYear(k, 1, FixedDays[i].day);
  }

  /** January 14 (Vovó Sônia, the father's side) and January 20 (the
      mother's birthday) go to their side every year, inside the year-end
      break as well. */
  lemma JanuaryFixedDayRecord(y0: int, y1: int, k: int, i: int)
    requires YearsInRange(y0, y1) && y0 <= k <= y1
    requires 0 <= i < |FixedDays| && FixedDays[i].month == 1
    ensures ValidDate(k, 1, FixedDays[i].day)
    ensures Generate(y0, y1).Ok?
    ensures RecordOn(Generate(y0, y1).value, Ordinal(k, 1, FixedDays[i].day))
            == Some(Record(Ordinal(k, 1, FixedDays[i].day), FixedDays[i].guardian, FixedDays[i].reason, MajorFixed))
  {
    var d := Ordinal(k, 1, FixedDays[i].day);
    JanuaryFixedClaimUnbeaten(k, i);
    JanuaryFixedDayInYear(k, i);
    OwnMajorOverCarried(y0, y1, k, d, Claim(MajorFixed, FixedDays[i].guardian, FixedDays[i].reason));
  }
}
