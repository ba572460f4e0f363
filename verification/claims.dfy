/** The claim generator of `gerar_calendario`: for one year, every
    (priority, guardian, reason) claim it files and the date it files it
    under, in the order the program files them. */
module Claims {
  import opened Calendar
  import opened DateRules

  /** 'pai' and 'mae'. */
  datatype Guardian = Father | Mother {
    function Other(): (g: Guardian)
      ensures g != this
    {
      if this == Father then Mother else Father
    }
  }

  /** Priority classes: a lower number is a stronger claim.  A day without
      any claim is given `DefaultDay` and produces no record. */
  const MajorFixed: nat := 0
  const VacationBlock: nat := 1
  const CommonHoliday: nat := 2
  const Weekend: nat := 3
  const DefaultDay: nat := 4

  /** The tuple `(prioridade, responsavel, motivo)`. */
  datatype Claim = Claim(priority: nat, guardian: Guardian, reason: string)

  /** One `prioridades.setdefault(date, []).append(claim)`. */
  datatype Entry = Entry(date: Date, claim: Claim)

  /** The claims filed under day `d`, in filing order. */
  function ClaimsOn(es: seq<Entry>, d: Date): (r: seq<Claim>)
    ensures |r| <= |es|
    ensures forall c :: c in r <==> Entry(d, c) in es
  {
    if |es| == 0 then []
    else
      var rest := ClaimsOn(es[1..], d);
      assert forall e :: e in es <==> e == es[0] || e in es[1..];
      if es[0].date == d then [es[0].claim] + rest else rest
  }

  /** No claims are found for a date no entry is filed under. */
  lemma ClaimsOnAbsent(es: seq<Entry>, d: Date)
    requires forall e :: e in es ==> e.date != d
    ensures ClaimsOn(es, d) == []
  {
  }

  lemma {:induction false} ClaimsOnAppend(a: seq<Entry>, b: seq<Entry>, d: Date)
    ensures ClaimsOn(a + b, d) == ClaimsOn(a, d) + ClaimsOn(b, d)
    decreases |a|
  {
    if |a| == 0 {
      assert a + b == b;
    } else {
      assert (a + b)[1..] == a[1..] + b;
      ClaimsOnAppend(a[1..], b, d);
    }
  }

  /** A run of entries on consecutive days holds exactly one claim for
      each day it covers and none for any other day. */
  lemma {:induction false} ClaimsOnConsecutive(es: seq<Entry>, base: Date, d: Date)
    requires forall k :: 0 <= k < |es| ==> es[k].date == base + k
    ensures ClaimsOn(es, d) == if base <= d < base + |es| then [es[d - base].claim] else []
    decreases |es|
  {
    if |es| > 0 {
      ClaimsOnConsecutive(es[1..], base + 1, d);
    }
  }

  /** `cs` starts with `c`. */
  predicate FirstClaimIs(cs: seq<Claim>, c: Claim) {
    |cs| > 0 && cs[0] == c
  }

  /** No claim of `cs` is stronger than priority `p`. */
  predicate NoneStronger(cs: seq<Claim>, p: nat) {
    forall c :: c in cs ==> p <= c.priority
  }

  /** Parity of the year: `ano % 2 == 1` (Python's `%` is never negative
      for a positive modulus, like Dafny's). */
  predicate OddYear(y: int) {
    y % 2 == 1
  }

  // ---------------------------------------------------------------------
  // Priority 0: major holidays, birthdays, Father's and Mother's Day
  // ---------------------------------------------------------------------

  function ChristmasGuardian(y: int): Guardian {
    if OddYear(y) then Father else Mother
  }

  function NewYearGuardian(y: int): Guardian {
    if OddYear(y) then Mother else Father
  }

  function HolyWeekGuardian(y: int): Guardian {
    if OddYear(y) then Father else Mother
  }

  function CarnivalGuardian(y: int): Guardian {
    if OddYear(y) then Mother else Father
  }

  function BirthdayGuardian(y: int): Guardian {
    if OddYear(y) then Mother else Father
  }

  /** Natal: December 24 and 25. */
  function ChristmasEntries(y: int): seq<Entry> {
    var c := Claim(MajorFixed, ChristmasGuardian(y), "Natal");
    [Entry(Ordinal(y, 12, 24), c), Entry(Ordinal(y, 12, 25), c)]
  }

  /** Ano Novo: December 31 of `y` and January 1 of `y + 1`. */
  function NewYearEntries(y: int): seq<Entry> {
    var c := Claim(MajorFixed, NewYearGuardian(y), "Ano Novo");
    [Entry(Ordinal(y, 12, 31), c), Entry(Ordinal(y + 1, 1, 1), c)]
  }

  /** Semana Santa: every day of `week`, Palm Sunday through Easter Sunday. */
  function HolyWeekEntries(y: int, week: seq<Date>): (r: seq<Entry>)
    ensures |r| == |week| && forall k :: 0 <= k < |r| ==> r[k].date == week[k]
  {
    var c := Claim(MajorFixed, HolyWeekGuardian(y), "Semana Santa/Páscoa");
    seq(|week|, k requires 0 <= k < |week| => Entry(week[k], c))
  }

  /** Carnaval: the day before Carnival Tuesday, the Tuesday and the day
      after (`range(-1, 2)`), that is Monday to Wednesday. */
  function CarnivalEntries(y: int, carnival: Date): (r: seq<Entry>)
    ensures |r| == 3 && forall k :: 0 <= k < 3 ==> r[k].date == carnival - 1 + k
  {
    var c := Claim(MajorFixed, CarnivalGuardian(y), "Carnaval");
    seq(3, k => Entry(carnival - 1 + k, c))
  }

  /** The child's birthday, July 6. */
  function BirthdayEntries(y: int): seq<Entry> {
    [Entry(Ordinal(y, 7, 6), Claim(MajorFixed, BirthdayGuardian(y), "Aniversário Letícia"))]
  }

  /** A fixed-date family event whose guardian never changes. */
  datatype FixedDay = FixedDay(month: int, day: int, guardian: Guardian, reason: string)

  /** The `dias_fixos` table. */
  const FixedDays: seq<FixedDay> := [
    FixedDay(1, 14, Father, "Aniversário Vovó Sônia"),
    FixedDay(6, 12, Father, "Aniversário Vovô Joca"),
    FixedDay(6, 1, Father, "Aniversário Tia Ana"),
    FixedDay(11, 3, Father, "Aniversário do Pai"),
    FixedDay(2, 14, Mother, "Aniversário Tia Ié"),
    FixedDay(4, 16, Mother, "Aniversário Vovó Dudu"),
    FixedDay(9, 25, Mother, "Aniversário Vovô Lulu"),
    FixedDay(12, 31, Mother, "Aniversário Bisa Orquídea"),
    FixedDay(12, 25, Mother, "Aniversário Tio Filipe"),
    FixedDay(1, 20, Mother, "Aniversário da Mãe")
  ]

  lemma FixedDaysValid(y: int)
    ensures forall k :: 0 <= k < |FixedDays| ==> ValidDate(y, FixedDays[k].month, FixedDays[k].day)
  {
  }

  function FixedEntries(y: int): (r: seq<Entry>)
    ensures |r| == |FixedDays|
  {
    FixedDaysValid(y);
    seq(|FixedDays|, k requires 0 <= k < |FixedDays| =>
      Entry(Ordinal(y, FixedDays[k].month, FixedDays[k].day),
            Claim(MajorFixed, FixedDays[k].guardian, FixedDays[k].reason)))
  }

  /** Dia dos Pais (always the father) and Dia das Mães (always the mother). */
  function ParentsDayEntries(fathersDay: Date, mothersDay: Date): seq<Entry> {
    [Entry(fathersDay, Claim(MajorFixed, Father, "Dia dos Pais")),
     Entry(mothersDay, Claim(MajorFixed, Mother, "Dia das Mães"))]
  }

  // ---------------------------------------------------------------------
  // Priority 1: school breaks
  // ---------------------------------------------------------------------

  const MidYearReason: string := "Férias Medianas"
  const YearEndReason: string := "Férias de Ano Novo"
  const WeekendReason: string := "FDS"

  /** Who takes the first mid-year sub-period: the father in even years. */
  function MidYearFirst(y: int): Guardian {
    if OddYear(y) then Mother else Father
  }

  /** `for _ in range(n): if cur <= end: file; cur += 1`: the entries of
      one sub-period and the day after it. */
  function SubPeriod(n: nat, g: Guardian, cur: Date, end: Date): (r: (seq<Entry>, Date))
    ensures forall e :: e in r.0 ==> cur <= e.date <= end && e.claim == Claim(VacationBlock, g, MidYearReason)
    ensures cur <= r.1
  {
    if n == 0 then ([], cur)
    else if cur <= end then
      var rest := SubPeriod(n - 1, g, cur + 1, end);
      ([Entry(cur, Claim(VacationBlock, g, MidYearReason))] + rest.0, rest.1)
    else SubPeriod(n - 1, g, cur, end)
  }

  /** The `for duracao, responsavel in periodos` loop. */
  function Periods(ps: seq<(nat, Guardian)>, cur: Date, end: Date): (r: seq<Entry>)
    ensures forall e :: e in r ==> cur <= e.date <= end
                                   && e.claim.priority == VacationBlock && e.claim.reason == MidYearReason
    decreases |ps|
  {
    if |ps| == 0 then []
    else
      var sub := SubPeriod(ps[0].0, ps[0].1, cur, end);
      sub.0 + Periods(ps[1..], sub.1, end)
  }

  /** The mid-year break split into sub-periods of 5, 10, 5 and 10 days. */
  function MidYearEntries(y: int, window: (Date, Date)): seq<Entry> {
    var (start, end) := window;
    var first := MidYearFirst(y);
    Periods([(5, first), (10, first.Other()), (5, first), (10, first.Other())], start, end)
  }

  /** Who takes the first year-end week: the father in odd years. */
  function YearEndFirst(y: int): Guardian {
    if OddYear(y) then Father else Mother
  }

  /** The `while data_atual <= fim_ferias_fim` loop, whose counter hands the
      break to the other guardian after every seven days. */
  function YearEndRun(cur: Date, end: Date, counter: int, g: Guardian): (r: seq<Entry>)
    ensures forall e :: e in r ==> cur <= e.date <= end
                                   && e.claim.priority == VacationBlock && e.claim.reason == YearEndReason
    decreases end - cur + 1
  {
    if cur > end then []
    else
      var next := counter + 1;
      var e := Entry(cur, Claim(VacationBlock, g, YearEndReason));
      if next == 7 then [e] + YearEndRun(cur + 1, end, 0, g.Other())
      else [e] + YearEndRun(cur + 1, end, next, g)
  }

  function YearEndEntries(y: int, window: (Date, Date)): seq<Entry> {
    var (start, end) := window;
    YearEndRun(start, end, 0, YearEndFirst(y))
  }

  // ---------------------------------------------------------------------
  // Priority 2: common holidays
  // ---------------------------------------------------------------------

  /** The `feriados_comuns` list, in declaration order. */
  function CommonHolidays(y: int, corpusChristi: Date): (r: seq<(Date, string)>)
    ensures |r| == 11 && r[1].0 == corpusChristi
  {
    [(Ordinal(y, 5, 1), "Dia do Trabalho"),
     (corpusChristi, "Corpus Christi"),
     (Ordinal(y, 8, 16), "Aniversário de Teresina"),
     (Ordinal(y, 9, 7), "Independência do Brasil"),
     (Ordinal(y, 10, 12), "Dia das Crianças"),
     (Ordinal(y, 10, 15), "Dia do Professor"),
     (Ordinal(y, 10, 19), "Aniversário do Piauí"),
     (Ordinal(y, 4, 21), "Tiradentes"),
     (Ordinal(y, 11, 2), "Finados"),
     (Ordinal(y, 12, 8), "Nossa Senhora da Conceição"),
     (Ordinal(y, 11, 20), "Consciência Negra")]
  }

  /** Holiday number `idx` goes to the father when `idx + y` is even. */
  function CommonHolidayGuardian(y: int, idx: int): Guardian {
    if (idx + y) % 2 == 0 then Father else Mother
  }

  function CommonHolidayEntries(y: int, corpusChristi: Date): (r: seq<Entry>)
    ensures |r| == 11
  {
    var hs := CommonHolidays(y, corpusChristi);
    seq(11, idx requires 0 <= idx < 11 =>
      Entry(hs[idx].0, Claim(CommonHoliday, CommonHolidayGuardian(y, idx), "Feriado: " + hs[idx].1)))
  }

  // ---------------------------------------------------------------------
  // Priority 3: weekends
  // ---------------------------------------------------------------------

  /** The first Friday of the year. */
  function FirstFriday(y: int): (r: Date)
    ensures YearStart(y) <= r <= YearStart(y) + 6 && Weekday(r) == Friday
  {
    OnOrAfter(YearStart(y), Friday)
  }

  /** Who takes the first weekend: the father in odd years.  In even years
      that first weekend is skipped, so the mother takes the second one. */
  function WeekendFirst(y: int): Guardian {
    if OddYear(y) then Father else Mother
  }

  /** The Friday of the first weekend that is claimed. */
  function WeekendStart(y: int): Date {
    if OddYear(y) then FirstFriday(y) else FirstFriday(y) + 7
  }

  /** Friday, Saturday and Sunday from `fri`, as far as they lie in
      `lo .. hi`, the days of the year (`data.year == ano`). */
  function WeekendBlock(lo: Date, hi: Date, fri: Date, g: Guardian): (r: seq<Entry>)
    ensures forall e :: e in r ==> lo <= e.date <= hi && fri <= e.date <= fri + 2
                                   && e.claim == Claim(Weekend, g, WeekendReason)
  {
    var c := Claim(Weekend, g, WeekendReason);
    (if lo <= fri <= hi then [Entry(fri, c)] else [])
    + (if lo <= fri + 1 <= hi then [Entry(fri + 1, c)] else [])
    + (if lo <= fri + 2 <= hi then [Entry(fri + 2, c)] else [])
  }

  /** The `while data_atual.year == ano` loop over the year `lo .. hi`,
      handing every weekend to the other guardian. */
  function WeekendRun(lo: Date, hi: Date, fri: Date, g: Guardian): (r: seq<Entry>)
    ensures forall e :: e in r ==> lo <= e.date <= hi && fri <= e.date
                                   && e.claim.priority == Weekend && e.claim.reason == WeekendReason
    decreases hi - fri
  {
    if !(lo <= fri <= hi) then []
    else WeekendBlock(lo, hi, fri, g) + WeekendRun(lo, hi, fri + 7, g.Other())
  }

  function WeekendEntries(y: int): (r: seq<Entry>)
    ensures forall e :: e in r ==> InYear(e.date, y)
                                   && e.claim.priority == Weekend && e.claim.reason == WeekendReason
  {
    WeekendRun(YearStart(y), YearEnd(y), WeekendStart(y), WeekendFirst(y))
  }

  // ---------------------------------------------------------------------
  // One year
  // ---------------------------------------------------------------------

  /** The dates the date rules give for one year.  The program calls the
      rules inline; they are pure, so computing them once changes nothing. */
  datatype YearDates = YearDates(
    holyWeek: seq<Date>, carnival: Date, corpusChristi: Date,
    fathersDay: Date, mothersDay: Date,
    midYear: (Date, Date), yearEnd: (Date, Date))

  function DatesOf(y: int): YearDates {
    YearDates(HolyWeek(y), Carnival(y), CorpusChristi(y), FathersDay(y), MothersDay(y),
              MidYearBreak(y), YearEndBreak(y))
  }

  /** What the date rules guarantee about the dates of year `y`. */
  ghost predicate DatesOk(y: int, yd: YearDates) {
    && |yd.holyWeek| == 8
    && (forall k :: 0 <= k < 8 ==> yd.holyWeek[k] == yd.holyWeek[0] + k)
    && Ordinal(y, 3, 15) <= yd.holyWeek[0] && yd.holyWeek[7] <= Ordinal(y, 4, 25)
    && yd.carnival + 47 == yd.holyWeek[7] && yd.corpusChristi == yd.holyWeek[7] + 60
    && Ordinal(y, 2, 3) <= yd.carnival <= Ordinal(y, 3, 9)
    && Ordinal(y, 5, 21) <= yd.corpusChristi <= Ordinal(y, 6, 24)
    && Ordinal(y, 8, 8) <= yd.fathersDay <= Ordinal(y, 8, 14)
    && Ordinal(y, 5, 8) <= yd.mothersDay <= Ordinal(y, 5, 14)
    && Ordinal(y, 6, 27) <= yd.midYear.0 <= Ordinal(y, 7, 3) && yd.midYear.1 == yd.midYear.0 + 29
    && Ordinal(y, 12, 13) <= yd.yearEnd.0 <= Ordinal(y, 12, 19)
    && Ordinal(y + 1, 1, 15) <= yd.yearEnd.1 <= Ordinal(y + 1, 1, 21)
  }

  lemma DatesOfOk(y: int)
    ensures DatesOk(y, DatesOf(y))
  {
    YearEndStartInDecember(y);
  }

  /** Everything the body of `for ano in range(ano_inicio, ano_fim + 1)`
      files for year `y`, given that year's dates, in filing order. */
  function EntriesFor(y: int, yd: YearDates): seq<Entry> {
    MajorEntries(y, yd) + MinorEntries(y, yd)
  }

  /** The priority-0 part of a year: major holidays, the child's birthday,
      the fixed family days, Father's and Mother's Day. */
  function MajorEntries(y: int, yd: YearDates): seq<Entry> {
    ChristmasEntries(y) + NewYearEntries(y) + HolyWeekEntries(y, yd.holyWeek)
    + CarnivalEntries(y, yd.carnival) + BirthdayEntries(y) + FixedEntries(y)
    + ParentsDayEntries(yd.fathersDay, yd.mothersDay)
  }

  /** The rest of a year: school breaks, common holidays and weekends. */
  function MinorEntries(y: int, yd: YearDates): seq<Entry> {
    MidYearEntries(y, yd.midYear) + YearEndEntries(y, yd.yearEnd)
    + CommonHolidayEntries(y, yd.corpusChristi) + WeekendEntries(y)
  }

  function YearEntries(y: int): seq<Entry> {
    EntriesFor(y, DatesOf(y))
  }
}
