/** How the claim rules take turns.  The major holidays, the child's
    birthday, the school breaks and the common holidays change hands with
    the parity of the year alone, so two consecutive years swap them;
    the fixed family days and the parents' days never change hands. */
module Turns {
  import opened Calendar
  import opened Claims
  import opened BreakFacts

  /** Natal, Ano Novo, Semana Santa, Carnaval and the child's birthday go
      to the other parent in the next year, and back the year after. */
  lemma MajorTurns(y: int)
    ensures ChristmasGuardian(y + 1) == ChristmasGuardian(y).Other()
    ensures NewYearGuardian(y + 1) == NewYearGuardian(y).Other()
    ensures HolyWeekGuardian(y + 1) == HolyWeekGuardian(y).Other()
    ensures CarnivalGuardian(y + 1) == CarnivalGuardian(y).Other()
    ensures BirthdayGuardian(y + 1) == BirthdayGuardian(y).Other()
    ensures ChristmasGuardian(y + 2) == ChristmasGuardian(y)
  {
  }

  /** Within a year the parents split the pairs of major holidays: who has
      Natal does not have Ano Novo, who has Semana Santa does not have
      Carnaval, and the child's birthday goes with Ano Novo. */
  lemma MajorSplit(y: int)
    ensures NewYearGuardian(y) == ChristmasGuardian(y).Other()
    ensures CarnivalGuardian(y) == HolyWeekGuardian(y).Other()
    ensures BirthdayGuardian(y) == NewYearGuardian(y)
  {
  }

  /** Every day of either school break goes, in the next year, to the
      other parent than the same day of the break this year. */
  lemma BreakTurns(y: int, i: int, n: int)
    ensures MidYearHolder(y + 1, i) == MidYearHolder(y, i).Other()
    ensures Alternate(YearEndFirst(y + 1), n) == Alternate(YearEndFirst(y), n).Other()
  {
  }

  /** Consecutive common holidays of the list go to different parents, and
      each holiday changes hands from one year to the next. */
  lemma HolidayTurns(y: int, idx: int)
    ensures CommonHolidayGuardian(y, idx + 1) == CommonHolidayGuardian(y, idx).Other()
    ensures CommonHolidayGuardian(y + 1, idx) == CommonHolidayGuardian(y, idx).Other()
  {
  }

  /** The fixed family days are filed for the same parent, with the same
      reason, on the same month and day, every year. */
  lemma FixedDaysEveryYear(y: int, y': int, k: int)
    requires 0 <= k < |FixedDays|
    ensures FixedEntries(y)[k].claim == FixedEntries(y')[k].claim
            == Claim(MajorFixed, FixedDays[k].guardian, FixedDays[k].reason)
    ensures ValidDate(y, FixedDays[k].month, FixedDays[k].day)
    ensures FixedEntries(y)[k].date == Ordinal(y, FixedDays[k].month, FixedDays[k].day)
  {
    FixedDaysValid(y);
  }

  /** Dia dos Pais always goes to the father and Dia das Mães to the
      mother, whatever their dates. */
  lemma ParentsDaysEveryYear(fathersDay: Date, mothersDay: Date, d: Date)
    ensures Claim(MajorFixed, Father, "Dia dos Pais") in ClaimsOn(ParentsDayEntries(fathersDay, mothersDay), d)
            <==> d == fathersDay
    ensures Claim(MajorFixed, Mother, "Dia das Mães") in ClaimsOn(ParentsDayEntries(fathersDay, mothersDay), d)
            <==> d == mothersDay
  {
  }
}
