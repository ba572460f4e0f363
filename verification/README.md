# Custody calendar (calendario-guarda) in Dafny

This project models `gerar_calendario` of `calendario-guarda.py`. The
function decides, for every day of a range of years, whether the child
(Letícia) is with the father ('pai') or with the mother ('mae'), and why.
It works in two phases:

1. **Claims.** For every year it files claims of the form
   `(prioridade, responsavel, motivo)` under dates, in the dictionary
   `prioridades`. There are five priority classes:
   - 0: the major holidays, the child's birthday, the fixed family days and
     the parents' days;
   - 1: the mid-year school break and the year-end school break;
   - 2: eleven common holidays;
   - 3: weekends, from Friday to Sunday;
   - 4: the default class, given to a day that has no claim at all.

   Who gets a claim depends on the parity of the year. The movable dates
   come from Easter, computed with Meeus' algorithm. Those dates are Holy
   Week, Carnival and Corpus Christi. The other computed dates are Dia dos
   Pais, Dia das Mães, and the start and end of both school breaks.
2. **Resolution.** For every day from January 1 of the first year to
   December 31 of the last year, the claims of the day are sorted stably by
   priority and the first one wins. A day with no claim gets priority 4 and
   produces no calendar entry. Every other day produces one entry: the
   winner's guardian, reason and priority.

The model follows the program's structure:

| module | file | what it holds |
|---|---|---|
| `Calendar` | calendar.dfy | proleptic Gregorian dates as Python ordinals, and weekdays |
| `DateRules` | date_rules.dfy | `calcular_pascoa`, `calcular_corpus_christi`, `calcular_carnaval`, `calcular_semana_santa`, `calcular_ferias_meio_ano`, `calcular_ferias_final_ano`, `calcular_dia_pais`, `calcular_dia_maes` |
| `Claims` | claims.dfy | the claims one year of the loop files, as `Entry(date, claim)` lists in filing order |
| `Store` | store.dfy | `prioridades` as a map from date to list, `setdefault(...).append(...)` |
| `Resolver` | resolver.dfy | the stable sort, the choice of the day's winner, the day loop and the error path |
| `Outcomes` | outcomes.dfy | `Option` and `Result` |
| `BreakFacts` | breaks.dfy | the shape of the school-break and weekend loops |
| `Years` | years.dfy | how the claims of consecutive years overlap: the year-end break and Ano Novo spill into January |
| `ClaimFacts`, `DayFacts`, `HolidayFacts` | facts.dfy, day_facts.dfy, holidays.dfy | which claims fall on which days |
| `Custody` | custody.dfy | `Generate`, and the end-to-end record each rule produces |
| `Turns` | turns.dfy | how the rules take turns from year to year |

Conventions:

- **Dates.** A date is its proleptic Gregorian ordinal: 0001-01-01 is 1,
  as with Python's `date.toordinal`. `Weekday` is Python's `weekday()`,
  with Monday 0 and Sunday 6. A `datetime(y, m, d)` becomes
  `Ordinal(y, m, d)`, which requires `ValidDate(y, m, d)`. So every date
  the program builds is proved valid; such a construction never raises
  `ValueError` in the model.
- **Arithmetic.** The divisors in Meeus' algorithm are positive constants,
  and the dividends are non-negative for every supported year. So Python's
  floor `//` and `%` agree with Dafny's Euclidean `/` and `%`.
- **Errors.** Python's `datetime` accepts years 1 to 9999. `Generate`
  returns `Err(YearOutOfRange)` exactly when the program would raise. That
  happens when a year it builds a date in (`ano + 1` included) lies outside
  1 to 9999. `Resolver.YearsSupportedIff` states the condition in closed
  form.
- **Result.** The result of `Generate` is the list of calendar entries as
  `Record(date, guardian, reason, priority)`, in ascending date order.
  `RecordOn(records, d)` is the entry for day `d`, if there is one.

The code and its comments disagree in two places. The model follows
the code each time:

- The Carnival loop (calendario-guarda.py:147-150) claims the Monday, Tuesday
  and Wednesday around Carnival Tuesday. Its comment says Saturday, Sunday
  and Monday.
- The comment at calendario-guarda.py:276 says that a day with no claim
  goes to the mother. The code gives such a day no entry at all.

One edge case of the code is worth naming: the first year's loop files no
Ano Novo claim for its own January 1, because only the year before would
file one (calendario-guarda.py:130-135). `Custody.FirstYearNewYearsDay`
states what that day gets: nothing, unless the year is odd and starts on
a Friday, in which case the weekend loop gives it to the father.

## Model

| member | source | states |
|---|---|---|
| Calendar.WeekdayShift | calendario-guarda.py:240-241 | follows from the definition of `Weekday`: moving a date forward by k days moves its weekday by k, modulo 7 |
| Calendar.YearEndThenYearStart | calendario-guarda.py:134 | December 31 of y is the day before January 1 of y+1; the days of a year number 365 or 366 by the leap rule |
| Calendar.YearsInOrder | calendario-guarda.py:119 | every day of an earlier year comes before every day of a later year |
| Calendar.OrdinalInOrderWithinYear | calendario-guarda.py:158-168 | within a year, a date with an earlier month-day has the smaller ordinal |
| Calendar.OrdinalInjective | calendario-guarda.py:128 | two valid calendar dates with the same ordinal are the same date, so the dictionary keys by day exactly |
| Calendar.CivilOf | calendario-guarda.py:249-253 | each ordinal has a valid (year, month, day) that maps back to it |
| Calendar.CivilOfOrdinal | calendario-guarda.py:249-253 | converting a valid date to its ordinal and back gives the same date |
| Calendar.YearOfIff | calendario-guarda.py:249-253 | `.year == ano` holds exactly for the days between January 1 and December 31 of `ano` |
| DateRules.EasterOffset | calendario-guarda.py:7-20 | Meeus' month and day give an Easter 0 to 34 days after March 22 |
| DateRules.EasterCivil | calendario-guarda.py:18-21 | the month and day computed are a valid date in the year, between March 22 and April 25 |
| DateRules.EasterOffsetIsSunday | calendario-guarda.py:5-21 | the computed Easter is always a Sunday |
| DateRules.Easter | calendario-guarda.py:5-21 | Easter lies between March 22 and April 25 and is a Sunday |
| DateRules.HolyWeek | calendario-guarda.py:33-37 | eight consecutive days from Palm Sunday (a Sunday, on or after March 15) to Easter |
| DateRules.Carnival | calendario-guarda.py:28-31 | Carnival is the Tuesday 47 days before Easter, between February 3 and March 9 |
| DateRules.CorpusChristi | calendario-guarda.py:23-26 | Corpus Christi is the Thursday 60 days after Easter, between May 21 and June 24 |
| DateRules.FirstOnWeekday | calendario-guarda.py:43-47 | the loop-and-break search returns the first listed day on the weekday, or nothing exactly when no listed day is on it |
| DateRules.WeekHasWeekday | calendario-guarda.py:53-57 | seven consecutive days always contain a Monday, so the July search always finds one |
| DateRules.OnOrAfter | calendario-guarda.py:76-79 | advancing day by day reaches the first date on the weekday within six days, skipping none |
| DateRules.JulyFallback | calendario-guarda.py:49-57 | when June 27-30 has no Monday, the first Monday of July is July 1-3, with no Monday in between |
| DateRules.MidYearStart | calendario-guarda.py:39-57 | the break starts on the first Monday on or after June 27; it falls after June 30 exactly when June 27-30 has none |
| DateRules.MidYearBreak | calendario-guarda.py:39-60 | the mid-year break opens on the first Monday from June 27 on, so a Monday between June 27 and July 3, and covers 30 days counting both ends |
| DateRules.YearEndStart | calendario-guarda.py:64-79 | the year-end break starts on a Monday between December 13 and January 7 |
| DateRules.YearEndStartInDecember | calendario-guarda.py:66-79 | the December search always succeeds: the start is the first Monday on or after December 13, by December 19, so the January fallback never runs |
| DateRules.SundaysFrom | calendario-guarda.py:84-90 | the Sundays of a 31-day month from a given day, ascending, none left out |
| DateRules.SundaysOfMonth | calendario-guarda.py:97-102 | a 31-day month has at least three Sundays; the second is on day 8-14 and the third on day 15-21 |
| DateRules.ThirdOrLast | calendario-guarda.py:92 | the third Sunday when there are three, otherwise some Sunday of the list |
| DateRules.YearEndEnd | calendario-guarda.py:81-92 | the year-end break ends on the third Sunday of next January, on January 15-21 |
| DateRules.YearEndBreak | calendario-guarda.py:62-93 | the year-end break opens on the first Monday from December 13 on, so December 13 to 19, and closes on the third Sunday of the next January, so January 15 to 21 |
| DateRules.SecondSunday | calendario-guarda.py:97-102 | `domingos[1]` of a 31-day month is a Sunday on day 8-14 |
| DateRules.FathersDay | calendario-guarda.py:95-102 | Dia dos Pais is a Sunday between August 8 and 14 |
| DateRules.MothersDay | calendario-guarda.py:104-111 | Dia das Mães is a Sunday between May 8 and 14 |
| Claims.ClaimsOn | calendario-guarda.py:128 | the claims filed under a day are exactly those of the entries for that day, in filing order |
| Claims.ClaimsOnAppend | calendario-guarda.py:119-257 | filing two lists one after the other files, under each day, the first list's claims and then the second's |
| Claims.ClaimsOnConsecutive | calendario-guarda.py:140-142 | a run of entries on consecutive days puts exactly one claim on each day of the run and none elsewhere |
| Claims.HolyWeekEntries | calendario-guarda.py:137-142 | one Semana Santa entry per Holy Week day, on that day; `ClaimFacts.HolyWeekClaimsOn` proves these are the only days it claims |
| Claims.CarnivalEntries | calendario-guarda.py:144-150 | three Carnaval entries, on the day before, the day of and the day after Carnival; `ClaimFacts.CarnivalClaimsOn` proves these are the only days it claims |
| Claims.FixedDaysValid | calendario-guarda.py:158-170 | every fixed family day is a valid date in every year |
| Claims.FixedEntries | calendario-guarda.py:157-173 | one entry per fixed family day; `DayFacts.FixedDayClaimsOn` proves each such day gets exactly its own claim |
| Claims.SubPeriod | calendario-guarda.py:193-197 | one period of the mid-year break files only inside the break, for its own guardian |
| Claims.Periods | calendario-guarda.py:188-197 | the mid-year periods file only inside the break, at priority 1 |
| Claims.YearEndRun | calendario-guarda.py:207-213 | the year-end loop files only inside the break, at priority 1 |
| Claims.CommonHolidays | calendario-guarda.py:216-228 | eleven common holidays, the second being Corpus Christi; `HolidayFacts.HolidayClaimsOn` proves which parent each one goes to |
| Claims.CommonHolidayEntries | calendario-guarda.py:230-233 | one entry per common holiday; `HolidayFacts.HolidayClaimsOn` proves each holiday gets exactly one claim, for the parent its position and the year give |
| Claims.FirstFriday | calendario-guarda.py:239-241 | the first Friday of the year lies in its first week |
| Claims.WeekendBlock | calendario-guarda.py:251-254 | one weekend files only Friday to Sunday, inside the year, for one guardian |
| Claims.WeekendRun | calendario-guarda.py:249-257 | the weekend loop files only inside the year, from its first Friday on, at priority 3 |
| Claims.WeekendEntries | calendario-guarda.py:235-257 | every weekend claim of a year lies in that year |
| Claims.DatesOfOk | calendario-guarda.py:138-218 | the movable dates of a year satisfy every window the claim rules rely on |
| Claims.ChristmasEntries | calendario-guarda.py:123-128 | the two Natal entries; `ClaimFacts.ChristmasClaimsOn` proves they claim exactly December 24 and 25 |
| Claims.NewYearEntries | calendario-guarda.py:130-135 | the two Ano Novo entries; `ClaimFacts.NewYearClaimsOn` proves they claim exactly December 31 and the next January 1 |
| Claims.BirthdayEntries | calendario-guarda.py:152-155 | the birthday entry; `ClaimFacts.BirthdayClaimsOn` proves it claims exactly July 6 |
| Claims.ParentsDayEntries | calendario-guarda.py:175-180 | the two parents'-day entries; `ClaimFacts.ParentsDayClaimsOn` proves which day each claims and for whom |
| Claims.MidYearEntries | calendario-guarda.py:182-197 | the mid-year break loop; `BreakFacts.MidYearClaimsOn` proves which holder each of its days gets |
| Claims.YearEndEntries | calendario-guarda.py:199-213 | the year-end break loop; `BreakFacts.YearEndClaimsOn` proves which holder each of its days gets |
| Claims.DatesOf | calendario-guarda.py:138-218 | the movable dates of one year; `Claims.DatesOfOk` proves the windows they fall in |
| Claims.EntriesFor | calendario-guarda.py:119-257 | one year's filings, priority 0 first; `ClaimFacts.EntriesForClaimsOn` proves each day's claims are its priority-0 claims followed by the rest |
| Claims.MajorEntries | calendario-guarda.py:122-180 | the priority-0 filings; `ClaimFacts.MajorClaimsOn` splits each day's claims among the rules, in filing order |
| Claims.MinorEntries | calendario-guarda.py:182-257 | the filings of priority 1 to 3; `DayFacts.MinorClaimsOn` splits each day's claims among the rules, in filing order |
| Claims.YearEntries | calendario-guarda.py:119-257 | one pass of the year loop; `ClaimFacts.YearEntriesWithin` proves where its claims land and that each is of priority 3 or less |
| Store.File | calendario-guarda.py:128 | `setdefault(d, []).append(c)` adds `c` after `d`'s earlier claims, leaves every other day alone and leaves no day empty |
| Store.FileAllLookup | calendario-guarda.py:119-257 | filing a list of entries in order leaves under each day its earlier claims followed by the list's claims for it |
| Store.BuildFromLookup | calendario-guarda.py:119-257 | the dictionary after the year loop holds, under each day, every claim of every year for it, in filing order |
| Store.FileAll | calendario-guarda.py:119-257 | the `setdefault(...).append(...)` calls of a list of entries; `Store.FileAllLookup` proves what it leaves under each day |
| Store.AllEntries | calendario-guarda.py:119 | the filings of all years of the loop, in order; `Store.BuildFromLookup` proves the dictionary holds exactly their claims |
| Store.BuildFrom | calendario-guarda.py:117-257 | the dictionary the year loop builds; `Store.BuildFromLookup` proves what it holds under each day |
| Resolver.WithPriority | calendario-guarda.py:273 | keeps exactly the claims of one priority, in order |
| Resolver.MinPriority | calendario-guarda.py:274 | the smallest priority among the claims, held by one of them |
| Resolver.EarliestStrongest | calendario-guarda.py:273-274 | the first claim of the list with the minimal priority |
| Resolver.Insert | calendario-guarda.py:273 | inserting keeps every claim; the new claim goes ahead of the claims of its own priority, so claims filed earlier stay first |
| Resolver.InsertSorted | calendario-guarda.py:273 | inserting into a list sorted by priority keeps it sorted |
| Resolver.SortByPriority | calendario-guarda.py:273 | the sort is a permutation, sorted by priority, and stable: the claims of each priority keep their order |
| Resolver.SortedHeadIsEarliestStrongest | calendario-guarda.py:273-274 | after the stable sort the head is the earliest claim of minimal priority |
| Resolver.FirstStrongestWins | calendario-guarda.py:273-274 | when no claim beats the first one, the first one wins |
| Resolver.WeakerClaimsFirst | calendario-guarda.py:273-274 | when no later claim beats the first claim of a list and every claim put in front of the list is strictly weaker than that first claim, that first claim still wins |
| Resolver.Expected | calendario-guarda.py:271-282 | the record of one day; `Resolver.ExpectedIffClaimed` proves it exists exactly when the day has a claim and carries the minimal priority, and `Resolver.SortedHeadIsEarliestStrongest` proves its claim is the head of the stable sort |
| Resolver.ExpectedIffClaimed | calendario-guarda.py:271-282 | when every claim has priority 3 or less, a day gets an entry iff it has a claim, at the minimal priority |
| Resolver.ResolveDay | calendario-guarda.py:268-282 | the day's entry comes from the winner of its claim list, or is absent when the day has no claim |
| Resolver.RecordAhead | calendario-guarda.py:267-303 | putting an earlier entry in front keeps the list ascending and adds just that day |
| Resolver.ResolveFrom | calendario-guarda.py:267-303 | the day loop yields ascending entries, each within the range, one for exactly each day of the range that resolves to an entry |
| Resolver.GenerateWith | calendario-guarda.py:113-303 | an error exactly when a year out of range is needed; otherwise ascending entries, each day of the range resolved from every claim filed for it, and no day outside the range |
| Resolver.YearsSupportedIff | calendario-guarda.py:119-135 | the error condition in closed form: with `ano_inicio <= ano_fim`, the years need `1 <= ano_inicio` and `ano_fim + 1 <= 9999`; otherwise each bound needs 1..9999 (lines 263-264) |
| Years.StartsInOrder | calendario-guarda.py:119 | year starts grow at least 365 days per year |
| Years.NothingBefore | calendario-guarda.py:119-257 | no year of the loop files anything before its own January 1 |
| Years.OwnYear | calendario-guarda.py:119-257 | from the first year on, a day's claims in the whole dictionary come only from its own year's filings |
| Years.EarlyYearsSilent | calendario-guarda.py:119-257 | from January 22 of year j on, the years before j file nothing for the day |
| Years.ClaimsOfDay | calendario-guarda.py:119-257 | a day's claims are those the previous year spilled into early January, followed by its own year's claims |
| BreakFacts.SubPeriodShape | calendario-guarda.py:193-197 | a period files consecutive days for its guardian, stopping at the break's end |
| BreakFacts.PeriodsShape | calendario-guarda.py:193-197 | the periods file the first days of the break in turn, each day for the holder its place in the plan gives |
| BreakFacts.MidYearPlanShape | calendario-guarda.py:188-191 | the 5+10+5+10 plan covers 30 days; the first holder has days 0-4 and 15-19 |
| BreakFacts.MidYearClaimsOn | calendario-guarda.py:182-197 | each day of the filed part of the mid-year break gets one claim for its holder, other days none |
| BreakFacts.MidYearFather | calendario-guarda.py:184-191 | the father holds day i of the break iff whether i is in days 0-4 or 15-19 matches whether the year is even |
| BreakFacts.YearEndRunShape | calendario-guarda.py:203-213 | the year-end loop files every day of the break, changing hands after every 7 days |
| BreakFacts.YearEndClaimsOn | calendario-guarda.py:199-213 | day d of the year-end break gets one claim, for the first holder in even-numbered weeks of the break and the other parent in odd ones |
| BreakFacts.YearEndFather | calendario-guarda.py:201-211 | the father holds a year-end break day iff its week number's parity matches the year's oddness |
| BreakFacts.HandoverAlternates | calendario-guarda.py:257 | swapping the guardian each week gives week n to the first guardian iff n is even |
| BreakFacts.WeekendRunClaimsOn | calendario-guarda.py:249-257 | the weekend loop claims a day iff it is within the year and 0-2 days into a week from the start, for the guardian alternating by week |
| BreakFacts.EndOfWeekOffset | calendario-guarda.py:251-254 | counted from a Friday, the 0-2 day offsets are exactly Friday, Saturday and Sunday |
| BreakFacts.WeekendEntriesClaimsOn | calendario-guarda.py:235-257 | a day of the year gets a weekend claim iff it is a Friday-Sunday on or after the year's start weekend; the holder alternates by week from the first Friday, which would go to the father |
| ClaimFacts.MajorEntriesSpan | calendario-guarda.py:122-180 | priority-0 claims of year y land between January 1 of y and January 1 of y+1 |
| ClaimFacts.MajorEntriesPriority | calendario-guarda.py:122-180 | every claim of the first section has priority 0 |
| ClaimFacts.MinorEntriesSpan | calendario-guarda.py:182-257 | the break, holiday and weekend claims of year y land between January 1 of y and January 21 of y+1 |
| ClaimFacts.MinorEntriesPriority | calendario-guarda.py:182-257 | those claims have priority 1 to 3 and therefore all produce entries |
| ClaimFacts.YearEntriesWithin | calendario-guarda.py:119-257 | one year's filings land between its January 1 and January 21 of the next year, each with priority 3 or less |
| ClaimFacts.ChristmasClaimsOn | calendario-guarda.py:123-128 | Natal claims exactly December 24 and 25 |
| ClaimFacts.NewYearClaimsOn | calendario-guarda.py:130-135 | Ano Novo claims exactly December 31 and the next January 1 |
| ClaimFacts.HolyWeekClaimsOn | calendario-guarda.py:137-142 | Semana Santa claims exactly the days of the week, once each |
| ClaimFacts.CarnivalClaimsOn | calendario-guarda.py:144-150 | Carnaval claims exactly the three days around Carnival |
| ClaimFacts.BirthdayClaimsOn | calendario-guarda.py:152-155 | the child's birthday claims exactly July 6 |
| ClaimFacts.ParentsDayClaimsOn | calendario-guarda.py:175-180 | Dia dos Pais claims its date for the father and Dia das Mães its date for the mother, and nothing else |
| ClaimFacts.FixedDaysAvoidParentsDays | calendario-guarda.py:157-180 | no fixed family day falls in the week either parents' day can fall in |
| ClaimFacts.FixedEntriesOnHolidays | calendario-guarda.py:166-167 | the fixed days include December 25 and December 31 for the mother |
| ClaimFacts.ChristmasFirst | calendario-guarda.py:123-128 | Natal is the first priority-0 claim on December 24 and 25 |
| ClaimFacts.ChristmasTie | calendario-guarda.py:167 | Tio Filipe's birthday also claims December 25 at priority 0 |
| ClaimFacts.NewYearsEveFirst | calendario-guarda.py:130-133 | Ano Novo is the first priority-0 claim on December 31 |
| ClaimFacts.NewYearsEveTie | calendario-guarda.py:166 | Bisa Orquídea's birthday also claims December 31 at priority 0 |
| ClaimFacts.NewYearsDayFirst | calendario-guarda.py:134-135 | Ano Novo is the first claim year y files on January 1 of y+1 |
| ClaimFacts.HolyWeekFirst | calendario-guarda.py:137-142 | Semana Santa is the first priority-0 claim on each Holy Week day |
| ClaimFacts.CarnivalFirst | calendario-guarda.py:144-150 | Carnaval is the first priority-0 claim on its three days |
| ClaimFacts.BirthdayFirst | calendario-guarda.py:152-155 | the child's birthday is the first priority-0 claim on July 6 |
| ClaimFacts.FathersDayFirst | calendario-guarda.py:175-177 | Dia dos Pais is the first priority-0 claim on its day |
| ClaimFacts.MothersDayFirst | calendario-guarda.py:179-180 | Dia das Mães is the first priority-0 claim on its day |
| DayFacts.FixedDaysOutside | calendario-guarda.py:157-173 | no fixed family day claims a day between two month-days when no fixed day lies between them |
| DayFacts.CommonHolidaysSpread | calendario-guarda.py:216-228 | every common holiday lies between April 21 and December 8, and none between June 25 and August 15 |
| DayFacts.MinorClaimsOn | calendario-guarda.py:182-257 | below priority 0 a day gets the mid-year, year-end, common-holiday and weekend claims, in that order |
| DayFacts.FirstDayClaimsOf | calendario-guarda.py:119-257 | a year files for its own January 1 only a weekend claim for the father, when the year is odd and the day a Friday |
| DayFacts.MidYearDayClaims | calendario-guarda.py:182-197 | a mid-year break day other than July 6 has, apart from the weekend claim, only its break claim |
| DayFacts.WeekendClaimsWeakest | calendario-guarda.py:254 | weekend claims have priority 3, the weakest filed |
| DayFacts.DecemberBreakClaims | calendario-guarda.py:199-213 | a December break day other than December 24, 25 and 31 has, apart from the weekend claim, only its break claim, for the holder of its week; December 31 is covered by `Custody.NewYearsEveRecord` |
| DayFacts.CarriedBreakClaims | calendario-guarda.py:199-213 | what a year files for the next January is only its year-end break claim, apart from Ano Novo |
| DayFacts.CarriedClaimsWeak | calendario-guarda.py:199-213 | past January 1, what the previous year files has priority 1 or weaker |
| DayFacts.FixedDatesDistinct | calendario-guarda.py:158-170 | no two fixed family days share a date |
| DayFacts.OnlyEntryOn | calendario-guarda.py:128 | an entry whose date no other entry shares is the day's only claim |
| DayFacts.FixedDayClaimsOn | calendario-guarda.py:172-173 | each fixed family day gets exactly its own claim from the fixed list |
| DayFacts.JanuaryPlainDay | calendario-guarda.py:157-257 | a January day from the 2nd on, other than the 14th and 20th, gets from its own year only weekend claims |
| DayFacts.JanuaryFixedDay | calendario-guarda.py:157-173 | January 14 and 20 get their fixed claim first, then at most a weekend claim |
| DayFacts.MidYearEndsByAugust | calendario-guarda.py:59-60 | the mid-year break ends by August 1 |
| HolidayFacts.HolidaysInOrder | calendario-guarda.py:216-228 | the common holiday dates in calendar order: Tiradentes, Dia do Trabalho, Corpus Christi, then August to December |
| HolidayFacts.ChainDistinct | calendario-guarda.py:216-228 | eleven dates in that strict order are pairwise distinct |
| HolidayFacts.HolidayDatesDistinct | calendario-guarda.py:216-228 | no two common holidays share a date |
| HolidayFacts.HolidayClaimsOn | calendario-guarda.py:230-233 | each common holiday gets exactly one holiday claim, for the parent its position and the year give |
| HolidayFacts.HolidayOutsideBreaks | calendario-guarda.py:182-228 | no common holiday falls in either school break |
| HolidayFacts.HolidayMinor | calendario-guarda.py:182-257 | below priority 0 a common holiday is claimed by its holiday and at most a weekend |
| HolidayFacts.CorpusChristiFixed | calendario-guarda.py:160-161 | a fixed day claims Corpus Christi iff it falls on June 1 or June 12 |
| HolidayFacts.HolidayNotFixed | calendario-guarda.py:157-228 | no fixed family day falls on a common holiday other than Corpus Christi |
| HolidayFacts.HolidayPlace | calendario-guarda.py:216-228 | each common holiday lies off the mid-year gap and off May 8-14, and only Tiradentes lies before May 1 |
| HolidayFacts.HolidayWindow | calendario-guarda.py:122-228 | a common holiday is past Carnival and before Christmas, off July 6 and both parents' days, and after Holy Week unless it is Tiradentes |
| HolidayFacts.MajorBetweenFeasts | calendario-guarda.py:122-180 | between Carnival and Christmas, off July 6 and the parents' days, only Holy Week and the fixed days claim at priority 0 |
| HolidayFacts.HolidayMajor | calendario-guarda.py:122-228 | a common holiday has no priority-0 claim iff it is neither Tiradentes in Holy Week nor Corpus Christi on June 1 or 12 |
| HolidayFacts.HolidayDayClaimsOf | calendario-guarda.py:119-257 | a common holiday's claims are the priority-0 claims, then its holiday claim, then at most a weekend |
| HolidayFacts.HolidayClaimUnbeaten | calendario-guarda.py:215-257 | on a common holiday no priority-0 rule claims, the holiday's claim comes first and nothing beats it |
| HolidayFacts.HolidayInYear | calendario-guarda.py:216-228 | every common holiday lies in its year, after January 21 |
| HolidayFacts.HolidayRecord | calendario-guarda.py:231-233 | a common holiday no priority-0 rule claims goes to the father iff position plus year is even, weekend or not |
| HolidayFacts.TiradentesInHolyWeek | calendario-guarda.py:224 | when Tiradentes falls in Holy Week, Holy Week takes it |
| HolidayFacts.CorpusChristiMajor | calendario-guarda.py:157-173 | when Corpus Christi falls on June 1 or 12, that fixed birthday is its first priority-0 claim |
| HolidayFacts.CorpusChristiOnBirthday | calendario-guarda.py:160-161 | when Corpus Christi falls on June 1 or 12, the father gets the day for that birthday, not for the holiday |
| Custody.Generate | calendario-guarda.py:113-303 | an error exactly when the years leave 1..9999; otherwise the entries come in ascending date order, and each day from January 1 of the first year to December 31 of the last gets exactly the record its claims from every year of the loop resolve to, while no other day gets one |
| Custody.AllYearsSpill | calendario-guarda.py:119-257 | every year's claims lie between its January 1 and the next January 21 |
| Custody.RecordOfDay | calendario-guarda.py:267-303 | each day of the range resolves from what the previous year spilled into it and what its own year filed |
| Custody.RecordIffClaimed | calendario-guarda.py:271-282 | a day of the range gets an entry iff it has a claim, dated that day, at the minimal priority |
| Custody.NoRecordOutside | calendario-guarda.py:263-267 | no day outside January 1 of the first year to December 31 of the last gets an entry |
| Custody.FirstClaimRecords | calendario-guarda.py:273-282 | when a day's first claim is unbeaten, the entry is that claim |
| Custody.ChristmasRecord | calendario-guarda.py:123-128 | December 24 and 25 go to the father in odd years and the mother in even ones, for Natal |
| Custody.NewYearsEveRecord | calendario-guarda.py:130-133 | December 31 goes to the mother in odd years and the father in even ones, for Ano Novo |
| Custody.HolyWeekRecord | calendario-guarda.py:137-142 | each Holy Week day goes to the father in odd years and the mother in even ones |
| Custody.CarnivalRecord | calendario-guarda.py:144-150 | the three Carnival days go to the mother in odd years and the father in even ones |
| Custody.BirthdayRecord | calendario-guarda.py:152-155 | July 6 goes to the mother in odd years and the father in even ones |
| Custody.FathersDayRecord | calendario-guarda.py:175-177 | Dia dos Pais goes to the father |
| Custody.MothersDayRecord | calendario-guarda.py:179-180 | Dia das Mães goes to the mother |
| Custody.FirstYearNewYearsDay | calendario-guarda.py:134-135 | January 1 of the first year gets no Ano Novo entry; it gets a weekend entry for the father when the year is odd and the day a Friday, and none otherwise |
| Custody.NewYearsDayRecord | calendario-guarda.py:134-135 | January 1 of every later year goes to the previous year's Ano Novo guardian |
| Custody.MidYearRecord | calendario-guarda.py:182-197 | each mid-year break day other than July 6 goes to its holder, weekend or not |
| Custody.DecemberBreakRecord | calendario-guarda.py:199-213 | each December break day other than December 24, 25 and 31 goes to its week's holder, weekend or not; December 31 is covered by `Custody.NewYearsEveRecord` |
| Custody.JanuaryBreakRecord | calendario-guarda.py:199-213 | each January day of the previous year's break, other than January 1, 14 and 20, goes to that break's week holder, over any weekend |
| Custody.CarriedOverWeak | calendario-guarda.py:199-213 | past January 1, claims spilled from the previous year are priority 1 or weaker |
| Custody.OwnMajorOverCarried | calendario-guarda.py:122-180 | past January 1, a day's own first priority-0 claim beats whatever the previous year spilled into it |
| Custody.JanuaryFixedDayRecord | calendario-guarda.py:157-173 | January 14 goes to the father and January 20 to the mother, inside the previous year's break or not |
| Turns.MajorTurns | calendario-guarda.py:120-155 | follows from the guardian definitions: Natal, Ano Novo, Semana Santa, Carnaval and the birthday change hands every year and return after two |
| Turns.MajorSplit | calendario-guarda.py:124-154 | follows from the guardian definitions: whoever has Natal lacks Ano Novo; whoever has Semana Santa lacks Carnaval; the birthday goes with Ano Novo |
| Turns.BreakTurns | calendario-guarda.py:184-205 | follows from the holder definitions: each day of either school break changes hands from one year to the next |
| Turns.HolidayTurns | calendario-guarda.py:231-232 | follows from the guardian definition: adjacent holidays of the list, and the same holiday in adjacent years, go to different parents |
| Turns.FixedDaysEveryYear | calendario-guarda.py:157-173 | follows from the table: the fixed family days have the same guardian, reason and month-day every year |
| Turns.ParentsDaysEveryYear | calendario-guarda.py:175-180 | follows from the entry definitions: a parents'-day claim falls on a day iff it is that parents' day |

The general weekend rule has no dedicated record lemma. It follows from
`Custody.RecordIffClaimed`, `Custody.FirstClaimRecords` and
`BreakFacts.WeekendEntriesClaimsOn`. A Friday to Sunday with no stronger
claim goes to the weekend holder. That holder alternates weekly from the
year's first Friday.

## Left out

- The `ics` calendar, `Event`, colours, the file write, the prints and
  `__main__` (calendario-guarda.py:260-261, 283-319, 322-324) are output,
  not logic. The model returns the list of entries the events would carry.
- The unused `holidays` import (calendario-guarda.py:3), the unused
  variables `cor` (:291) and `dias_ferias` (:186), and the string literal
  that is dead code (:277-278) have no effect and are not modelled.
- Custom key functions and in-place mutation are not modelled. The sort at
  calendario-guarda.py:273 is Python's stable `list.sort` by priority. It is
  modelled as a functional stable insertion sort with the same head.
- Times of day (the noon "Pq?" event, :296-301) are not modelled. Each entry
  keeps its reason instead.
- The `try`/`except ValueError` branches at calendario-guarda.py:67-73 and
  85-90 never fire for a valid year. The model's functions are total over
  valid dates, and `DateRules.YearEndStartInDecember` proves that the January
  fallback at :76-79 is unreachable.
- The date rules are recomputed inside the loop in the program. The model
  computes them once per year (`Claims.DatesOf`), which gives the same
  values.
- HolidayFacts.HolidayRecord: covers the common holidays that no priority-0
  rule claims. The two shadowed cases, Tiradentes inside Holy Week and
  Corpus Christi on June 1 or 12, are covered by
  `HolidayFacts.TiradentesInHolyWeek` and
  `HolidayFacts.CorpusChristiOnBirthday`.
- Custody.MidYearRecord and Custody.DecemberBreakRecord: leave out July 6,
  December 24/25 and December 31. Those days go to the birthday, to Natal
  and to Ano Novo, as `Custody.BirthdayRecord`, `Custody.ChristmasRecord`
  and `Custody.NewYearsEveRecord` state.
