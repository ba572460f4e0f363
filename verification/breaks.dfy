/** Closed forms of the three runs the claim generator files day by day:
    the mid-year break, the year-end break and the weekends.  Each run is
    shown to claim a contiguous stretch of days (or of Friday-to-Sunday
    blocks), once per day, with the guardian given by a formula on the
    day's offset rather than by the loop's counters. */
module BreakFacts {
  import opened Calendar
  import opened Claims

  /** `g` for even `n`, the other guardian for odd `n`: the holder of the
      `n`-th block of a run that starts with `g` and alternates. */
  function Alternate(g: Guardian, n: int): Guardian {
    if n % 2 == 0 then g else g.Other()
  }

  /** Starting one block later with the other guardian changes nothing. */
  lemma AlternateShift(g: Guardian, n: int)
    ensures Alternate(g.Other(), n) == Alternate(g, n + 1)
  {
  }

  /** How many of `n` days from `cur` fit before `end` (inclusive). */
  function Fit(n: nat, cur: Date, end: Date): (k: nat)
    ensures k <= n
  {
    if end < cur then 0 else if n <= end - cur + 1 then n else end - cur + 1
  }

  // ---------------------------------------------------------------------
  // Mid-year break
  // ---------------------------------------------------------------------

  /** One sub-period files the days `cur`, `cur + 1`, ... as far as they
      fit before `end`, all for `g`, and hands on the day after them. */
  lemma {:induction false} SubPeriodShape(n: nat, g: Guardian, cur: Date, end: Date)
    ensures |SubPeriod(n, g, cur, end).0| == Fit(n, cur, end)
    ensures SubPeriod(n, g, cur, end).1 == cur + Fit(n, cur, end)
    ensures forall i :: 0 <= i < Fit(n, cur, end) ==>
              SubPeriod(n, g, cur, end).0[i] == Entry(cur + i, Claim(VacationBlock, g, MidYearReason))
    decreases n
  {
    if n > 0 {
      if cur <= end {
        SubPeriodShape(n - 1, g, cur + 1, end);
        var rest := SubPeriod(n - 1, g, cur + 1, end);
        var r := SubPeriod(n, g, cur, end);
        assert r.0 == [Entry(cur, Claim(VacationBlock, g, MidYearReason))] + rest.0;
        forall i | 0 < i < Fit(n, cur, end)
          ensures r.0[i] == Entry(cur + i, Claim(VacationBlock, g, MidYearReason))
        {
          assert r.0[i] == rest.0[i - 1];
        }
      } else {
        SubPeriodShape(n - 1, g, cur, end);
      }
    }
  }

  /** Total length of a plan of sub-periods. */
  function PlanLength(ps: seq<(nat, Guardian)>): nat {
    if |ps| == 0 then 0 else ps[0].0 + PlanLength(ps[1..])
  }

  /** Who holds day `i` (counted from 0) of a plan of sub-periods. */
  function PlanHolder(ps: seq<(nat, Guardian)>, i: int): Guardian
    requires 0 <= i < PlanLength(ps)
    decreases |ps|
  {
    if i < ps[0].0 then ps[0].1 else PlanHolder(ps[1..], i - ps[0].0)
  }

  /** The sub-periods together file the days from `cur` on, one per day, as
      far as the plan's total length and `end` allow, each for the holder
      the plan gives that day. */
  lemma {:induction false} PeriodsShape(ps: seq<(nat, Guardian)>, cur: Date, end: Date)
    ensures |Periods(ps, cur, end)| == Fit(PlanLength(ps), cur, end)
    ensures forall i :: 0 <= i < Fit(PlanLength(ps), cur, end) ==>
              Periods(ps, cur, end)[i] == Entry(cur + i, Claim(VacationBlock, PlanHolder(ps, i), MidYearReason))
    decreases |ps|
  {
    if |ps| > 0 {
      var n := ps[0].0;
      var sub := SubPeriod(n, ps[0].1, cur, end);
      SubPeriodShape(n, ps[0].1, cur, end);
      PeriodsShape(ps[1..], sub.1, end);
      var r := Periods(ps, cur, end);
      var k := Fit(n, cur, end);
      assert r == sub.0 + Periods(ps[1..], sub.1, end);
      if k < n {
        assert Fit(PlanLength(ps[1..]), sub.1, end) == 0;
      }
      forall i | 0 <= i < Fit(PlanLength(ps), cur, end)
        ensures r[i] == Entry(cur + i, Claim(VacationBlock, PlanHolder(ps, i), MidYearReason))
      {
        if i >= k {
          assert r[i] == Periods(ps[1..], sub.1, end)[i - k];
        }
      }
    }
  }

  /** The program's plan: 5 days, 10 days, 5 days, 10 days, alternating. */
  function MidYearPlan(y: int): seq<(nat, Guardian)> {
    var first := MidYearFirst(y);
    [(5, first), (10, first.Other()), (5, first), (10, first.Other())]
  }

  /** Days 0-4 and 15-19 of the break go to the first holder, days 5-14
      and 20-29 to the other guardian. */
  function MidYearHolder(y: int, i: int): Guardian {
    if i < 5 || 15 <= i < 20 then MidYearFirst(y) else MidYearFirst(y).Other()
  }

  lemma MidYearPlanShape(y: int)
    ensures PlanLength(MidYearPlan(y)) == 30
    ensures forall i :: 0 <= i < 30 ==> PlanHolder(MidYearPlan(y), i) == MidYearHolder(y, i)
  {
    var ps: seq<(nat, Guardian)> := MidYearPlan(y);
    var first := MidYearFirst(y);
    assert ps[1..] == [(10, first.Other()), (5, first), (10, first.Other())];
    assert ps[1..][1..] == [(5, first), (10, first.Other())];
    assert ps[1..][1..][1..] == [(10, first.Other())];
    assert |ps[1..][1..][1..][1..]| == 0;
    assert PlanLength(ps[1..][1..][1..]) == 10;
    assert PlanLength(ps[1..][1..]) == 15;
    assert PlanLength(ps[1..]) == 25;
    forall i | 0 <= i < 30
      ensures PlanHolder(ps, i) == MidYearHolder(y, i)
    {
      if 5 <= i {
        assert PlanHolder(ps, i) == PlanHolder(ps[1..], i - 5);
        if 15 <= i {
          assert PlanHolder(ps[1..], i - 5) == PlanHolder(ps[1..][1..], i - 15);
          if 20 <= i {
            assert PlanHolder(ps[1..][1..], i - 15) == PlanHolder(ps[1..][1..][1..], i - 20);
          }
        }
      }
    }
  }

  /** The mid-year break claims each of its first 30 days that lie in the
      window exactly once, at priority 1, for the holder of the 5-10-5-10
      split, and claims no other day. */
  lemma MidYearClaimsOn(y: int, window: (Date, Date), d: Date)
    ensures ClaimsOn(MidYearEntries(y, window), d)
            == if window.0 <= d < window.0 + Fit(30, window.0, window.1)
               then [Claim(VacationBlock, MidYearHolder(y, d - window.0), MidYearReason)]
               else []
  {
    var es := MidYearEntries(y, window);
    MidYearPlanShape(y);
    PeriodsShape(MidYearPlan(y), window.0, window.1);
    ClaimsOnConsecutive(es, window.0, d);
  }

  /** A break of exactly 30 days is claimed on every one of its days: the
      father holds days 0-4 and 15-19 in even years and days 5-14 and
      20-29 in odd years. */
  lemma MidYearFather(y: int, window: (Date, Date), d: Date)
    requires window.1 == window.0 + 29 && window.0 <= d <= window.1
    ensures |ClaimsOn(MidYearEntries(y, window), d)| == 1
    ensures var i := d - window.0;
            ClaimsOn(MidYearEntries(y, window), d)[0].guardian == Father
            <==> (i < 5 || 15 <= i < 20) == !OddYear(y)
  {
    MidYearClaimsOn(y, window, d);
  }

  // ---------------------------------------------------------------------
  // Year-end break
  // ---------------------------------------------------------------------

  /** Day `i > 0` of a run whose first day closes a week is day `i - 1`
      of the next week's run. */
  lemma WeekAfterHandover(g: Guardian, i: int)
    requires 0 < i
    ensures Alternate(g.Other(), (i - 1) / 7) == Alternate(g, (6 + i) / 7)
  {
    assert (6 + i) / 7 == (i - 1) / 7 + 1;
    AlternateShift(g, (i - 1) / 7);
  }

  /** Entry `i` of `r` files day `cur + i` for the holder of week
      `(counter + i) / 7`. */
  predicate RunShaped(r: seq<Entry>, cur: Date, counter: int, g: Guardian) {
    forall i :: 0 <= i < |r| ==>
      r[i] == Entry(cur + i, Claim(VacationBlock, Alternate(g, (counter + i) / 7), YearEndReason))
  }

  /** A day filed ahead of a run in the same week extends it. */
  lemma RunShapedCons(rest: seq<Entry>, cur: Date, counter: int, g: Guardian)
    requires 0 <= counter < 6 && RunShaped(rest, cur + 1, counter + 1, g)
    ensures RunShaped([Entry(cur, Claim(VacationBlock, g, YearEndReason))] + rest, cur, counter, g)
  {
    var r := [Entry(cur, Claim(VacationBlock, g, YearEndReason))] + rest;
    forall i | 0 <= i < |r|
      ensures r[i] == Entry(cur + i, Claim(VacationBlock, Alternate(g, (counter + i) / 7), YearEndReason))
    {
      if i > 0 {
        assert r[i] == rest[i - 1];
      }
    }
  }

  /** A day closing a week, filed ahead of a run of the next week's
      holder, extends it. */
  lemma RunShapedHandover(rest: seq<Entry>, cur: Date, g: Guardian)
    requires RunShaped(rest, cur + 1, 0, g.Other())
    ensures RunShaped([Entry(cur, Claim(VacationBlock, g, YearEndReason))] + rest, cur, 6, g)
  {
    var r := [Entry(cur, Claim(VacationBlock, g, YearEndReason))] + rest;
    forall i | 0 <= i < |r|
      ensures r[i] == Entry(cur + i, Claim(VacationBlock, Alternate(g, (6 + i) / 7), YearEndReason))
    {
      if i > 0 {
        assert r[i] == rest[i - 1];
        WeekAfterHandover(g, i);
      }
    }
  }

  /** The run files every day from `cur` to `end` once; with the counter
      at `counter`, day `cur + i` falls in week `(counter + i) / 7`, and the
      holder alternates week by week starting with `g`. */
  lemma {:induction false} YearEndRunShape(cur: Date, end: Date, counter: int, g: Guardian)
    requires 0 <= counter < 7
    ensures |YearEndRun(cur, end, counter, g)| == if end < cur then 0 else end - cur + 1
    ensures RunShaped(YearEndRun(cur, end, counter, g), cur, counter, g)
    decreases end - cur + 1
  {
    if cur <= end {
      if counter + 1 == 7 {
        YearEndRunShape(cur + 1, end, 0, g.Other());
        RunShapedHandover(YearEndRun(cur + 1, end, 0, g.Other()), cur, g);
      } else {
        YearEndRunShape(cur + 1, end, counter + 1, g);
        RunShapedCons(YearEndRun(cur + 1, end, counter + 1, g), cur, counter, g);
      }
    }
  }

  /** The year-end break claims every day of its window once, at priority
      1, alternating by weeks of seven days counted from its start, and
      claims no other day. */
  lemma YearEndClaimsOn(y: int, window: (Date, Date), d: Date)
    ensures ClaimsOn(YearEndEntries(y, window), d)
            == if window.0 <= d <= window.1
               then [Claim(VacationBlock, Alternate(YearEndFirst(y), (d - window.0) / 7), YearEndReason)]
               else []
  {
    YearEndRunShape(window.0, window.1, 0, YearEndFirst(y));
    ClaimsOnConsecutive(YearEndEntries(y, window), window.0, d);
  }

  /** The father holds the even-numbered weeks of the break in odd years and
      the odd-numbered ones in even years. */
  lemma YearEndFather(y: int, window: (Date, Date), d: Date)
    requires window.0 <= d <= window.1
    ensures |ClaimsOn(YearEndEntries(y, window), d)| == 1
    ensures ClaimsOn(YearEndEntries(y, window), d)[0].guardian == Father
            <==> (((d - window.0) / 7) % 2 == 0) == OddYear(y)
  {
    YearEndClaimsOn(y, window, d);
  }

  // ---------------------------------------------------------------------
  // Weekends
  // ---------------------------------------------------------------------

  /** A day claimed at most by a single entry. */
  lemma ClaimsOnOptional(present: bool, e: Entry, d: Date)
    ensures ClaimsOn(if present then [e] else [], d)
            == if present && e.date == d then [e.claim] else []
  {
    if present {
      assert [e][1..] == [];
    }
  }

  lemma WeekendBlockClaimsOn(lo: Date, hi: Date, fri: Date, g: Guardian, d: Date)
    ensures ClaimsOn(WeekendBlock(lo, hi, fri, g), d)
            == if lo <= d <= hi && fri <= d <= fri + 2 then [Claim(Weekend, g, WeekendReason)] else []
  {
    var c := Claim(Weekend, g, WeekendReason);
    var a := if lo <= fri <= hi then [Entry(fri, c)] else [];
    var b := if lo <= fri + 1 <= hi then [Entry(fri + 1, c)] else [];
    var e := if lo <= fri + 2 <= hi then [Entry(fri + 2, c)] else [];
    assert WeekendBlock(lo, hi, fri, g) == a + b + e;
    ClaimsOnAppend(a + b, e, d);
    ClaimsOnAppend(a, b, d);
    ClaimsOnOptional(lo <= fri <= hi, Entry(fri, c), d);
    ClaimsOnOptional(lo <= fri + 1 <= hi, Entry(fri + 1, c), d);
    ClaimsOnOptional(lo <= fri + 2 <= hi, Entry(fri + 2, c), d);
  }

  /** Where day `d` falls relative to the week starting at `fri` and the
      week after it. */
  lemma NextWeek(fri: Date, d: Date)
    ensures fri <= d < fri + 7 ==> (d - fri) / 7 == 0 && (d - fri) % 7 == d - fri
    ensures fri + 7 <= d ==> (d - fri) / 7 == (d - (fri + 7)) / 7 + 1
                             && (d - fri) % 7 == (d - (fri + 7)) % 7
  {
  }

  /** The run claims nothing before its first Friday. */
  lemma WeekendRunBefore(lo: Date, hi: Date, fri: Date, g: Guardian, d: Date)
    requires d < fri
    ensures ClaimsOn(WeekendRun(lo, hi, fri, g), d) == []
  {
    ClaimsOnAbsent(WeekendRun(lo, hi, fri, g), d);
  }

  /** `Alternate`, counted out one block at a time. */
  function Handover(g: Guardian, n: nat): Guardian
    decreases n
  {
    if n == 0 then g else Handover(g.Other(), n - 1)
  }

  lemma {:induction false} HandoverAlternates(g: Guardian, n: nat)
    ensures Handover(g, n) == Alternate(g, n)
    decreases n
  {
    if n > 0 {
      HandoverAlternates(g.Other(), n - 1);
      AlternateShift(g, n - 1);
    }
  }

  /** In the week of its first Friday, the run claims that Friday,
      Saturday and Sunday, as far as they lie in the year, for `g`. */
  lemma WeekendRunFirstWeek(lo: Date, hi: Date, fri: Date, g: Guardian, d: Date)
    requires lo <= fri <= hi && fri <= d < fri + 7
    ensures ClaimsOn(WeekendRun(lo, hi, fri, g), d)
            == if d - fri <= 2 && lo <= d <= hi then [Claim(Weekend, g, WeekendReason)] else []
  {
    var block := WeekendBlock(lo, hi, fri, g);
    var rest := WeekendRun(lo, hi, fri + 7, g.Other());
    assert WeekendRun(lo, hi, fri, g) == block + rest;
    ClaimsOnAppend(block, rest, d);
    WeekendRunBefore(lo, hi, fri + 7, g.Other(), d);
    WeekendBlockClaimsOn(lo, hi, fri, g, d);
  }

  /** Past the week of its first Friday, the run claims what the run from
      the next Friday, with the other guardian, claims. */
  lemma WeekendRunLaterWeek(lo: Date, hi: Date, fri: Date, g: Guardian, d: Date)
    requires lo <= fri <= hi && fri + 7 <= d
    ensures ClaimsOn(WeekendRun(lo, hi, fri, g), d) == ClaimsOn(WeekendRun(lo, hi, fri + 7, g.Other()), d)
  {
    var block := WeekendBlock(lo, hi, fri, g);
    var rest := WeekendRun(lo, hi, fri + 7, g.Other());
    assert WeekendRun(lo, hi, fri, g) == block + rest;
    ClaimsOnAppend(block, rest, d);
    ClaimsOnAbsent(block, d);
  }

  /** Day `j` (0 Friday, 1 Saturday, 2 Sunday) of the `n`-th weekend from
      `fri` is claimed, when it lies in the year, by the holder of that
      weekend; the other days of its week are not claimed at all. */
  lemma {:induction false} WeekendRunOnWeek(lo: Date, hi: Date, fri: Date, g: Guardian, n: nat, j: int, d: Date)
    requires lo <= fri && 0 <= j < 7 && d == fri + 7 * n + j
    ensures ClaimsOn(WeekendRun(lo, hi, fri, g), d)
            == if j <= 2 && lo <= d <= hi then [Claim(Weekend, Handover(g, n), WeekendReason)] else []
    decreases n
  {
    if fri <= hi {
      if n == 0 {
        WeekendRunFirstWeek(lo, hi, fri, g, d);
      } else {
        WeekendRunLaterWeek(lo, hi, fri, g, d);
        WeekendRunOnWeek(lo, hi, fri + 7, g.Other(), n - 1, j, d);
      }
    } else {
      assert WeekendRun(lo, hi, fri, g) == [];
    }
  }

  /** From a Friday `fri` of the year `lo .. hi` on, the run claims the
      Friday, Saturday and Sunday of every week that lie in the year, the
      blocks alternating between `g` and the other guardian. */
  lemma WeekendRunClaimsOn(lo: Date, hi: Date, fri: Date, g: Guardian, d: Date)
    requires lo <= fri
    ensures ClaimsOn(WeekendRun(lo, hi, fri, g), d)
            == if lo <= d <= hi && fri <= d && (d - fri) % 7 <= 2
               then [Claim(Weekend, Alternate(g, (d - fri) / 7), WeekendReason)]
               else []
  {
    if d < fri {
      WeekendRunBefore(lo, hi, fri, g, d);
    } else {
      var n := (d - fri) / 7;
      var j := (d - fri) % 7;
      WeekendRunOnWeek(lo, hi, fri, g, n, j, d);
      HandoverAlternates(g, n);
    }
  }

  /** Friday, Saturday or Sunday. */
  predicate EndOfWeek(d: Date) {
    Weekday(d) >= Friday
  }

  /** Counted from a Friday `ff`, day `d` lies in week `(d - ff) / 7`,
      and it is a Friday to Sunday exactly when its offset in that week is
      at most 2. */
  lemma EndOfWeekOffset(ff: Date, d: Date)
    requires Weekday(ff) == Friday && ff <= d
    ensures EndOfWeek(d) <==> (d - ff) % 7 <= 2
  {
    WeekdayShift(ff, d - ff);
    assert ff + (d - ff) == d;
  }

  /** Counted from the first claimed Friday `start`, day `d` is a weekend
      day, and its holder, as counted from the first Friday `ff`. */
  lemma WeekendOffsets(ff: Date, odd: bool, start: Date, g: Guardian, d: Date)
    requires Weekday(ff) == Friday
    requires start == (if odd then ff else ff + 7) && g == (if odd then Father else Mother)
    requires start <= d
    ensures EndOfWeek(d) <==> (d - start) % 7 <= 2
    ensures Alternate(g, (d - start) / 7) == Alternate(Father, (d - ff) / 7)
  {
    EndOfWeekOffset(ff, d);
    NextWeek(ff, d);
    if !odd {
      AlternateShift(Father, (d - (ff + 7)) / 7);
    }
  }

  /** The weekend loop over the year `lo .. hi` whose first Friday is
      `ff`: from `ff` with the father when `odd`, from the week after with
      the mother otherwise.  Either way the father holds the weeks with an
      even number counted from `ff`. */
  lemma WeekendsFrom(lo: Date, hi: Date, ff: Date, odd: bool, start: Date, g: Guardian, d: Date)
    requires lo <= ff && Weekday(ff) == Friday
    requires start == (if odd then ff else ff + 7) && g == (if odd then Father else Mother)
    ensures ClaimsOn(WeekendRun(lo, hi, start, g), d)
            == if lo <= d <= hi && EndOfWeek(d) && start <= d
               then [Claim(Weekend, Alternate(Father, (d - ff) / 7), WeekendReason)]
               else []
  {
    WeekendRunClaimsOn(lo, hi, start, g, d);
    if start <= d {
      WeekendOffsets(ff, odd, start, g, d);
    }
  }

  /** The weekends of year `y`: every Friday, Saturday and Sunday of the
      year from its first Friday on is claimed at priority 3, except the
      first weekend of an even year; the father holds the weeks with an
      even number counted from the first Friday, the mother the others. */
  lemma WeekendEntriesClaimsOn(y: int, d: Date)
    ensures ClaimsOn(WeekendEntries(y), d)
            == if InYear(d, y) && EndOfWeek(d) && WeekendStart(y) <= d
               then [Claim(Weekend, Alternate(Father, (d - FirstFriday(y)) / 7), WeekendReason)]
               else []
  {
    WeekendsFrom(YearStart(y), YearEnd(y), FirstFriday(y), OddYear(y), WeekendStart(y), WeekendFirst(y), d);
  }
}
