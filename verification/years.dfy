/** How the years of a run share the claim store.  Each year files claims
    from its own January 1 up to January 21 of the next year (the end of
    its year-end break), so a day is claimed by its own year and, in its
    first three weeks, also by the year before.

    The lemmas here are stated for any first-day-of-year function `start`
    whose years are at least 365 days long; `YearStart` is one. */
module Years {
  import opened Calendar
  import opened Claims
  import opened Store
  import opened ClaimFacts

  /** Year `k` is at least 365 days long and files only dates from its
      first day to the 21st day of the year after. */
  predicate YearSpills(entriesOf: int -> seq<Entry>, start: int -> Date, k: int) {
    start(k) + 365 <= start(k + 1) && Within(entriesOf(k), start(k), start(k + 1) + 20)
  }

  /** Every year of `y .. y1` spills at most three weeks into the next. */
  predicate Spills(entriesOf: int -> seq<Entry>, start: int -> Date, y: int, y1: int) {
    forall k :: y <= k <= y1 ==> YearSpills(entriesOf, start, k)
  }

  /** A run of years that spills at most three weeks still does when its
      first years are dropped. */
  lemma SpillsSuffix(entriesOf: int -> seq<Entry>, start: int -> Date, y: int, y1: int, y': int)
    requires Spills(entriesOf, start, y, y1) && y <= y'
    ensures Spills(entriesOf, start, y', y1)
  {
  }

  /** Later years start later. */
  lemma {:induction false} StartsInOrder(entriesOf: int -> seq<Entry>, start: int -> Date, y: int, y1: int, a: int, b: int)
    requires Spills(entriesOf, start, y, y1) && y <= a <= b <= y1 + 1
    ensures start(a) + 365 * (b - a) <= start(b)
    decreases b - a
  {
    if a < b {
      StartsInOrder(entriesOf, start, y, y1, a, b - 1);
      assert YearSpills(entriesOf, start, b - 1);
    }
  }

  /** The years from `y` on file nothing before the first day of `y`. */
  lemma {:induction false} NothingBefore(entriesOf: int -> seq<Entry>, start: int -> Date, y: int, y1: int, d: Date)
    requires Spills(entriesOf, start, y, y1) && d < start(y)
    ensures ClaimsOn(AllEntries(entriesOf, y, y1), d) == []
    decreases y1 - y + 1
  {
    if y <= y1 {
      ClaimsOnAppend(entriesOf(y), AllEntries(entriesOf, y + 1, y1), d);
      assert YearSpills(entriesOf, start, y);
      ClaimsOnAbsent(entriesOf(y), d);
      SpillsSuffix(entriesOf, start, y, y1, y + 1);
      NothingBefore(entriesOf, start, y + 1, y1, d);
    }
  }

  /** The claims on day `d` of year `k` that year `k - 1` files, when `d`
      is in the first three weeks of `k` and `k - 1` is part of the run. */
  function CarriedOver(entriesOf: int -> seq<Entry>, start: int -> Date, y0: int, k: int, d: Date): seq<Claim> {
    if y0 < k && d <= start(k) + 20 then ClaimsOn(entriesOf(k - 1), d) else []
  }

  /** What the year before carries over is bounded as what it files. */
  lemma CarriedOverBound(entriesOf: int -> seq<Entry>, start: int -> Date, y0: int, k: int, d: Date, p: nat)
    requires y0 < k ==> NoneStronger(ClaimsOn(entriesOf(k - 1), d), p)
    ensures NoneStronger(CarriedOver(entriesOf, start, y0, k, d), p)
  {
  }

  /** A day of year `k` gets, from years `k .. y1`, only the claims of
      year `k`. */
  lemma OwnYear(entriesOf: int -> seq<Entry>, start: int -> Date, k: int, y1: int, d: Date)
    requires Spills(entriesOf, start, k, y1)
    requires k <= y1 && start(k) <= d < start(k + 1)
    ensures ClaimsOn(AllEntries(entriesOf, k, y1), d) == ClaimsOn(entriesOf(k), d)
  {
    ClaimsOnAppend(entriesOf(k), AllEntries(entriesOf, k + 1, y1), d);
    SpillsSuffix(entriesOf, start, k, y1, k + 1);
    NothingBefore(entriesOf, start, k + 1, y1, d);
  }

  /** Years that end (with their three-week spill) before `d` file nothing
      under it: from years `y .. y1`, `d` gets what years `j .. y1` give,
      once `d` is past the spill of year `j - 1`. */
  lemma {:induction false} EarlyYearsSilent(entriesOf: int -> seq<Entry>, start: int -> Date, y: int, y1: int, j: int, d: Date)
    requires Spills(entriesOf, start, y, y1)
    requires y <= j <= y1 && start(j) + 21 <= d
    ensures ClaimsOn(AllEntries(entriesOf, y, y1), d) == ClaimsOn(AllEntries(entriesOf, j, y1), d)
    decreases j - y
  {
    if y < j {
      ClaimsOnAppend(entriesOf(y), AllEntries(entriesOf, y + 1, y1), d);
      StartsInOrder(entriesOf, start, y, y1, y + 1, j);
      assert YearSpills(entriesOf, start, y);
      ClaimsOnAbsent(entriesOf(y), d);
      SpillsSuffix(entriesOf, start, y, y1, y + 1);
      EarlyYearsSilent(entriesOf, start, y + 1, y1, j, d);
    }
  }

  /** The claims found under a day of year `k` (`y0 <= k <= y1`) are those
      the year before files for it (only in its first three weeks, and only
      when that year is part of the run), followed by those of year `k`;
      no other year files anything under it. */
  lemma ClaimsOfDay(entriesOf: int -> seq<Entry>, start: int -> Date, y0: int, y1: int, k: int, d: Date)
    requires Spills(entriesOf, start, y0, y1)
    requires y0 <= k <= y1 && start(k) <= d < start(k + 1)
    ensures ClaimsOn(AllEntries(entriesOf, y0, y1), d)
            == CarriedOver(entriesOf, start, y0, k, d) + ClaimsOn(entriesOf(k), d)
  {
    SpillsSuffix(entriesOf, start, y0, y1, k);
    OwnYear(entriesOf, start, k, y1, d);
    if y0 < k && d <= start(k) + 20 {
      StartsInOrder(entriesOf, start, y0, y1, k - 1, k);
      EarlyYearsSilent(entriesOf, start, y0, y1, k - 1, d);
      ClaimsOnAppend(entriesOf(k - 1), AllEntries(entriesOf, k, y1), d);
    } else if y0 < k {
      EarlyYearsSilent(entriesOf, start, y0, y1, k, d);
    }
  }
}
