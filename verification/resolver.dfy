/** The day resolver of `gerar_calendario`: every day of the range gets the
    strongest claim filed under it, ties going to the claim filed first,
    and only days with a claim of priority 3 or stronger produce a record. */
module Resolver {
  import opened Calendar
  import opened Outcomes
  import opened Claims
  import opened Store

  // ---------------------------------------------------------------------
  // The strongest claim of a day, defined without sorting
  // ---------------------------------------------------------------------

  /** The claims of `s` whose priority is `p`, in their order in `s`. */
  function WithPriority(s: seq<Claim>, p: nat): (r: seq<Claim>)
    ensures |r| <= |s|
    ensures forall c :: c in r <==> c in s && c.priority == p
  {
    if |s| == 0 then []
    else
      assert forall c :: c in s <==> c == s[0] || c in s[1..];
      if s[0].priority == p then [s[0]] + WithPriority(s[1..], p) else WithPriority(s[1..], p)
  }

  /** The smallest (strongest) priority among the claims of `s`. */
  function MinPriority(s: seq<Claim>): (p: nat)
    requires |s| > 0
    ensures exists c :: c in s && c.priority == p
    ensures forall c :: c in s ==> p <= c.priority
  {
    if |s| == 1 then s[0].priority
    else
      var rest := MinPriority(s[1..]);
      assert forall c :: c in s <==> c == s[0] || c in s[1..];
      if s[0].priority <= rest then s[0].priority else rest
  }

  /** The first-filed claim among the strongest claims of `s`. */
  function EarliestStrongest(s: seq<Claim>): (c: Claim)
    requires |s| > 0
    ensures c in s && c.priority == MinPriority(s)
  {
    var p := MinPriority(s);
    var strongest := WithPriority(s, p);
    assert |strongest| > 0 by {
      var w :| w in s && w.priority == p;
      assert w in strongest;
    }
    strongest[0]
  }

  // ---------------------------------------------------------------------
  // `list.sort(key=lambda x: x[0])`
  // ---------------------------------------------------------------------

  predicate SortedByPriority(s: seq<Claim>) {
    forall i, j :: 0 <= i < j < |s| ==> s[i].priority <= s[j].priority
  }

  /** Places `c` before the first claim of `s` that is not stronger than it,
      so that `c` stays ahead of the claims of its own priority. */
  function Insert(c: Claim, s: seq<Claim>): (r: seq<Claim>)
    ensures multiset(r) == multiset(s) + multiset{c}
    ensures forall p :: WithPriority(r, p)
                        == if c.priority == p then [c] + WithPriority(s, p) else WithPriority(s, p)
  {
    if |s| == 0 || c.priority <= s[0].priority then
      assert ([c] + s)[1..] == s;
      [c] + s
    else
      var tail := Insert(c, s[1..]);
      assert s == [s[0]] + s[1..];
      assert ([s[0]] + tail)[1..] == tail;
      [s[0]] + tail
  }

  /** The tail of a sorted list is sorted, and its head is no weaker than
      any claim of the tail. */
  lemma SortedTail(s: seq<Claim>)
    requires |s| > 0 && SortedByPriority(s)
    ensures SortedByPriority(s[1..]) && NoneStronger(s[1..], s[0].priority)
  {
    forall x | x in s[1..]
      ensures s[0].priority <= x.priority
    {
      var i :| 0 <= i < |s[1..]| && s[1..][i] == x;
      assert s[i + 1] == x;
    }
  }

  /** A claim no weaker than any claim of a sorted list extends it. */
  lemma SortedCons(x: Claim, s: seq<Claim>)
    requires SortedByPriority(s) && NoneStronger(s, x.priority)
    ensures SortedByPriority([x] + s)
  {
    forall i, j | 0 <= i < j < |[x] + s|
      ensures ([x] + s)[i].priority <= ([x] + s)[j].priority
    {
      if i == 0 {
        assert ([x] + s)[j] == s[j - 1];
        assert s[j - 1] in s;
      }
    }
  }

  /** Inserting a claim no stronger than `p` keeps every claim no stronger
      than `p`. */
  lemma InsertNoneStronger(c: Claim, s: seq<Claim>, p: nat)
    requires NoneStronger(s, p) && p <= c.priority
    ensures NoneStronger(Insert(c, s), p)
  {
    forall x | x in Insert(c, s)
      ensures p <= x.priority
    {
      assert x in multiset(Insert(c, s));
      if x != c {
        assert x in multiset(s);
      }
    }
  }

  lemma {:induction false} InsertSorted(c: Claim, s: seq<Claim>)
    requires SortedByPriority(s)
    ensures SortedByPriority(Insert(c, s))
    decreases |s|
  {
    if |s| > 0 && c.priority > s[0].priority {
      SortedTail(s);
      InsertSorted(c, s[1..]);
      InsertNoneStronger(c, s[1..], s[0].priority);
      SortedCons(s[0], Insert(c, s[1..]));
      assert Insert(c, s) == [s[0]] + Insert(c, s[1..]);
    }
  }

  /** A stable insertion sort by priority: the result is sorted, is a
      permutation of `s`, and keeps the claims of every priority in their
      original order. */
  function SortByPriority(s: seq<Claim>): (r: seq<Claim>)
    ensures SortedByPriority(r)
    ensures multiset(r) == multiset(s)
    ensures forall p :: WithPriority(r, p) == WithPriority(s, p)
  {
    if |s| == 0 then []
    else
      assert s == [s[0]] + s[1..];
      InsertSorted(s[0], SortByPriority(s[1..]));
      Insert(s[0], SortByPriority(s[1..]))
  }

  /** Taking the head of the stably sorted list picks the earliest of the
      strongest claims. */
  lemma SortedHeadIsEarliestStrongest(s: seq<Claim>)
    requires |s| > 0
    ensures |SortByPriority(s)| == |s|
    ensures SortByPriority(s)[0] == EarliestStrongest(s)
  {
    var r := SortByPriority(s);
    assert |multiset(r)| == |multiset(s)|;
    var p := MinPriority(s);
    assert r[0] in multiset(s);
    var w :| w in s && w.priority == p;
    assert w in multiset(r);
    var k :| 0 <= k < |r| && r[k] == w;
    assert r[0].priority <= r[k].priority;
    assert r == [r[0]] + r[1..];
    assert WithPriority(r, p)[0] == r[0];
  }

  /** No claim of `s` is stronger than its first. */
  predicate FirstUnbeaten(s: seq<Claim>) {
    |s| > 0 && forall c :: c in s ==> s[0].priority <= c.priority
  }

  /** A first-filed claim that no other claim beats wins its day; in
      particular a first-filed claim of priority 0 always does. */
  lemma FirstStrongestWins(s: seq<Claim>)
    requires FirstUnbeaten(s)
    ensures EarliestStrongest(s) == s[0]
  {
    assert s == [s[0]] + s[1..];
    assert WithPriority(s, s[0].priority)[0] == s[0];
  }

  /** A claim filed ahead of claims no stronger than it is unbeaten. */
  lemma HeadUnbeaten(c: Claim, rest: seq<Claim>)
    requires NoneStronger(rest, c.priority)
    ensures FirstUnbeaten([c] + rest)
    ensures ([c] + rest)[0] == c
  {
    assert forall w :: w in [c] + rest ==> w == c || w in rest;
  }

  lemma {:induction false} WithPriorityAppend(a: seq<Claim>, b: seq<Claim>, p: nat)
    ensures WithPriority(a + b, p) == WithPriority(a, p) + WithPriority(b, p)
    decreases |a|
  {
    if |a| == 0 {
      assert a + b == b;
    } else {
      assert (a + b)[1..] == a[1..] + b;
      WithPriorityAppend(a[1..], b, p);
    }
  }

  lemma NoneAtPriority(a: seq<Claim>, p: nat)
    requires forall c :: c in a ==> c.priority != p
    ensures WithPriority(a, p) == []
  {
    if |WithPriority(a, p)| > 0 {
      assert WithPriority(a, p)[0] in WithPriority(a, p);
    }
  }

  lemma WeakerFirstMinPriority(a: seq<Claim>, s: seq<Claim>)
    requires FirstUnbeaten(s)
    requires forall c :: c in a ==> s[0].priority < c.priority
    ensures MinPriority(a + s) == s[0].priority
  {
    var p := MinPriority(a + s);
    assert s[0] in a + s;
    var w :| w in a + s && w.priority == p;
    assert w in a || w in s;
  }

  /** Claims filed first but all weaker than an unbeaten run of later
      claims do not change the winner: the first of the later claims still
      wins. */
  lemma WeakerClaimsFirst(a: seq<Claim>, s: seq<Claim>)
    requires FirstUnbeaten(s)
    requires forall c :: c in a ==> s[0].priority < c.priority
    ensures EarliestStrongest(a + s) == s[0]
  {
    var p := s[0].priority;
    WeakerFirstMinPriority(a, s);
    WithPriorityAppend(a, s, p);
    NoneAtPriority(a, p);
    assert s == [s[0]] + s[1..];
    assert WithPriority(s, p)[0] == s[0];
  }

  // ---------------------------------------------------------------------
  // One day
  // ---------------------------------------------------------------------

  /** What the calendar shows for one day: its date, assignee, reason and
      the priority of the winning claim. */
  datatype Record = Record(date: Date, guardian: Guardian, reason: string, priority: nat)

  /** The record the custody rules give day `d` with claims `cs`: the
      earliest strongest claim, recorded when it is of priority 3 or
      stronger; a day without claims counts as priority 4 and gives none. */
  function Expected(d: Date, cs: seq<Claim>): Option<Record> {
    if |cs| == 0 then None
    else
      var w := EarliestStrongest(cs);
      if w.priority <= Weekend then Some(Record(d, w.guardian, w.reason, w.priority)) else None
  }

  /** Every claim of `cs` is of priority 3 or stronger. */
  predicate AllRecorded(cs: seq<Claim>) {
    forall c :: c in cs ==> c.priority <= Weekend
  }

  /** Claims of priority 3 or stronger always produce a record. */
  lemma ExpectedIffClaimed(d: Date, cs: seq<Claim>)
    requires AllRecorded(cs)
    ensures Expected(d, cs).Some? <==> |cs| > 0
    ensures Expected(d, cs).Some? ==> Expected(d, cs).value.date == d
                                      && Expected(d, cs).value.priority == MinPriority(cs)
  {
  }

  /** One iteration of the `while data_atual <= data_fim` loop: sort the
      day's claims, take the first, and record it when its priority is at
      most 3. */
  function ResolveDay(store: ClaimStore, d: Date): (r: Option<Record>)
    requires NoEmptyDays(store)
    ensures r == Expected(d, Lookup(store, d))
  {
    if d !in store then None
    else
      var cs := store[d];
      SortedHeadIsEarliestStrongest(cs);
      var w := SortByPriority(cs)[0];
      if w.priority <= Weekend then Some(Record(d, w.guardian, w.reason, w.priority)) else None
  }

  // ---------------------------------------------------------------------
  // The range of days
  // ---------------------------------------------------------------------

  /** The first record of `rs` dated `d`, if any. */
  function RecordOn(rs: seq<Record>, d: Date): Option<Record> {
    if |rs| == 0 then None
    else if rs[0].date == d then Some(rs[0])
    else RecordOn(rs[1..], d)
  }

  predicate Ascending(rs: seq<Record>) {
    forall i, j :: 0 <= i < j < |rs| ==> rs[i].date < rs[j].date
  }

  /** The loop over days `d` .. `last`: the records come out in ascending
      date order, at most one per day, and the record found for each day of
      the range is that day's resolution. */
  function ResolveFrom(store: ClaimStore, d: Date, last: Date): (r: seq<Record>)
    requires NoEmptyDays(store)
    ensures Ascending(r)
    ensures forall i :: 0 <= i < |r| ==> d <= r[i].date <= last
    ensures forall x :: RecordOn(r, x) == if d <= x <= last then Expected(x, Lookup(store, x)) else None
    decreases last - d + 1
  {
    if d > last then []
    else
      var rest := ResolveFrom(store, d + 1, last);
      match ResolveDay(store, d)
      case None => rest
      case Some(rec) =>
        RecordAhead(rec, rest, last);
        [rec] + rest
  }

  /** A record filed ahead of later records within `last` keeps them
      ascending and within range, and is the one found for its own day. */
  lemma RecordAhead(rec: Record, rest: seq<Record>, last: Date)
    requires Ascending(rest)
    requires forall i :: 0 <= i < |rest| ==> rec.date < rest[i].date <= last
    ensures Ascending([rec] + rest)
    ensures forall x :: RecordOn([rec] + rest, x) == if x == rec.date then Some(rec) else RecordOn(rest, x)
  {
    assert ([rec] + rest)[1..] == rest;
  }

  // ---------------------------------------------------------------------
  // The whole run
  // ---------------------------------------------------------------------

  /** The range of years Python's `datetime` accepts. */
  const MinYear: int := 1
  const MaxYear: int := 9999

  /** `datetime` raises `ValueError` for a year outside its range. */
  datatype GenError = YearOutOfRange

  /** The years of all the dates the run builds: every year of the loop and
      the one after it (January 1 of the New Year claim, the January end of
      the year-end break), plus the first and last year of the day loop. */
  predicate YearBuilt(y0: int, y1: int, y: int) {
    y0 <= y <= y1 + 1 || y == y0 || y == y1
  }

  /** No date the run builds has a year `datetime` rejects. */
  ghost predicate YearsSupported(y0: int, y1: int) {
    forall y :: YearBuilt(y0, y1, y) ==> MinYear <= y <= MaxYear
  }

  /** The range check the run performs implicitly, as a condition on the
      two bounds. */
  predicate YearsInRange(y0: int, y1: int) {
    if y0 <= y1 then MinYear <= y0 && y1 + 1 <= MaxYear
    else MinYear <= y0 <= MaxYear && MinYear <= y1 <= MaxYear
  }

  /** `gerar_calendario(ano_inicio, ano_fim)` with the per-year claims given
      by `entriesOf`: build the claim store, then resolve every day from
      January 1 of `y0` to December 31 of `y1`. */
  function GenerateWith(entriesOf: int -> seq<Entry>, y0: int, y1: int): (r: Result<seq<Record>, GenError>)
    ensures r.Err? <==> !YearsSupported(y0, y1)
    ensures r.Ok? ==> Ascending(r.value)
    ensures r.Ok? ==> forall x :: RecordOn(r.value, x)
                               == if YearStart(y0) <= x <= YearEnd(y1)
                                  then Expected(x, ClaimsOn(AllEntries(entriesOf, y0, y1), x))
                                  else None
  {
    YearsSupportedIff(y0, y1);
    if !YearsInRange(y0, y1) then Err(YearOutOfRange)
    else
      var store := BuildFrom(map[], entriesOf, y0, y1);
      assert NoEmptyDays(store) && forall x :: Lookup(store, x) == ClaimsOn(AllEntries(entriesOf, y0, y1), x) by {
        forall x
          ensures Lookup(store, x) == ClaimsOn(AllEntries(entriesOf, y0, y1), x)
          ensures NoEmptyDays(store)
        {
          BuildFromLookup(map[], entriesOf, y0, y1, x);
        }
      }
      Ok(ResolveFrom(store, YearStart(y0), YearEnd(y1)))
  }

  /** The run fails exactly when Python's `datetime` would: with a
      non-empty year range, when the first year is below 1 or the year
      after the last is above 9999; with an empty one, only when either
      bound itself is outside 1 .. 9999. */
  lemma {:induction false} YearsSupportedIff(y0: int, y1: int)
    ensures YearsSupported(y0, y1) <==> YearsInRange(y0, y1)
  {
    if y0 <= y1 {
      assert YearBuilt(y0, y1, y0) && YearBuilt(y0, y1, y1 + 1);
      if MinYear <= y0 && y1 + 1 <= MaxYear {
        forall y | YearBuilt(y0, y1, y)
          ensures MinYear <= y <= MaxYear
        {
        }
      }
    } else {
      assert YearBuilt(y0, y1, y0) && YearBuilt(y0, y1, y1);
      if MinYear <= y0 <= MaxYear && MinYear <= y1 <= MaxYear {
        forall y | YearBuilt(y0, y1, y)
          ensures MinYear <= y <= MaxYear
        {
        }
      }
    }
  }
}
