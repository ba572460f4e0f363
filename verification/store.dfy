/** The claim store `prioridades`: a map from each date to the claims filed
    under it, built by folding the years' entries in filing order. */
module Store {
  import opened Calendar
  import opened Claims

  type ClaimStore = map<Date, seq<Claim>>

  /** The claims under `d`, or none when `d` was never filed under. */
  function Lookup(store: ClaimStore, d: Date): seq<Claim> {
    if d in store then store[d] else []
  }

  /** No date is filed under with an empty list of claims. */
  predicate NoEmptyDays(store: ClaimStore) {
    forall d :: d in store ==> |store[d]| > 0
  }

  /** `prioridades.setdefault(e.date, []).append(e.claim)`. */
  function File(store: ClaimStore, e: Entry): (r: ClaimStore)
    ensures r.Keys == store.Keys + {e.date}
    ensures Lookup(r, e.date) == Lookup(store, e.date) + [e.claim]
    ensures forall d :: d != e.date ==> Lookup(r, d) == Lookup(store, d)
    ensures NoEmptyDays(store) ==> NoEmptyDays(r)
  {
    store[e.date := Lookup(store, e.date) + [e.claim]]
  }

  /** Files every entry of `es`, first to last. */
  function FileAll(store: ClaimStore, es: seq<Entry>): ClaimStore
    decreases |es|
  {
    if |es| == 0 then store else FileAll(File(store, es[0]), es[1..])
  }

  /** Filing a list of entries appends, under each date, exactly the claims
      of that date, in list order; the other dates keep what they had. */
  lemma {:induction false} FileAllLookup(store: ClaimStore, es: seq<Entry>, d: Date)
    ensures Lookup(FileAll(store, es), d) == Lookup(store, d) + ClaimsOn(es, d)
    ensures d in FileAll(store, es) <==> d in store || ClaimsOn(es, d) != []
    ensures NoEmptyDays(store) ==> NoEmptyDays(FileAll(store, es))
    decreases |es|
  {
    if |es| > 0 {
      FileAllLookup(File(store, es[0]), es[1..], d);
    }
  }

  /** All entries `entriesOf` gives for years `y` .. `y1`, year by year. */
  function AllEntries(entriesOf: int -> seq<Entry>, y: int, y1: int): seq<Entry>
    decreases y1 - y + 1
  {
    if y > y1 then [] else entriesOf(y) + AllEntries(entriesOf, y + 1, y1)
  }

  /** The `for ano in range(ano_inicio, ano_fim + 1)` loop, from year `y`
      on, over a store that already holds the earlier years; `entriesOf`
      is what the loop body files for one year. */
  function BuildFrom(store: ClaimStore, entriesOf: int -> seq<Entry>, y: int, y1: int): ClaimStore
    decreases y1 - y + 1
  {
    if y > y1 then store else BuildFrom(FileAll(store, entriesOf(y)), entriesOf, y + 1, y1)
  }

  /** The fold over years files, under each date, exactly the claims the
      years give for it, in year order and within a year in filing order. */
  lemma {:induction false} BuildFromLookup(store: ClaimStore, entriesOf: int -> seq<Entry>, y: int, y1: int, d: Date)
    ensures Lookup(BuildFrom(store, entriesOf, y, y1), d) == Lookup(store, d) + ClaimsOn(AllEntries(entriesOf, y, y1), d)
    ensures d in BuildFrom(store, entriesOf, y, y1) <==> d in store || ClaimsOn(AllEntries(entriesOf, y, y1), d) != []
    ensures NoEmptyDays(store) ==> NoEmptyDays(BuildFrom(store, entriesOf, y, y1))
    decreases y1 - y + 1
  {
    if y <= y1 {
      var next := FileAll(store, entriesOf(y));
      FileAllLookup(store, entriesOf(y), d);
      BuildFromLookup(next, entriesOf, y + 1, y1, d);
      ClaimsOnAppend(entriesOf(y), AllEntries(entriesOf, y + 1, y1), d);
    }
  }
}
