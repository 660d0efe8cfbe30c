/** The records of `src/lib/types.ts`. */
module Types {
  import opened Wrappers

  datatype Volatility = Low | Medium | High

  /** A stock snapshot. Its identity is the numeric `id`; everything else is
      display data that may go stale. Prices and percentages are `real`
      (the source's floating-point numbers, compared by order only). The last
      three fields are optional in the source. */
  datatype Stock = Stock(
    id: int,
    symbol: string,
    name: string,
    sector: string,
    exchange: string,
    price: real,
    changePercent: real,
    marketCap: string,
    peRatio: real,
    volume: int,
    volatility: Volatility,
    oneYearReturn: real,
    description: string,
    sectorTag: Option<string>,
    isFno: Option<bool>,
    riskLabel: Option<string>)

  datatype SwipeAction = Like | Dislike

  /** A stock together with the time it was saved. */
  datatype WatchlistItem = WatchlistItem(stock: Stock, addedAt: int)

  /** The watchlist invariant: no two entries share an id. */
  ghost predicate UniqueIds(xs: seq<Stock>) {
    forall i, j :: 0 <= i < j < |xs| ==> xs[i].id != xs[j].id
  }

  /** Some entry of `xs` has identity `id` (`xs.some(s => s.id === id)`). */
  predicate HasId(xs: seq<Stock>, id: int) {
    exists i | 0 <= i < |xs| :: xs[i].id == id
  }

  /** How many entries of `xs` carry identity `id`. */
  function CountId(xs: seq<Stock>, id: int): (n: nat)
    ensures n <= |xs|
    ensures n == 0 <==> !HasId(xs, id)
  {
    if |xs| == 0 then 0
    else (if xs[0].id == id then 1 else 0) + CountId(xs[1..], id)
  }

  /** Two lists with the same ids at the same places have the same ids, and
      unique ids, alike. */
  lemma SameIdsAgree(a: seq<Stock>, b: seq<Stock>)
    requires |a| == |b| && forall i :: 0 <= i < |a| ==> a[i].id == b[i].id
    ensures forall id :: HasId(a, id) <==> HasId(b, id)
    ensures UniqueIds(a) <==> UniqueIds(b)
  {
    forall id ensures HasId(a, id) <==> HasId(b, id) {
      if HasId(a, id) {
        var i :| 0 <= i < |a| && a[i].id == id;
        assert b[i].id == id;
      }
      if HasId(b, id) {
        var i :| 0 <= i < |b| && b[i].id == id;
        assert a[i].id == id;
      }
    }
  }

  /** The sign rule shared by every card and table row: a stock is shown as
      rising when its change is not negative. */
  predicate IsPositive(s: Stock) {
    s.changePercent >= 0.0
  }
}
