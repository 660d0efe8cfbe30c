/** `WatchlistService` of `src/lib/firestore.ts`: one document per user in the
    `watchlists` collection, holding the saved stocks in its `stocks` array.

    The document store is the map `Store`; the two round trips each call makes
    (one read, at most one write) may fail, which `StoreIo` says. The array
    primitives `arrayUnion` and `arrayRemove` compare whole elements, as the
    document store does. */
module WatchlistStore {
  import opened Wrappers
  import opened Types
  import opened Seqs

  type UserId = string

  /** The document `watchlists/{userId}`; its `stocks` field may be missing. */
  datatype WatchlistDoc = WatchlistDoc(stocks: Option<seq<Stock>>)

  type Store = map<UserId, WatchlistDoc>

  /** Whether the document read, and the write if one is made, succeed. A
      failed step raises inside the service and is caught there. */
  datatype StoreIo = StoreIo(readOk: bool, writeOk: bool)

  /** The result of `addToWatchlist` / `removeFromWatchlist`: the store
      afterwards and the boolean the call resolves to. */
  datatype Update = Update(store: Store, ok: bool)

  /** `data().stocks || []`. */
  function StocksOf(d: WatchlistDoc): seq<Stock> {
    d.stocks.GetOr([])
  }

  /** Every stored watchlist keeps its ids unique. */
  ghost predicate Valid(store: Store) {
    forall u :: u in store ==> UniqueIds(StocksOf(store[u]))
  }

  /** The documents of users other than `u` are the same in `a` and `b`. */
  ghost predicate SameElsewhere(a: Store, b: Store, u: UserId) {
    forall v :: v != u ==> (v in a <==> v in b) && (v in a ==> a[v] == b[v])
  }

  /** `arrayUnion(x)`: appends `x` unless an equal element is already there. */
  function ArrayUnion(xs: seq<Stock>, x: Stock): (r: seq<Stock>)
    ensures x in r
    ensures forall y :: y in r <==> y in xs || y == x
    ensures xs <= r && |r| <= |xs| + 1
  {
    if x in xs then xs else xs + [x]
  }

  /** `arrayRemove(x)`: drops every element equal to `x`, keeping the rest in order. */
  function ArrayRemove(xs: seq<Stock>, x: Stock): (r: seq<Stock>)
    ensures x !in r
    ensures forall y :: y in r <==> y in xs && y != x
    ensures SubsequenceOf(r, xs)
  {
    Filter(y => y != x, xs)
  }

  /** `getWatchlist`: the stored list; `[]` when the document or its field is
      missing or the read fails. */
  function Get(store: Store, u: UserId, io: StoreIo): (r: seq<Stock>)
    ensures !io.readOk || u !in store ==> r == []
    ensures io.readOk && u in store ==> r == StocksOf(store[u])
  {
    if !io.readOk then []
    else if u !in store then []
    else StocksOf(store[u])
  }

  /** `addToWatchlist`. */
  function Add(store: Store, u: UserId, stock: Stock, io: StoreIo): (r: Update)
    // a failed step leaves the store as it was and resolves to false
    ensures !r.ok ==> r.store == store
    ensures r.ok <==> io.readOk && io.writeOk && !(u in store && HasId(StocksOf(store[u]), stock.id))
    // a user with no document gets exactly [stock]
    ensures r.ok && u !in store ==> u in r.store && r.store[u] == WatchlistDoc(Some([stock]))
    // otherwise the stock is appended behind the untouched earlier entries
    ensures r.ok ==> u in r.store && StocksOf(r.store[u]) == Get(store, u, io) + [stock]
    ensures SameElsewhere(store, r.store, u)
    ensures Valid(store) ==> Valid(r.store)
  {
    if !io.readOk then Update(store, false)
    else if u !in store then
      if io.writeOk then Update(store[u := WatchlistDoc(Some([stock]))], true)
      else Update(store, false)
    else
      var current := StocksOf(store[u]);
      if HasId(current, stock.id) then Update(store, false)
      else if io.writeOk then
        assert stock !in current;
        var next := ArrayUnion(current, stock);
        AppendFreshIdKeepsUnique(current, stock);
        Update(store[u := WatchlistDoc(Some(next))], true)
      else Update(store, false)
  }

  /** `k` is the position of the first entry with `id`. */
  predicate FirstWithId(xs: seq<Stock>, id: int, k: int) {
    0 <= k < |xs| && xs[k].id == id && forall j :: 0 <= j < k ==> xs[j].id != id
  }

  /** The list `removeFromWatchlist` writes back: the first entry with `id`,
      and every element equal to it, dropped; None when no entry has `id`. */
  function RemoveEntry(xs: seq<Stock>, id: int): (r: Option<seq<Stock>>)
    ensures r.None? <==> !HasId(xs, id)
    ensures r.Some? ==> exists k :: FirstWithId(xs, id, k) && r.value == ArrayRemove(xs, xs[k])
    ensures r.Some? && UniqueIds(xs) ==> UniqueIds(r.value)
  {
    match FindIndex((s: Stock) => s.id == id, xs)
    case None => None
    case Some(k) =>
      assert FirstWithId(xs, id, k);
      var next := ArrayRemove(xs, xs[k]);
      SubsequenceKeepsUnique(next, xs);
      Some(next)
  }

  /** `removeFromWatchlist`: finds the first entry with `id` and removes every
      element equal to it. */
  function Remove(store: Store, u: UserId, id: int, io: StoreIo): (r: Update)
    ensures !r.ok ==> r.store == store
    ensures r.ok <==> io.readOk && io.writeOk && u in store && HasId(StocksOf(store[u]), id)
    ensures r.ok ==> u in r.store
    ensures r.ok ==>
      exists k :: FirstWithId(StocksOf(store[u]), id, k) &&
        StocksOf(r.store[u]) == ArrayRemove(StocksOf(store[u]), StocksOf(store[u])[k])
    ensures SameElsewhere(store, r.store, u)
    ensures Valid(store) ==> Valid(r.store)
  {
    if !io.readOk || u !in store then Update(store, false)
    else
      match RemoveEntry(StocksOf(store[u]), id)
      case None => Update(store, false)
      case Some(next) =>
        if io.writeOk then Update(store[u := WatchlistDoc(Some(next))], true)
        else Update(store, false)
  }

  /** An add never loses an entry, and after an add whose read and write
      succeed the stock's id is stored, whether this call added it or it
      was there already. */
  lemma AddKeepsIds(store: Store, u: UserId, stock: Stock, io: StoreIo, id: int)
    ensures HasId(Get(store, u, io), id) ==> HasId(Get(Add(store, u, stock, io).store, u, io), id)
    ensures io.readOk && io.writeOk ==> HasId(Get(Add(store, u, stock, io).store, u, io), stock.id)
  {
    var r := Add(store, u, stock, io);
    if r.ok {
      var before := Get(store, u, io);
      var after := Get(r.store, u, io);
      assert after == before + [stock];
      assert after[|before|] == stock;
      if HasId(before, id) {
        var i :| 0 <= i < |before| && before[i].id == id;
        assert after[i] == before[i];
      }
    }
  }

  /** Appending a stock whose id is new keeps the ids unique. */
  lemma AppendFreshIdKeepsUnique(xs: seq<Stock>, x: Stock)
    requires !HasId(xs, x.id)
    ensures UniqueIds(xs) ==> UniqueIds(xs + [x])
    ensures ArrayUnion(xs, x) == xs + [x]
  {
    assert x !in xs;
  }

  /** Leaving elements out keeps the ids unique. */
  lemma {:induction false} SubsequenceKeepsUnique(r: seq<Stock>, xs: seq<Stock>)
    requires SubsequenceOf(r, xs)
    ensures UniqueIds(xs) ==> UniqueIds(r)
    ensures forall y :: y in r ==> y in xs
    decreases |xs|
  {
    if |r| == 0 {
    } else if r[0] == xs[0] && SubsequenceOf(r[1..], xs[1..]) {
      SubsequenceKeepsUnique(r[1..], xs[1..]);
      if UniqueIds(xs) {
        assert UniqueIds(xs[1..]);
        forall i, j | 0 <= i < j < |r| ensures r[i].id != r[j].id {
          if i == 0 {
            assert r[j] == r[1..][j - 1];
            assert r[j] in r[1..];
            assert r[j] in xs[1..];
            var m :| 0 <= m < |xs[1..]| && xs[1..][m] == r[j];
            assert xs[m + 1] == r[j];
          } else {
            assert r[i] == r[1..][i - 1] && r[j] == r[1..][j - 1];
          }
        }
      }
      forall y | y in r ensures y in xs {
        if y != r[0] { assert y in r[1..]; }
      }
    } else {
      SubsequenceKeepsUnique(r, xs[1..]);
      if UniqueIds(xs) { assert UniqueIds(xs[1..]); }
    }
  }

  /** With unique ids, removing the first entry with `id` by content leaves
      exactly the entries with other ids. */
  lemma RemoveUnderUniqueIds(xs: seq<Stock>, k: nat, id: int)
    requires UniqueIds(xs) && k < |xs| && xs[k].id == id
    ensures ArrayRemove(xs, xs[k]) == Filter((s: Stock) => s.id != id, xs)
  {
    UniqueIdsCountAtMostOne(xs, id);
    RemoveUnderUniqueIdsAux(xs, xs[k], (s: Stock) => s.id != id);
  }

  lemma {:induction false} RemoveUnderUniqueIdsAux(xs: seq<Stock>, x: Stock, keep: Stock -> bool)
    requires UniqueIds(xs)
    requires forall s :: keep(s) <==> s.id != x.id
    requires CountId(xs, x.id) <= 1
    requires HasId(xs, x.id) ==> x in xs
    ensures ArrayRemove(xs, x) == Filter(keep, xs)
    decreases |xs|
  {
    if |xs| > 0 {
      assert UniqueIds(xs[1..]);
      if xs[0].id == x.id {
        assert xs[0] == x;
        assert CountId(xs[1..], x.id) == 0;
      } else {
        assert HasId(xs[1..], x.id) ==> x in xs[1..] by {
          if HasId(xs[1..], x.id) {
            var m :| 0 <= m < |xs| && xs[m] == x;
            assert m != 0;
            assert xs[1..][m - 1] == x;
          }
        }
      }
      RemoveUnderUniqueIdsAux(xs[1..], x, keep);
    }
  }

  /** With unique ids there is at most one entry per id. */
  lemma {:induction false} UniqueIdsCountAtMostOne(xs: seq<Stock>, id: int)
    requires UniqueIds(xs)
    ensures CountId(xs, id) <= 1
    decreases |xs|
  {
    if |xs| > 0 {
      assert UniqueIds(xs[1..]);
      UniqueIdsCountAtMostOne(xs[1..], id);
      if xs[0].id == id {
        assert !HasId(xs[1..], id) by {
          forall m | 0 <= m < |xs[1..]| ensures xs[1..][m].id != id {
            assert xs[1..][m] == xs[m + 1];
          }
        }
      }
    }
  }

  /** Under the invariant, a successful remove leaves no entry with that id,
      and every other entry stays, in order. */
  lemma RemoveLeavesNoEntry(store: Store, u: UserId, id: int, io: StoreIo)
    requires Valid(store)
    requires Remove(store, u, id, io).ok
    ensures StocksOf(Remove(store, u, id, io).store[u]) == Filter((s: Stock) => s.id != id, StocksOf(store[u]))
    ensures !HasId(Get(Remove(store, u, id, io).store, u, io), id)
  {
    var xs := StocksOf(store[u]);
    var r := Remove(store, u, id, io);
    var k :| FirstWithId(xs, id, k) && StocksOf(r.store[u]) == ArrayRemove(xs, xs[k]);
    RemoveUnderUniqueIds(xs, k, id);
  }

  /** Adding the same stock twice stores it once: the second call resolves to
      false, and when the first call's read and write succeed there is exactly
      one entry with that id. */
  lemma AddTwice(store: Store, u: UserId, stock: Stock, io1: StoreIo, io2: StoreIo)
    requires Valid(store)
    ensures var first := Add(store, u, stock, io1);
            var second := Add(first.store, u, stock, io2);
            (first.ok ==> !second.ok) &&
            (u in second.store ==> CountId(StocksOf(second.store[u]), stock.id) <= 1) &&
            (io1.readOk && io1.writeOk ==> u in second.store && CountId(StocksOf(second.store[u]), stock.id) == 1)
  {
    var first := Add(store, u, stock, io1);
    var second := Add(first.store, u, stock, io2);
    if first.ok {
      assert StocksOf(first.store[u])[|StocksOf(first.store[u])| - 1] == stock;
      assert HasId(StocksOf(first.store[u]), stock.id);
    }
    if u in second.store {
      UniqueIdsCountAtMostOne(StocksOf(second.store[u]), stock.id);
    }
    if io1.readOk && io1.writeOk && !first.ok {
      assert HasId(StocksOf(store[u]), stock.id);
    }
  }

  /** A successful add followed by a successful remove of the same id restores
      what `getWatchlist` reads. */
  lemma AddThenRemoveRestores(store: Store, u: UserId, stock: Stock, io: StoreIo)
    requires Valid(store)
    requires Add(store, u, stock, io).ok
    ensures var added := Add(store, u, stock, io);
            var removed := Remove(added.store, u, stock.id, io);
            removed.ok && Get(removed.store, u, io) == Get(store, u, io)
  {
    var added := Add(store, u, stock, io);
    var before := Get(store, u, io);
    assert StocksOf(added.store[u]) == before + [stock];
    assert (before + [stock])[|before|] == stock;
    RemoveLeavesNoEntry(added.store, u, stock.id, io);
    var keep := (s: Stock) => s.id != stock.id;
    FilterConcat(keep, before, [stock]);
    assert Filter(keep, before) == before by {
      FilterKeepsAll(keep, before);
    }
  }

  /** Without the invariant a remove can leave an entry with the removed id:
      `arrayRemove` matches whole elements, and a second, different snapshot
      with the same id survives. */
  lemma RemoveNeedsUniqueIds(store: Store, u: UserId, a: Stock, b: Stock, io: StoreIo)
    requires a.id == b.id && a != b
    requires u in store && store[u] == WatchlistDoc(Some([a, b]))
    requires io.readOk && io.writeOk
    ensures Remove(store, u, a.id, io).ok
    ensures StocksOf(Remove(store, u, a.id, io).store[u]) == [b]
  {
    var xs := [a, b];
    assert xs[0].id == a.id;
    var r := Remove(store, u, a.id, io);
    var k :| FirstWithId(xs, a.id, k) && StocksOf(r.store[u]) == ArrayRemove(xs, xs[k]);
    assert !FirstWithId(xs, a.id, 1);
    var keep := (y: Stock) => y != a;
    assert xs[1..] == [b] && [b][1..] == [];
    assert Filter(keep, [b]) == [b] + Filter(keep, []);
    assert Filter(keep, xs) == Filter(keep, [b]);
  }
}
