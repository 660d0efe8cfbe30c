/** The watchlist page (`src/app/watchlist/page.tsx`): it loads the signed-in
    user's saved stocks, refreshes each one's price and change from a live
    quote, removes entries optimistically and sorts the list for display. */
module WatchlistPage {
  import opened Wrappers
  import opened Types
  import opened Seqs
  import opened Text
  import opened Ranking
  import opened WatchlistStore
  import opened Api

  // ---------------------------------------------------------------- quote symbol

  /** The symbol a live quote is requested for: an NSE stock gets the suffix
      `.NS` unless it already ends with it; other stocks keep their symbol. */
  function QuerySymbol(s: Stock): (r: string)
    ensures s.exchange == "NSE" ==> EndsWith(r, ".NS")
    ensures s.exchange != "NSE" || EndsWith(s.symbol, ".NS") ==> r == s.symbol
    ensures r == s.symbol || r == s.symbol + ".NS"
  {
    if s.exchange == "NSE" && !EndsWith(s.symbol, ".NS") then
      var r := s.symbol + ".NS";
      assert r[|r| - 3..] == ".NS";
      r
    else s.symbol
  }

  /** The suffix is added at most once: a stock whose symbol already is its
      quote symbol asks for the same symbol again. */
  lemma QuerySymbolStable(s: Stock)
    ensures QuerySymbol(s.(symbol := QuerySymbol(s))) == QuerySymbol(s)
  {
  }

  // ---------------------------------------------------------------- refresh

  /** The outcome of one live lookup: a quote, `null` (no data), or a raised
      error (the dynamic import of the client failing). */
  datatype PriceFetch = Fetched(quote: RealStockData) | NoData | Failed

  /** One entry after its lookup: with a quote, `{...stock, price, changePercent}`;
      otherwise the entry as stored. */
  function Refresh(s: Stock, f: PriceFetch): (r: Stock)
    ensures r.(price := s.price, changePercent := s.changePercent) == s
    ensures f.Fetched? ==> r.price == f.quote.price && r.changePercent == f.quote.changePercent
    ensures !f.Fetched? ==> r == s
  {
    match f
    case Fetched(q) => s.(price := q.price, changePercent := q.changePercent)
    case _ => s
  }

  /** `Promise.all(data.map(...))`: every entry refreshed from the lookup of
      its own quote symbol, in the stored order. `fetch` stands for
      `fetchStockPrice(querySymbol)`. */
  function Enrich(stocks: seq<Stock>, fetch: string -> PriceFetch): (r: seq<Stock>)
    ensures |r| == |stocks|
    ensures forall i :: 0 <= i < |r| ==> r[i] == Refresh(stocks[i], fetch(QuerySymbol(stocks[i])))
  {
    if |stocks| == 0 then []
    else [Refresh(stocks[0], fetch(QuerySymbol(stocks[0])))] + Enrich(stocks[1..], fetch)
  }

  /** Refreshing keeps every entry's identity: the same ids at the same places,
      so the ids stay unique exactly when they were. */
  lemma EnrichKeepsIds(stocks: seq<Stock>, fetch: string -> PriceFetch)
    ensures forall i :: 0 <= i < |stocks| ==> Enrich(stocks, fetch)[i].id == stocks[i].id
    ensures forall id :: HasId(Enrich(stocks, fetch), id) <==> HasId(stocks, id)
    ensures UniqueIds(Enrich(stocks, fetch)) <==> UniqueIds(stocks)
  {
    SameIdsAgree(Enrich(stocks, fetch), stocks);
  }

  /** Refreshing twice with the same quotes is refreshing once: the quote
      symbol depends only on fields a refresh leaves alone. */
  lemma EnrichTwice(stocks: seq<Stock>, fetch: string -> PriceFetch)
    ensures Enrich(Enrich(stocks, fetch), fetch) == Enrich(stocks, fetch)
  {
  }

  /** Each entry is refreshed on its own: refreshing a list in two parts and
      joining them is refreshing the whole list. */
  lemma EnrichConcat(a: seq<Stock>, b: seq<Stock>, fetch: string -> PriceFetch)
    ensures Enrich(a + b, fetch) == Enrich(a, fetch) + Enrich(b, fetch)
  {
  }

  /** Dropping the entries with one id commutes with refreshing. */
  lemma {:induction false} EnrichFilter(stocks: seq<Stock>, fetch: string -> PriceFetch, id: int)
    ensures Filter((s: Stock) => s.id != id, Enrich(stocks, fetch))
         == Enrich(Filter((s: Stock) => s.id != id, stocks), fetch)
    decreases |stocks|
  {
    if |stocks| > 0 {
      var keep := (s: Stock) => s.id != id;
      var x, t := stocks[0], stocks[1..];
      var rx := Refresh(x, fetch(QuerySymbol(x)));
      var e := Enrich(t, fetch);
      assert Enrich(stocks, fetch) == [rx] + e;
      assert ([rx] + e)[1..] == e;
      assert Filter(keep, [rx] + e) == (if keep(x) then [rx] else []) + Filter(keep, e);
      EnrichFilter(t, fetch, id);
      if keep(x) {
        assert Filter(keep, stocks) == [x] + Filter(keep, t);
        assert ([x] + Filter(keep, t))[1..] == Filter(keep, t);
      }
    }
  }

  // ---------------------------------------------------------------- load

  /** What the page reads from the authentication provider. */
  datatype Session = Session(user: Option<UserId>, loading: bool)

  /** The loading effect: nothing happens while authentication is pending or
      without a user; otherwise the stored list, refreshed, replaces what is
      shown. */
  function LoadWatchlist(session: Session, store: Store, io: StoreIo, fetch: string -> PriceFetch,
                         shown: seq<Stock>): (r: seq<Stock>)
    ensures session.loading || session.user.None? ==> r == shown
    ensures !session.loading && session.user.Some? ==>
      var stored := Get(store, session.user.value, io);
      |r| == |stored| && forall i :: 0 <= i < |r| ==> r[i].id == stored[i].id
    ensures !session.loading && session.user.Some? ==>
      var stored := Get(store, session.user.value, io);
      forall i :: 0 <= i < |r| ==> r[i] == Refresh(stored[i], fetch(QuerySymbol(stored[i])))
    ensures !session.loading && session.user.Some? && Valid(store) ==> UniqueIds(r)
  {
    if session.loading || session.user.None? then shown
    else
      var stored := Get(store, session.user.value, io);
      EnrichKeepsIds(stored, fetch);
      Enrich(stored, fetch)
  }

  // ---------------------------------------------------------------- remove

  /** The page after `handleRemove`: the list shown, the store, and the
      notice raised. */
  datatype RemoveStep = RemoveStep(shown: seq<Stock>, store: Store, notice: Option<string>)

  const RemovedNotice: string := "Stock removed"

  /** `handleRemove(id)`: without a user nothing happens; otherwise the entry
      leaves the list at once, the store is asked to remove it, and the
      success notice follows whatever the store answered. */
  function HandleRemove(user: Option<UserId>, shown: seq<Stock>, id: int, store: Store, io: StoreIo): (r: RemoveStep)
    ensures user.None? ==> r == RemoveStep(shown, store, None)
    ensures user.Some? ==>
      && !HasId(r.shown, id)
      && SubsequenceOf(r.shown, shown)
      && (forall s :: s in shown && s.id != id ==> s in r.shown)
      && (forall s :: multiset(r.shown)[s] == if s.id != id then multiset(shown)[s] else 0)
      && r.store == Remove(store, user.value, id, io).store
      && r.notice == Some(RemovedNotice)
  {
    if user.None? then RemoveStep(shown, store, None)
    else
      var kept := Filter((s: Stock) => s.id != id, shown);
      FilterCounts((s: Stock) => s.id != id, shown);
      RemoveStep(kept, Remove(store, user.value, id, io).store, Some(RemovedNotice))
  }

  /** When the page shows the refreshed stored list and the store's remove
      succeeds, the page afterwards again shows the refreshed stored list. */
  lemma RemoveKeepsPageInStep(u: UserId, store: Store, io: StoreIo, fetch: string -> PriceFetch, id: int)
    requires Valid(store)
    requires Remove(store, u, id, io).ok
    ensures var r := HandleRemove(Some(u), Enrich(Get(store, u, io), fetch), id, store, io);
      r.shown == Enrich(Get(r.store, u, io), fetch)
  {
    RemoveLeavesNoEntry(store, u, id, io);
    EnrichFilter(Get(store, u, io), fetch, id);
  }

  /** The update is optimistic: when the store's write fails, the entry is
      gone from the page but still stored. */
  lemma FailedRemoveDiverges(u: UserId, shown: seq<Stock>, store: Store, io: StoreIo, id: int)
    requires !io.writeOk
    requires u in store && HasId(StocksOf(store[u]), id)
    ensures var r := HandleRemove(Some(u), shown, id, store, io);
      !HasId(r.shown, id) && HasId(StocksOf(r.store[u]), id) && r.notice == Some(RemovedNotice)
  {
  }

  // ---------------------------------------------------------------- sort

  /** The sort menu's values and the orders they select; any other value
      (`"default"`) keeps the stored order. */
  function SortOrderOf(choice: string): (r: Option<Order>)
    ensures r.Some? <==> choice in {"price-asc", "price-desc", "change-desc"}
    ensures choice == "price-asc" ==> r == Some(PriceAscending)
    ensures choice == "price-desc" ==> r == Some(PriceDescending)
    ensures choice == "change-desc" ==> r == Some(ChangeDescending)
  {
    if choice == "price-asc" then Some(PriceAscending)
    else if choice == "price-desc" then Some(PriceDescending)
    else if choice == "change-desc" then Some(ChangeDescending)
    else None
  }

  /** `getSortedStocks()`: a rearrangement of the shown list, sorted under the
      chosen order, or the list itself for the default choice. */
  function SortedStocks(choice: string, shown: seq<Stock>): (r: seq<Stock>)
    ensures multiset(r) == multiset(shown) && |r| == |shown|
    ensures SortOrderOf(choice).Some? ==> Sorted(SortOrderOf(choice).value, r)
    ensures SortOrderOf(choice).None? ==> r == shown
  {
    match SortOrderOf(choice)
    case None => shown
    case Some(o) => SortBy(o, shown)
  }
}
