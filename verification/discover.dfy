/** The discover page (`src/app/discover/page.tsx`): a shuffled queue of the
    catalogue shown one card at a time; a right swipe saves the stock to the
    signed-in user's watchlist. */
module DiscoverPage {
  import opened Wrappers
  import opened Types
  import opened WatchlistStore
  import opened SwipeableCard

  // ---------------------------------------------------------------- queue

  /** The shuffled copy of the catalogue. The random comparator is replaced by
      a sequence of draws: each draw picks which remaining stock comes next
      (a missing draw picks the first). */
  function Shuffle(xs: seq<Stock>, draws: seq<nat>): (r: seq<Stock>)
    ensures |r| == |xs|
    ensures multiset(r) == multiset(xs)
    decreases |xs|
  {
    if |xs| == 0 then []
    else
      var k := (if |draws| > 0 then draws[0] else 0) % |xs|;
      var rest := xs[..k] + xs[k + 1..];
      assert xs == xs[..k] + [xs[k]] + xs[k + 1..];
      [xs[k]] + Shuffle(rest, if |draws| > 0 then draws[1..] else [])
  }

  /** The queue and the position of the card on top. */
  datatype DiscoverState = DiscoverState(queue: seq<Stock>, index: nat)

  /** What the page shows: nothing while the queue is empty, the end screen
      once every card is gone, or the current card. */
  datatype View = Loading | Finished | Showing(stock: Stock)

  function ViewOf(st: DiscoverState): (v: View)
    ensures v == Loading <==> |st.queue| == 0
    ensures v == Finished <==> |st.queue| > 0 && st.index >= |st.queue|
    ensures v.Showing? ==> st.index < |st.queue| && v.stock == st.queue[st.index]
  {
    if |st.queue| == 0 then Loading
    else if st.index >= |st.queue| then Finished
    else Showing(st.queue[st.index])
  }

  /** The mount effect and "Start Over": a fresh shuffle from the top. */
  function Restart(catalogue: seq<Stock>, draws: seq<nat>): (st: DiscoverState)
    ensures st.index == 0
    ensures multiset(st.queue) == multiset(catalogue)
    ensures |catalogue| > 0 ==> ViewOf(st).Showing?
  {
    DiscoverState(Shuffle(catalogue, draws), 0)
  }

  // ---------------------------------------------------------------- swipe

  datatype Notice = Success(text: string) | Info(text: string)

  const AddedText: string := "Stock Added to Watchlist"
  const AlreadyText: string := "Already in Watchlist"
  const LoginText: string := "Login to save to watchlist"

  /** The page and the store after a swipe, and the notice raised. */
  datatype SwipeOutcome = SwipeOutcome(state: DiscoverState, store: Store, notice: Option<Notice>)

  /** `handleSwipe(direction)`. The index always moves on. Past the end of
      the queue the current stock is undefined and reading its symbol throws
      before anything else happens. A right swipe with a user asks the store
      to add the stock and reports whether that call resolved to true; any
      false reads "Already in Watchlist". Without a user it invites a login. */
  function HandleSwipe(st: DiscoverState, d: Direction, user: Option<UserId>, store: Store, io: StoreIo): (r: SwipeOutcome)
    ensures r.state == st.(index := st.index + 1)
    ensures st.index >= |st.queue| || d == Left ==> r.store == store && r.notice.None?
    ensures st.index < |st.queue| && d == Right && user.None? ==>
      r.store == store && r.notice == Some(Info(LoginText))
    ensures st.index < |st.queue| && d == Right && user.Some? ==>
      var added := Add(store, user.value, st.queue[st.index], io);
      r.store == added.store && r.notice == Some(Success(if added.ok then AddedText else AlreadyText))
  {
    var next := st.(index := st.index + 1);
    if st.index >= |st.queue| then SwipeOutcome(next, store, None)
    else
      var current := st.queue[st.index];
      match d
      case Left => SwipeOutcome(next, store, None)
      case Right =>
        match user
        case None => SwipeOutcome(next, store, Some(Info(LoginText)))
        case Some(u) =>
          var added := Add(store, u, current, io);
          SwipeOutcome(next, added.store, Some(Success(if added.ok then AddedText else AlreadyText)))
  }

  /** A run of swipes, one after the other, with the same user and store
      behaviour throughout. */
  function Swipes(st: DiscoverState, ds: seq<Direction>, user: Option<UserId>, store: Store, io: StoreIo): (r: (DiscoverState, Store))
    ensures r.0 == st.(index := st.index + |ds|)
    ensures Valid(store) ==> Valid(r.1)
    ensures user.None? ==> r.1 == store
    decreases |ds|
  {
    if |ds| == 0 then (st, store)
    else
      var one := HandleSwipe(st, ds[0], user, store, io);
      Swipes(one.state, ds[1..], user, one.store, io)
  }

  /** Swipes never lose a saved stock. */
  lemma {:induction false} SwipesKeepIds(st: DiscoverState, ds: seq<Direction>, u: UserId, store: Store, io: StoreIo, id: int)
    requires HasId(Get(store, u, io), id)
    ensures HasId(Get(Swipes(st, ds, Some(u), store, io).1, u, io), id)
    decreases |ds|
  {
    if |ds| > 0 {
      var one := HandleSwipe(st, ds[0], Some(u), store, io);
      if st.index < |st.queue| && ds[0] == Right {
        AddKeepsIds(store, u, st.queue[st.index], io, id);
      }
      SwipesKeepIds(one.state, ds[1..], u, one.store, io, id);
    }
  }

  /** With a signed-in user and a store that answers, every stock swiped
      right is in the user's watchlist afterwards. */
  lemma LikedStocksSaved(st: DiscoverState, ds: seq<Direction>, u: UserId, store: Store, io: StoreIo)
    requires io.readOk && io.writeOk
    ensures var saved := Get(Swipes(st, ds, Some(u), store, io).1, u, io);
      forall i :: 0 <= i < |ds| && st.index + i < |st.queue| && ds[i] == Right ==>
        HasId(saved, st.queue[st.index + i].id)
  {
    forall i | 0 <= i < |ds| && st.index + i < |st.queue| && ds[i] == Right
      ensures HasId(Get(Swipes(st, ds, Some(u), store, io).1, u, io), st.queue[st.index + i].id)
    {
      LikedStockSaved(st, ds, u, store, io, i);
    }
  }

  /** The `i`-th swipe of a run, when it is a right swipe on a card, leaves
      that card's stock saved at the end of the run. */
  lemma {:induction false} LikedStockSaved(st: DiscoverState, ds: seq<Direction>, u: UserId, store: Store, io: StoreIo, i: nat)
    requires io.readOk && io.writeOk
    requires i < |ds| && st.index + i < |st.queue| && ds[i] == Right
    ensures HasId(Get(Swipes(st, ds, Some(u), store, io).1, u, io), st.queue[st.index + i].id)
    decreases i
  {
    var one := HandleSwipe(st, ds[0], Some(u), store, io);
    assert Swipes(st, ds, Some(u), store, io) == Swipes(one.state, ds[1..], Some(u), one.store, io);
    if i == 0 {
      var first := st.queue[st.index];
      AddKeepsIds(store, u, first, io, first.id);
      SwipesKeepIds(one.state, ds[1..], u, one.store, io, first.id);
    } else {
      assert ds[1..][i - 1] == ds[i];
      LikedStockSaved(one.state, ds[1..], u, one.store, io, i - 1);
    }
  }

  /** A full pass: after one swipe per card the end screen shows. */
  lemma PassEndsFinished(st: DiscoverState, ds: seq<Direction>, user: Option<UserId>, store: Store, io: StoreIo)
    requires |st.queue| > 0 && st.index == 0 && |ds| == |st.queue|
    ensures ViewOf(Swipes(st, ds, user, store, io).0) == Finished
  {
  }
}
