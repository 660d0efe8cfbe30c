/** The "Add to Watchlist" button of a stock's page
    (`src/components/feature/AddToWatchlistButton.tsx`): it shows whether the
    stock is saved, and saves it on a click. Its only state is `isAdded`. */
module AddButton {
  import opened Wrappers
  import opened Types
  import opened Seqs
  import opened WatchlistStore

  const LoginText: string := "Please login to add to watchlist"
  const AddedText: string := "Stock Added to Watchlist"
  const AlreadyText: string := "Stock already in watchlist"

  datatype Notice = ErrorNotice(text: string) | SuccessNotice(text: string) | InfoNotice(text: string)

  /** The effect run when the user or the stock changes. Without a user the
      flag is cleared; with one, the stored watchlist is read and the flag is
      raised when it holds the stock. It is never lowered while a user is
      signed in, and a failed read reads as an empty list. */
  function Sync(user: Option<UserId>, stockId: int, store: Store, io: StoreIo, isAdded: bool): (r: bool)
    ensures user.None? ==> !r
    ensures user.Some? ==> (r <==> isAdded || HasId(Get(store, user.value, io), stockId))
  {
    match user
    case None => false
    case Some(u) =>
      if Any((s: Stock) => s.id == stockId, Get(store, u, io)) then true else isAdded
  }

  /** The button after a click: the flag, the store, and the notice raised. */
  datatype Click = Click(isAdded: bool, store: Store, notice: Option<Notice>)

  /** `handleAdd`. Without a user it only asks for a login. The stock is looked
      up in the catalogue by id, and the first one carrying it is taken; an
      unknown id does nothing. Otherwise the
      store is asked to add it: true raises the flag and reports success, false
      leaves the flag and reports that the stock is already saved. */
  function HandleAdd(user: Option<UserId>, catalogue: seq<Stock>, stockId: int,
                     store: Store, io: StoreIo, isAdded: bool): (r: Click)
    ensures user.None? ==> r == Click(isAdded, store, Some(ErrorNotice(LoginText)))
    ensures user.Some? && !HasId(catalogue, stockId) ==> r == Click(isAdded, store, None)
    ensures user.Some? && HasId(catalogue, stockId) ==>
      exists k :: 0 <= k < |catalogue| && catalogue[k].id == stockId
        && (forall j :: 0 <= j < k ==> catalogue[j].id != stockId)
        && var added := Add(store, user.value, catalogue[k], io);
           r.store == added.store
           && (r.isAdded <==> added.ok || isAdded)
           && r.notice == Some(if added.ok then SuccessNotice(AddedText) else InfoNotice(AlreadyText))
    ensures isAdded ==> r.isAdded
    ensures r.notice.Some? && r.notice.value.SuccessNotice? <==> r.isAdded && r.store != store
  {
    match user
    case None => Click(isAdded, store, Some(ErrorNotice(LoginText)))
    case Some(u) =>
      match FindIndex((s: Stock) => s.id == stockId, catalogue)
      case None => Click(isAdded, store, None)
      case Some(k) =>
        var stock := catalogue[k];
        var added := Add(store, u, stock, io);
        AddChangesStore(store, u, stock, io);
        if added.ok then Click(true, added.store, Some(SuccessNotice(AddedText)))
        else Click(isAdded, added.store, Some(InfoNotice(AlreadyText)))
  }

  /** An add that resolves to true changes the store; one that resolves to
      false leaves it as it was. */
  lemma AddChangesStore(store: Store, u: UserId, stock: Stock, io: StoreIo)
    ensures Add(store, u, stock, io).ok <==> Add(store, u, stock, io).store != store
  {
    var r := Add(store, u, stock, io);
    if r.ok && u in store {
      var before := StocksOf(store[u]);
      assert StocksOf(r.store[u]) == before + [stock];
      assert |StocksOf(r.store[u])| != |before|;
    }
  }

  /** The button is disabled exactly while the stock is marked as saved, so
      a click on a saved stock never reaches `handleAdd`. */
  predicate Disabled(isAdded: bool) {
    isAdded
  }

  /** A click as the page delivers it: ignored while the button is disabled. */
  function Press(user: Option<UserId>, catalogue: seq<Stock>, stockId: int,
                 store: Store, io: StoreIo, isAdded: bool): (r: Click)
    ensures Disabled(isAdded) ==> r == Click(isAdded, store, None)
    ensures !Disabled(isAdded) ==> r == HandleAdd(user, catalogue, stockId, store, io, isAdded)
  {
    if Disabled(isAdded) then Click(isAdded, store, None)
    else HandleAdd(user, catalogue, stockId, store, io, isAdded)
  }

  /** Once a click has saved the stock, the button is disabled and a second
      click changes nothing. */
  lemma SecondPressIgnored(user: Option<UserId>, catalogue: seq<Stock>, stockId: int,
                           store: Store, io1: StoreIo, io2: StoreIo, isAdded: bool)
    requires Press(user, catalogue, stockId, store, io1, isAdded).isAdded
    ensures var first := Press(user, catalogue, stockId, store, io1, isAdded);
      Disabled(first.isAdded)
      && Press(user, catalogue, stockId, first.store, io2, first.isAdded) == Click(true, first.store, None)
  {
  }

  /** The flag agrees with the store: after a click that saved the stock, the
      effect, run again on the store it left behind (on a remount, with any
      starting flag), finds the stock and raises the flag whenever its read
      succeeds. */
  lemma {:induction false} SavedStockFoundAgain(u: UserId, catalogue: seq<Stock>, stockId: int,
                                                store: Store, io: StoreIo, readAgain: StoreIo, isAdded: bool)
    requires readAgain.readOk
    requires HandleAdd(Some(u), catalogue, stockId, store, io, isAdded).notice == Some(SuccessNotice(AddedText))
    ensures Sync(Some(u), stockId, HandleAdd(Some(u), catalogue, stockId, store, io, isAdded).store, readAgain, false)
  {
    var r := HandleAdd(Some(u), catalogue, stockId, store, io, isAdded);
    var k :| 0 <= k < |catalogue| && catalogue[k].id == stockId
      && (forall j :: 0 <= j < k ==> catalogue[j].id != stockId)
      && var added := Add(store, u, catalogue[k], io);
         r.store == added.store
         && (r.isAdded <==> added.ok || isAdded)
         && r.notice == Some(if added.ok then SuccessNotice(AddedText) else InfoNotice(AlreadyText));
    var stock := catalogue[k];
    var added := Add(store, u, stock, io);
    assert added.ok;
    var after := StocksOf(added.store[u]);
    assert after == Get(store, u, io) + [stock];
    assert after[|after| - 1].id == stockId;
    assert Get(added.store, u, readAgain) == after;
  }
}
