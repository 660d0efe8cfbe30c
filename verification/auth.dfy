/** The authentication context (`src/context/AuthContext.tsx`): the signed-in
    user and whether the first answer of the authentication service is still
    awaited, as every page reads them, and the `logout` action. The service's
    session notifications are the input of the state machine. */
module Auth {
  import opened Wrappers
  import opened WatchlistStore
  import Types
  import WatchlistPage

  /** What `useAuth()` yields: the user (`null` is `None`) and `loading`. */
  datatype AuthState = AuthState(user: Option<UserId>, loading: bool)

  /** The provider's state before any notification: no user, still loading. */
  const Initial: AuthState := AuthState(None, true)

  /** The context's default value, seen by a consumer outside the provider. */
  const DefaultContext: AuthState := AuthState(None, true)

  /** One session notification: the user becomes the notified user (possibly
      nobody) and loading ends. */
  function Notify(st: AuthState, user: Option<UserId>): (r: AuthState)
    ensures r.user == user && !r.loading
  {
    AuthState(user, false)
  }

  /** The state after a run of notifications, oldest first. */
  function Replay(st: AuthState, notices: seq<Option<UserId>>): (r: AuthState)
    decreases |notices|
  {
    if |notices| == 0 then st
    else Replay(Notify(st, notices[0]), notices[1..])
  }

  /** Only the latest notification counts, and any notification ends loading:
      the state is the start state until the first one, and after that it is
      the last notified user with loading over. */
  lemma {:induction false} ReplayLast(st: AuthState, notices: seq<Option<UserId>>)
    ensures |notices| == 0 ==> Replay(st, notices) == st
    ensures |notices| > 0 ==> Replay(st, notices) == AuthState(notices[|notices| - 1], false)
    decreases |notices|
  {
    if |notices| > 1 {
      ReplayLast(Notify(st, notices[0]), notices[1..]);
      assert notices[1..][|notices[1..]| - 1] == notices[|notices| - 1];
    }
  }

  /** Replaying two runs one after the other is replaying them joined. */
  lemma {:induction false} ReplayConcat(st: AuthState, a: seq<Option<UserId>>, b: seq<Option<UserId>>)
    ensures Replay(st, a + b) == Replay(Replay(st, a), b)
    decreases |a|
  {
    if |a| > 0 {
      assert (a + b)[0] == a[0] && (a + b)[1..] == a[1..] + b;
      ReplayConcat(Notify(st, a[0]), a[1..], b);
      assert Replay(st, a + b) == Replay(Notify(st, a[0]), a[1..] + b);
      assert Replay(st, a) == Replay(Notify(st, a[0]), a[1..]);
    } else {
      assert a + b == b;
    }
  }

  /** Loading never comes back: once it is over, further notifications keep
      it over; from the start it is over exactly when a notification came. */
  lemma LoadingNeverReturns(st: AuthState, notices: seq<Option<UserId>>)
    ensures !st.loading ==> !Replay(st, notices).loading
    ensures Replay(Initial, notices).loading <==> |notices| == 0
  {
    ReplayLast(st, notices);
    ReplayLast(Initial, notices);
  }

  /** A consumer outside the provider sees what a consumer inside sees before
      the service's first answer. */
  lemma DefaultIsStartup()
    ensures DefaultContext == Replay(Initial, [])
  {
  }

  /** The watchlist page fetches nothing until the service has answered with
      a signed-in user: before any notification, or when the latest one is
      a sign-out, the page keeps what it shows. */
  lemma NoLoadWithoutUser(notices: seq<Option<UserId>>, store: Store, io: StoreIo,
                          fetch: string -> WatchlistPage.PriceFetch, shown: seq<Types.Stock>)
    requires |notices| == 0 || notices[|notices| - 1].None?
    ensures var st := Replay(Initial, notices);
      WatchlistPage.LoadWatchlist(WatchlistPage.Session(st.user, st.loading), store, io, fetch, shown) == shown
  {
    ReplayLast(Initial, notices);
  }

  const LoginRoute: string := "/login"

  /** What `logout` leaves behind: where the router goes, if anywhere, and
      whether a failure was logged. */
  datatype LogoutOutcome = LogoutOutcome(navigate: Option<string>, failureLogged: bool)

  /** `logout()`: sign out with the service and, only if that succeeds, go to
      the login page; a failure is logged and swallowed, so the call always
      completes normally. */
  function Logout(signOutOk: bool): (r: LogoutOutcome)
    ensures r.navigate.Some? <==> signOutOk
    ensures r.navigate.Some? ==> r.navigate.value == LoginRoute
    ensures r.failureLogged <==> !signOutOk
  {
    if signOutOk then LogoutOutcome(Some(LoginRoute), false)
    else LogoutOutcome(None, true)
  }
}
