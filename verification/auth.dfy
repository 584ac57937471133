/** The root layout's session handling: the persisted `isLoggedIn` key, the
    authentication context with its `login`/`logout` operations, and the route
    guard that keeps the tab group behind the login. */
module Auth {
  import opened Wrappers

  /** AsyncStorage, with its asynchronous I/O taken as synchronous. */
  type Storage = map<string, string>

  const LoggedInKey: string := "isLoggedIn"
  const TrueValue: string := "true"

  function GetItem(store: Storage, key: string): (v: Option<string>)
    ensures v.Some? <==> key in store
    ensures v.Some? ==> v.value == store[key]
  {
    if key in store then Some(store[key]) else None
  }

  /** The two stores agree on every key but `key`. */
  ghost predicate SameExcept(a: Storage, b: Storage, key: string) {
    && (forall k :: k != key ==> (k in a <==> k in b))
    && (forall k :: k != key && k in a ==> a[k] == b[k])
  }

  /** The startup read: logged in exactly when the key holds the string
      `"true"`; a missing key, or any other value, means logged out. */
  function StoredLoggedIn(store: Storage): (b: bool)
    ensures b <==> LoggedInKey in store && store[LoggedInKey] == TrueValue
  {
    GetItem(store, LoggedInKey) == Some(TrueValue)
  }

  /** The provider's state: what is persisted and the in-memory flag. */
  datatype Session = Session(store: Storage, isLoggedIn: bool)

  /** `login`: persist `"true"`, then raise the flag; no other key changes. */
  function Login(s: Session): (r: Session)
    ensures r.isLoggedIn && StoredLoggedIn(r.store)
    ensures SameExcept(s.store, r.store, LoggedInKey)
  {
    Session(s.store[LoggedInKey := TrueValue], true)
  }

  /** `logout`: remove the key, then lower the flag; no other key changes. */
  function Logout(s: Session): (r: Session)
    ensures !r.isLoggedIn && LoggedInKey !in r.store && !StoredLoggedIn(r.store)
    ensures SameExcept(s.store, r.store, LoggedInKey)
  {
    Session(s.store - {LoggedInKey}, false)
  }

  /** A fresh mount of the root layout: the flag starts false whatever is
      stored, and the store survives. */
  function Mount(store: Storage): (r: Session)
    ensures !r.isLoggedIn && r.store == store
  {
    Session(store, false)
  }

  /** The startup effect resolving: the flag becomes the stored value. */
  function LoadStored(s: Session): (r: Session)
    ensures r.store == s.store
    ensures r.isLoggedIn <==> LoggedInKey in s.store && s.store[LoggedInKey] == TrueValue
  {
    Session(s.store, StoredLoggedIn(s.store))
  }

  /** The value `useContext(AuthContext)` yields: the provider's, or the
      context's default when no provider is above the caller. */
  datatype Context = Default | Provided(session: Session)

  function IsLoggedIn(c: Context): bool {
    match c
    case Default => false
    case Provided(s) => s.isLoggedIn
  }

  /** Calling the context's `login`.  `writeFails` says whether the storage
      write rejects; the result pairs the new context with whether the call
      threw.  The default `login` does nothing and cannot throw. */
  function ContextLogin(c: Context, writeFails: bool): (r: (Context, bool))
    ensures c.Default? ==> r == (Default, false)
    ensures r.1 <==> c.Provided? && writeFails
    ensures r.1 ==> r.0 == c
    ensures c.Provided? && !writeFails ==> r.0 == Provided(Login(c.session))
  {
    match c
    case Default => (Default, false)
    case Provided(s) => if writeFails then (c, true) else (Provided(Login(s)), false)
  }

  /** Calling the context's `logout`; the default one does nothing. */
  function ContextLogout(c: Context): (r: Context)
    ensures !IsLoggedIn(r)
    ensures c.Default? ==> r == Default
    ensures c.Provided? ==> r == Provided(Logout(c.session))
  {
    match c
    case Default => Default
    case Provided(s) => Provided(Logout(s))
  }

  /** Without a provider the context is logged out and its operations are
      no-ops. */
  lemma DefaultContextInert(writeFails: bool)
    ensures !IsLoggedIn(Default)
    ensures ContextLogin(Default, writeFails) == (Default, false)
    ensures ContextLogout(Default) == Default
  {
  }

  /** The persisted flag round-trips through a restart: after `login` a fresh
      mount reads logged in, after `logout` it reads logged out. */
  lemma RestartRestoresFlag(s: Session)
    ensures LoadStored(Mount(Login(s).store)).isLoggedIn
    ensures !LoadStored(Mount(Logout(s).store)).isLoggedIn
  {
  }

  // ---------------------------------------------------------------------------
  // Route guard

  /** The first segment of every route inside the tab group. */
  const TabsGroup: string := "(tabs)"
  const LoginSegment: string := "login"

  /** Whether the current route lies in the protected tab group. */
  predicate InAuthGroup(segments: seq<string>) {
    |segments| > 0 && segments[0] == TabsGroup
  }

  /** Where `router.replace` sends the user: `/login` or `/(tabs)`. */
  datatype Target = ToLogin | ToTabs

  datatype Decision = Stay | Replace(target: Target)

  /** The guard effect of the root layout: a logged-out user inside the tab
      group is sent to the login screen, a logged-in user outside it is sent to
      the tabs, and the two consistent states are left alone. */
  function Guard(isLoggedIn: bool, segments: seq<string>): (d: Decision)
    ensures d == Replace(ToLogin) <==> !isLoggedIn && InAuthGroup(segments)
    ensures d == Replace(ToTabs) <==> isLoggedIn && !InAuthGroup(segments)
    ensures d == Stay <==> (isLoggedIn <==> InAuthGroup(segments))
  {
    var inAuthGroup := InAuthGroup(segments);
    if !isLoggedIn && inAuthGroup then Replace(ToLogin)
    else if isLoggedIn && !inAuthGroup then Replace(ToTabs)
    else Stay
  }

  /** The first route segment after replacing to `t`. */
  function FirstSegment(t: Target): string {
    match t
    case ToLogin => LoginSegment
    case ToTabs => TabsGroup
  }

  /** The route segments after acting on a decision. */
  function Navigate(segments: seq<string>, d: Decision): (r: seq<string>)
    ensures d.Stay? ==> r == segments
    ensures d.Replace? ==> |r| > 0 && r[0] == FirstSegment(d.target)
  {
    match d
    case Stay => segments
    case Replace(t) => [FirstSegment(t)]
  }

  /** The guard reaches a fixed point in one step: on any route the redirect
      leads to (not only the bare group route), it asks for nothing more. */
  lemma GuardSettles(isLoggedIn: bool, segments: seq<string>, landed: seq<string>)
    requires Guard(isLoggedIn, segments).Replace?
    requires |landed| > 0 && landed[0] == FirstSegment(Guard(isLoggedIn, segments).target)
    ensures Guard(isLoggedIn, landed) == Stay
  {
  }
}
