/** The app as the root layout drives it: the session state, the current
    route, and the user- and system-triggered steps that change them. */
module App {
  import opened Auth
  import Login

  datatype App = App(session: Session, segments: seq<string>)

  /** The steps the root layout reacts to. */
  datatype Action =
    | Restart(route: seq<string>)          // a cold start opening `route`
    | LoadStored                           // the startup read resolving
    | SubmitLogin(username: string, password: string, writeFails: bool)
    | SubmitLogout                         // the profile screen's logout
    | Visit(route: seq<string>)            // the user navigating
    | RunGuard                             // the route guard's effect firing

  /** The in-memory flag never claims a login that storage does not hold. */
  predicate FlagBacked(s: Session) {
    s.isLoggedIn ==> StoredLoggedIn(s.store)
  }

  /** The guard would not move the user. */
  predicate Settled(a: App) {
    Guard(a.session.isLoggedIn, a.segments) == Stay
  }

  function Step(a: App, act: Action): (r: App)
    ensures FlagBacked(a.session) ==> FlagBacked(r.session)
    ensures act.RunGuard? ==> Settled(r)
    ensures act.LoadStored? ==> (r.session.isLoggedIn <==> StoredLoggedIn(r.session.store))
  {
    match act
    case Restart(route) => App(Mount(a.session.store), route)
    case LoadStored => a.(session := Auth.LoadStored(a.session))
    case SubmitLogin(username, password, writeFails) =>
      var (c, _) := Login.Submit(Provided(a.session), username, password, writeFails);
      a.(session := if c.Provided? then c.session else a.session)
    case SubmitLogout => a.(session := Logout(a.session))
    case Visit(route) => a.(segments := route)
    case RunGuard => a.(segments := Navigate(a.segments, Guard(a.session.isLoggedIn, a.segments)))
  }

  function Run(a: App, acts: seq<Action>): App
    decreases |acts|
  {
    if acts == [] then a else Run(Step(a, acts[0]), acts[1..])
  }

  /** No sequence of steps, restarts included, lets the flag run ahead of
      storage. */
  lemma {:induction false} RunKeepsFlagBacked(a: App, acts: seq<Action>)
    requires FlagBacked(a.session)
    ensures FlagBacked(Run(a, acts).session)
    decreases |acts|
  {
    if acts != [] {
      RunKeepsFlagBacked(Step(a, acts[0]), acts[1..]);
    }
  }

  /** Running the guard a second time changes nothing. */
  lemma GuardStepIdempotent(a: App)
    ensures Step(Step(a, RunGuard), RunGuard) == Step(a, RunGuard)
  {
  }

  /** Only the demo credentials change the session; with them it is logged in
      unless the storage write fails. */
  lemma LoginStepEffect(a: App, username: string, password: string, writeFails: bool)
    ensures !Login.IsDemo(username, password) ==> Step(a, SubmitLogin(username, password, writeFails)) == a
    ensures Login.IsDemo(username, password) && !writeFails ==>
              Step(a, SubmitLogin(username, password, writeFails)).session == Auth.Login(a.session)
  {
  }

  /** After a logout, a cold start on any route ends, once the stored flag is
      read and the guard has run, logged out and outside the tab group. */
  lemma LogoutSurvivesRestart(a: App, route: seq<string>)
    ensures var r := Run(a, [SubmitLogout, Restart(route), LoadStored, RunGuard]);
      !r.session.isLoggedIn && !InAuthGroup(r.segments)
  {
    var a1 := Step(a, SubmitLogout);
    var a2 := Step(a1, Restart(route));
    var a3 := Step(a2, LoadStored);
    var a4 := Step(a3, RunGuard);
    assert !StoredLoggedIn(a1.session.store);
    var acts := [SubmitLogout, Restart(route), LoadStored, RunGuard];
    assert Run(a3, acts[3..]) == a4 by { assert acts[3..][1..] == []; }
    assert Run(a2, acts[2..]) == a4 by { assert acts[2..][1..] == acts[3..]; }
    assert Run(a1, acts[1..]) == a4 by { assert acts[1..][1..] == acts[2..]; }
    assert Run(a, acts) == a4;
  }

  /** After a successful demo login, a cold start on any route ends, once the
      stored flag is read and the guard has run, logged in and inside the tab
      group. */
  lemma LoginSurvivesRestart(a: App, route: seq<string>)
    ensures var r := Run(a, [SubmitLogin(Login.DemoUsername, Login.DemoPassword, false), Restart(route), LoadStored, RunGuard]);
      r.session.isLoggedIn && InAuthGroup(r.segments)
  {
    var acts := [SubmitLogin(Login.DemoUsername, Login.DemoPassword, false), Restart(route), LoadStored, RunGuard];
    var a1 := Step(a, acts[0]);
    var a2 := Step(a1, Restart(route));
    var a3 := Step(a2, LoadStored);
    var a4 := Step(a3, RunGuard);
    LoginStepEffect(a, Login.DemoUsername, Login.DemoPassword, false);
    assert StoredLoggedIn(a1.session.store);
    assert Run(a3, acts[3..]) == a4 by { assert acts[3..][1..] == []; }
    assert Run(a2, acts[2..]) == a4 by { assert acts[2..][1..] == acts[3..]; }
    assert Run(a1, acts[1..]) == a4 by { assert acts[1..][1..] == acts[2..]; }
    assert Run(a, acts) == a4;
  }
}
