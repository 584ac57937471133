/** The login screen's submit handler: a required-field check on trimmed
    input, then an exact comparison with the fixed demo credentials. */
module Login {
  import opened Text
  import opened Ui
  import Auth

  const DemoUsername: string := "admin"
  const DemoPassword: string := "admin"

  const MissingFieldsMessage: string := "Vui lòng nhập đầy đủ thông tin"
  const BadCredentialsMessage: string := "Tên đăng nhập hoặc mật khẩu không đúng"

  /** The one request the login screen makes: calling the context's `login`. */
  datatype LoginCall = CallLogin

  /** Exact, untrimmed match with the demo account. */
  predicate IsDemo(username: string, password: string) {
    username == DemoUsername && password == DemoPassword
  }

  /** `handleLogin`.  `loginThrows` says whether the awaited `login()` rejects.
      A blank field raises its dialog and returns before `isLoading` is set;
      otherwise the attempt runs between setting and clearing `isLoading`:
      the demo account calls `login` (and reports a generic error if that
      throws), any other pair reports bad credentials. */
  function HandleLogin(username: string, password: string, loginThrows: bool): (trace: seq<Event<LoginCall>>)
    ensures IsBlank(username) || IsBlank(password) ==> trace == [Show(ErrorAlert(MissingFieldsMessage))]
    ensures !IsBlank(username) && !IsBlank(password) ==> Bracketed(trace)
    ensures Request(CallLogin) in trace <==> IsDemo(username, password)
    ensures IsDemo(username, password) ==> trace[1] == Request(CallLogin)
  {
    if Trim(username) == [] || Trim(password) == [] then
      [Show(ErrorAlert(MissingFieldsMessage))]
    else
      var attempt :=
        if username == DemoUsername && password == DemoPassword then
          [Request(CallLogin)] + (if loginThrows then [Show(ErrorAlert(GenericErrorMessage))] else [])
        else
          [Show(ErrorAlert(BadCredentialsMessage))];
      [SetLoading(true)] + attempt + [SetLoading(false)]
  }

  /** Every outcome the handler can reach, with the dialogs each one shows. */
  lemma LoginOutcomes(username: string, password: string, loginThrows: bool)
    ensures var t := HandleLogin(username, password, loginThrows);
      && (IsBlank(username) || IsBlank(password) ==>
            Requests(t) == [] && Alerts(t) == [ErrorAlert(MissingFieldsMessage)])
      && (!IsBlank(username) && !IsBlank(password) && !IsDemo(username, password) ==>
            Requests(t) == [] && Alerts(t) == [ErrorAlert(BadCredentialsMessage)])
      && (IsDemo(username, password) ==>
            Requests(t) == [CallLogin]
            && Alerts(t) == (if loginThrows then [ErrorAlert(GenericErrorMessage)] else []))
  {
    var t := HandleLogin(username, password, loginThrows);
    if IsBlank(username) || IsBlank(password) {
      assert t[1..] == [];
    } else {
      assert t[|t| - 1..][1..] == [];
      assert Requests(t[|t| - 1..]) == [] && Alerts(t[|t| - 1..]) == [];
      if IsDemo(username, password) {
        assert !IsWhitespace(username[0]) by { assert username[0] == 'a'; }
        if loginThrows {
          assert t[3..] == t[|t| - 1..];
          assert t[2..][1..] == t[3..];
          assert Alerts(t[2..]) == [ErrorAlert(GenericErrorMessage)];
          assert t[1..][1..] == t[2..];
          assert Requests(t[1..]) == [CallLogin];
        } else {
          assert t[1..][1..] == t[2..];
        }
      } else {
        assert t[1..][1..] == t[2..];
      }
    }
  }

  /** Whitespace around the demo name gets past the blank check but not the
      exact match: `" admin"` is reported as bad credentials. */
  lemma PaddedDemoNameRejected(loginThrows: bool)
    ensures Alerts(HandleLogin(" admin", "admin", loginThrows)) == [ErrorAlert(BadCredentialsMessage)]
  {
    assert !IsWhitespace(" admin"[1]);
    assert !IsWhitespace("admin"[0]);
    LoginOutcomes(" admin", "admin", loginThrows);
  }

  /** `isLoading` bracketing: untouched by the blank check, on while the attempt
      runs and off afterwards on every path, the throwing one included. */
  lemma LoginLoadingBracketed(username: string, password: string, loginThrows: bool, initial: bool)
    ensures IsBlank(username) || IsBlank(password) ==>
              LoadingAfter(HandleLogin(username, password, loginThrows), initial) == initial
    ensures !IsBlank(username) && !IsBlank(password) ==>
              && !LoadingAfter(HandleLogin(username, password, loginThrows), initial)
              && LoadingAfter(HandleLogin(username, password, loginThrows)[..2], initial)
  {
  }

  /** The login screen acting on the authentication context: the handler runs
      with `login()` throwing exactly when the context's storage write fails,
      and the context changes only when `login` was called and succeeded. */
  function Submit(c: Auth.Context, username: string, password: string, writeFails: bool)
    : (r: (Auth.Context, seq<Event<LoginCall>>))
    ensures Auth.IsLoggedIn(r.0) <==>
              Auth.IsLoggedIn(c) || (IsDemo(username, password) && c.Provided? && !writeFails)
    ensures !IsDemo(username, password) ==> r.0 == c
    ensures r.0 == c || (c.Provided? && r.0 == Auth.Provided(Auth.Login(c.session)))
  {
    var (after, threw) := Auth.ContextLogin(c, writeFails);
    var trace := HandleLogin(username, password, threw);
    if Request(CallLogin) in trace then (after, trace) else (c, trace)
  }
}
