/** The registration screen's submit handler: an ordered chain of form checks,
    the request body built from the trimmed fields, and the mapping of the
    server's reply to the dialog the user sees. */
module Register {
  import opened Wrappers
  import opened Text
  import opened Ui

  /** The four text inputs of the form, as typed. */
  datatype Form = Form(phoneEmergency: string, password: string, confirmPassword: string, deviceId: string)

  /** The JSON body of `POST /auth/register`; the confirmation is not sent. */
  datatype Body = Body(phoneEmergency: string, password: string, deviceId: string)

  /** Why the form was refused before anything was sent. */
  datatype Invalid = MissingRequired | PasswordMismatch | PasswordTooShort

  /** The minimum password length, in JavaScript `length` units (UTF-16 code
      units). */
  const MinPasswordLength: nat := 6

  const MissingRequiredMessage: string := "Vui lòng điền đầy đủ thông tin bắt buộc"
  const PasswordMismatchMessage: string := "Mật khẩu xác nhận không khớp"
  const PasswordTooShortMessage: string := "Mật khẩu phải có ít nhất 6 ký tự"
  const RegisterFailedMessage: string := "Đăng ký thất bại"
  const RegisteredMessage: string := "Đăng ký tài khoản thành công. Vui lòng đăng nhập để tiếp tục."

  function InvalidMessage(e: Invalid): string {
    match e
    case MissingRequired => MissingRequiredMessage
    case PasswordMismatch => PasswordMismatchMessage
    case PasswordTooShort => PasswordTooShortMessage
  }

  /** All three required inputs hold something besides whitespace. */
  predicate Filled(f: Form) {
    !IsBlank(f.phoneEmergency) && !IsBlank(f.password) && !IsBlank(f.deviceId)
  }

  /** The checks, first failure wins: required fields (on trimmed text), then
      password against confirmation (untrimmed), then password length
      (untrimmed, counted in UTF-16 code units).  Only a form passing all three yields a body, and that body
      carries the trimmed fields. */
  function Validate(f: Form): (r: Result<Body, Invalid>)
    ensures r == Failure(MissingRequired) <==> !Filled(f)
    ensures r == Failure(PasswordMismatch) <==> Filled(f) && f.password != f.confirmPassword
    ensures r == Failure(PasswordTooShort) <==>
              Filled(f) && f.password == f.confirmPassword && Utf16Length(f.password) < MinPasswordLength
    ensures r.Success? <==>
              Filled(f) && f.password == f.confirmPassword && Utf16Length(f.password) >= MinPasswordLength
    ensures r.Success? ==>
              && r.value.phoneEmergency == Trim(f.phoneEmergency)
              && r.value.password == Trim(f.password)
              && r.value.deviceId == Trim(f.deviceId)
    ensures r.Success? ==>
              r.value.phoneEmergency != [] && r.value.password != [] && r.value.deviceId != []
  {
    if Trim(f.phoneEmergency) == [] || Trim(f.password) == [] || Trim(f.deviceId) == [] then
      Failure(MissingRequired)
    else if f.password != f.confirmPassword then
      Failure(PasswordMismatch)
    else if Utf16Length(f.password) < MinPasswordLength then
      Failure(PasswordTooShort)
    else
      Success(Body(Trim(f.phoneEmergency), Trim(f.password), Trim(f.deviceId)))
  }

  /** The length rule is checked before trimming, so whitespace padding can
      carry a short password through: whatever trimmed password `x` is padded
      to six UTF-16 code units or more is accepted and sent as `x`. */
  lemma PaddedPasswordAccepted(phone: string, pre: string, x: string, post: string, device: string)
    requires !IsBlank(phone) && !IsBlank(device)
    requires IsBlank(pre) && IsBlank(post) && IsTrimmed(x) && x != []
    requires Utf16Length(pre + x + post) >= MinPasswordLength
    ensures Validate(Form(phone, pre + x + post, pre + x + post, device))
            == Success(Body(Trim(phone), x, Trim(device)))
  {
    TrimOfPadded(pre, x, post);
    assert (pre + x + post)[|pre|] == x[0];
  }

  /** The padded password `"  ab  "` passes every check, yet the password sent
      is `"ab"`, two characters long. */
  lemma PaddedShortPasswordIsSent()
    ensures Validate(Form("0901234567", "  ab  ", "  ab  ", "dev-1")).Success?
    ensures |Validate(Form("0901234567", "  ab  ", "  ab  ", "dev-1")).value.password| == 2
    ensures Utf16Length(Validate(Form("0901234567", "  ab  ", "  ab  ", "dev-1")).value.password) == 2
  {
    assert Utf16Length("  ab  ") == 6 by { Utf16LengthAppend("  ", "ab  "); Utf16LengthAppend("ab", "  "); }
    assert Utf16Length("ab") == 2;
    assert "  ab  " == "  " + "ab" + "  ";
    assert !IsWhitespace("0901234567"[0]);
    assert !IsWhitespace("dev-1"[0]);
    PaddedPasswordAccepted("0901234567", "  ", "ab", "  ", "dev-1");
  }

  /** Length is counted as JavaScript counts it: three characters outside the
      Basic Multilingual Plane make six code units, so `"😀😀😀"` is long
      enough, while the five-character `"abcde"` is not. */
  lemma AstralPasswordLength()
    ensures Validate(Form("0901", "😀😀😀", "😀😀😀", "dev")).Success?
    ensures Validate(Form("0901", "abcde", "abcde", "dev")) == Failure(PasswordTooShort)
  {
    assert Utf16Length("😀😀😀") == 6 by {
      assert "😀😀😀"[1..] == "😀😀";
      assert "😀😀"[1..] == "😀";
      assert "😀"[1..] == "";
    }
    assert !IsWhitespace("0901"[0]) && !IsWhitespace("dev"[0]);
    assert !IsWhitespace("😀😀😀"[0]) && !IsWhitespace("abcde"[0]);
  }

  /** The outcome of `fetch` and `response.json()`, with HTTP and JSON
      abstracted away: either the server answered (`ok` is the 2xx test,
      `message` the body's `message` field when it has one), or an exception
      was thrown on the way (`error` is its message when it is an `Error`). */
  datatype Reply = Responded(ok: bool, message: Option<string>) | Thrown(error: Option<string>)

  /** The `catch` block: an `Error` shows its own message, anything else the
      generic fallback. */
  function CaughtAlert(error: Option<string>): (a: Alert)
    ensures a.title == ErrorTitle && a.onOk == Dismiss
    ensures error.Some? ==> a.message == error.value
    ensures error.None? ==> a.message == GenericErrorMessage
  {
    ErrorAlert(error.GetOr(GenericErrorMessage))
  }

  /** The dialog raised once the request has been sent.  A non-OK reply is
      turned into an `Error` carrying the body's message (or the registration
      fallback) and lands in the same `catch` as every other failure. */
  function ReplyAlert(reply: Reply): (a: Alert)
    ensures !(reply.Responded? && reply.ok) ==> a == ErrorAlert(a.message)
    ensures reply.Responded? && reply.ok ==> a.message == RegisteredMessage
    ensures a.title == SuccessTitle <==> reply.Responded? && reply.ok
    ensures a.onOk == GoBack <==> reply.Responded? && reply.ok
    ensures reply.Responded? && !reply.ok && reply.message.Some? ==> a.message == reply.message.value
    ensures reply.Responded? && !reply.ok && reply.message.None? ==> a.message == RegisterFailedMessage
    ensures reply.Thrown? && reply.error.Some? ==> a.message == reply.error.value
    ensures reply.Thrown? && reply.error.None? ==> a.message == GenericErrorMessage
  {
    match reply
    case Responded(true, _) => Alert(SuccessTitle, RegisteredMessage, GoBack)
    case Responded(false, message) => CaughtAlert(Some(message.GetOr(RegisterFailedMessage)))
    case Thrown(error) => CaughtAlert(error)
  }

  /** `handleRegister`: a refused form raises its one error dialog and returns
      before `isLoading` is touched; an accepted one sets `isLoading`, posts the
      body, raises the reply's dialog and clears `isLoading` again. */
  function HandleRegister(f: Form, reply: Reply): (trace: seq<Event<Body>>)
    ensures Validate(f).Failure? ==> trace == [Show(ErrorAlert(InvalidMessage(Validate(f).error)))]
    ensures Validate(f).Success? ==> Bracketed(trace)
    ensures Validate(f).Success? ==> trace[1] == Request(Validate(f).value)
    ensures Validate(f).Success? ==> Show(ReplyAlert(reply)) in trace
  {
    match Validate(f)
    case Failure(e) => [Show(ErrorAlert(InvalidMessage(e)))]
    case Success(body) => [SetLoading(true), Request(body), Show(ReplyAlert(reply)), SetLoading(false)]
  }

  /** A request is issued exactly when the form is valid, and then it is the
      validated body, sent once; the user sees exactly one dialog either way:
      the reply's for a sent request, the first failed check's otherwise. */
  lemma RegisterRequestsIffValid(f: Form, reply: Reply)
    ensures Requests(HandleRegister(f, reply)) == (if Validate(f).Success? then [Validate(f).value] else [])
    ensures Alerts(HandleRegister(f, reply)) ==
              (if Validate(f).Success? then [ReplyAlert(reply)]
               else [ErrorAlert(InvalidMessage(Validate(f).error))])
  {
    var t := HandleRegister(f, reply);
    if Validate(f).Success? {
      assert t[3..][1..] == [];
      assert Requests(t[3..]) == [] && Alerts(t[3..]) == [];
      assert t[2..][1..] == t[3..];
      assert Requests(t[2..]) == [] && Alerts(t[2..]) == [t[2].alert];
      assert t[1..][1..] == t[2..];
      assert Requests(t[1..]) == [Validate(f).value];
    } else {
      assert t[1..] == [];
    }
  }

  /** `isLoading` bracketing: a refused form leaves the flag as it was; a sent
      request runs with the flag on and ends with it off. */
  lemma RegisterLoadingBracketed(f: Form, reply: Reply, initial: bool)
    ensures Validate(f).Failure? ==> LoadingAfter(HandleRegister(f, reply), initial) == initial
    ensures Validate(f).Success? ==> LoadingAfter(HandleRegister(f, reply)[..2], initial)
    ensures !LoadingAfter(HandleRegister(f, reply), initial) || (Validate(f).Failure? && initial)
  {
  }
}
