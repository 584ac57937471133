/** What a screen handler does that the user can observe, written as an
    ordered trace: the `isLoading` flag it sets, the alert dialogs it raises
    and the side-effecting request it issues. */
module Ui {

  /** What pressing the single OK button of an alert does. */
  datatype OkAction = Dismiss | GoBack

  /** An `Alert.alert` dialog. */
  datatype Alert = Alert(title: string, message: string, onOk: OkAction)

  const ErrorTitle: string := "Lỗi"
  const SuccessTitle: string := "Thành công"

  /** The fallback text both screens show for an unexpected failure. */
  const GenericErrorMessage: string := "Có lỗi xảy ra, vui lòng thử lại"

  /** The plain error dialog every failure path raises. */
  function ErrorAlert(message: string): Alert {
    Alert(ErrorTitle, message, Dismiss)
  }

  /** One observable step of a handler.  `Request` is the screen's own side
      effect (the registration POST, the call to `login`). */
  datatype Event<+R> = SetLoading(on: bool) | Show(alert: Alert) | Request(request: R)

  /** The value of `isLoading` once `trace` has run from `initial`: the last
      value set, or `initial` when the trace never sets it. */
  function LoadingAfter<R>(trace: seq<Event<R>>, initial: bool): bool
    decreases |trace|
  {
    if trace == [] then initial
    else if trace[|trace| - 1].SetLoading? then trace[|trace| - 1].on
    else LoadingAfter(trace[..|trace| - 1], initial)
  }

  /** The requests issued by `trace`, in order. */
  function Requests<R>(trace: seq<Event<R>>): seq<R>
    decreases |trace|
  {
    if trace == [] then []
    else (if trace[0].Request? then [trace[0].request] else []) + Requests(trace[1..])
  }

  /** The alerts raised by `trace`, in order. */
  function Alerts<R>(trace: seq<Event<R>>): seq<Alert>
    decreases |trace|
  {
    if trace == [] then []
    else (if trace[0].Show? then [trace[0].alert] else []) + Alerts(trace[1..])
  }

  /** The trace switches `isLoading` on first, off last, and never in between:
      the shape of a `setIsLoading(true); try { … } finally { setIsLoading(false) }`
      block. */
  predicate Bracketed<R>(trace: seq<Event<R>>) {
    && |trace| >= 2
    && trace[0] == SetLoading(true)
    && trace[|trace| - 1] == SetLoading(false)
    && forall i :: 0 < i < |trace| - 1 ==> !trace[i].SetLoading?
  }

  /** A trace that never sets `isLoading` leaves it as it found it. */
  lemma {:induction false} LoadingUntouched<R>(trace: seq<Event<R>>, initial: bool)
    requires forall i :: 0 <= i < |trace| ==> !trace[i].SetLoading?
    ensures LoadingAfter(trace, initial) == initial
    decreases |trace|
  {
    if trace != [] {
      LoadingUntouched(trace[..|trace| - 1], initial);
    }
  }

  /** Inside a bracketed trace `isLoading` is on at every step after the first,
      and the trace always ends with it off, whatever it was before. */
  lemma BracketedLoading<R>(trace: seq<Event<R>>, initial: bool)
    requires Bracketed(trace)
    ensures forall k :: 1 <= k < |trace| ==> LoadingAfter(trace[..k], initial)
    ensures !LoadingAfter(trace, initial)
  {
    forall k | 1 <= k < |trace|
      ensures LoadingAfter(trace[..k], initial)
    {
      LoadingInside(trace, k, initial);
    }
  }

  lemma {:induction false} LoadingInside<R>(trace: seq<Event<R>>, k: nat, initial: bool)
    requires Bracketed(trace) && 1 <= k < |trace|
    ensures LoadingAfter(trace[..k], initial)
    decreases k
  {
    var p := trace[..k];
    if k > 1 {
      assert p[..k - 1] == trace[..k - 1];
      LoadingInside(trace, k - 1, initial);
    }
  }
}
