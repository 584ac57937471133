# Fall-detection client: form validation, demo login and route guard

A Dafny model of the three pieces of the fall-detection mobile client's own
logic that are more than view code:

- **Registration** (`handleRegister`, app/logup.tsx): an ordered chain of
  checks over the four form inputs (required fields on trimmed text, password
  equal to its confirmation, password at least 6 UTF-16 code units, both untrimmed),
  the `POST /auth/register` body built from the trimmed fields, the dialog the
  reply leads to, and the `isLoading` bracketing around the request.
- **Demo login** (`handleLogin`, app/login.tsx): a required-field check on
  trimmed input, then an exact, untrimmed comparison with the demo account
  `admin`/`admin`, which alone calls the context's `login`.
- **Session and route guard** (app/_layout.tsx): the persisted `isLoggedIn`
  storage key with `login`, `logout` and the startup read, the authentication
  context's default value, and the guard that sends a logged-out user out of
  the `(tabs)` group and a logged-in user into it.

Handlers are pure functions returning the ordered trace of what the user
observes (`Ui.Event`: setting `isLoading`, raising an alert, issuing the
request). Network replies, storage-write failures and the rejection of
`login()` are parameters. AsyncStorage is a `map<string, string>` updated
synchronously. The `App` module composes the steps — cold start, the startup
read resolving, login and logout, user navigation, the guard firing — into a
state machine.

Modules: `Wrappers` (Option, Result), `Text` (trimming), `Ui` (alerts and
event traces), `Register`, `Login`, `Auth` (storage, context, guard), `App`.

The login screen checks fixed demo credentials and makes no network call;
only the `isLoggedIn` flag is persisted.

## Model

| member | source | states |
|---|---|---|
| Text.Trim | app/logup.tsx:68-70 | the trimmed string has no whitespace at either end, is no longer than its input, and is empty exactly when the input is all whitespace (the falsy test the screens use) |
| Text.TrimDecomposes | app/logup.tsx:68-70 | every string is its trimmed form padded by whitespace on both sides |
| Text.TrimOfPadded | app/logup.tsx:68-70 | trimming any whitespace padding of a string without edge whitespace gives that string back; with TrimDecomposes this pins trimming down completely |
| Text.TrimIdempotent | app/login.tsx:27 | trimming twice equals trimming once |
| Text.Utf16Length | app/logup.tsx:54 | a string's JavaScript `length` counts UTF-16 code units: at least its character count and at most twice it, equal to it exactly when no character lies outside the Basic Multilingual Plane |
| Text.Utf16LengthAppend | app/logup.tsx:54 | code-unit lengths add up over concatenation |
| Ui.LoadingUntouched | app/logup.tsx:44-57 | a path that never calls `setIsLoading` leaves the flag as it found it |
| Ui.BracketedLoading | app/logup.tsx:59-97 | a `setIsLoading(true) … finally setIsLoading(false)` trace keeps the flag on at every inner step and always ends with it off |
| Register.Validate | app/logup.tsx:44-73 | a blank phone, password or device ID gives the required-fields error; otherwise a password different from its untrimmed confirmation gives the mismatch error; otherwise an untrimmed password under 6 UTF-16 code units gives the too-short error; only a form passing all three gives a body, made of the trimmed phone, password and device ID, each non-empty |
| Register.PaddedPasswordAccepted | app/logup.tsx:54-70 | a trimmed password padded with whitespace to 6 code units or more passes validation and is sent without its padding, whatever its own length |
| Register.PaddedShortPasswordIsSent | app/logup.tsx:54-69 | the password `"  ab  "` passes every check and the password sent is 2 characters long |
| Register.ReplyAlert | app/logup.tsx:77-94 | an OK reply gives the success dialog, with the registration-succeeded text, whose OK goes back; every other outcome is a plain error dialog: a non-OK reply shows its `message` or else the registration fallback; a thrown `Error` shows its message; anything else thrown shows the generic fallback |
| Register.AstralPasswordLength | app/logup.tsx:54-57 | three characters outside the Basic Multilingual Plane make six code units and pass the length rule, while a five-letter password is too short |
| Register.CaughtAlert | app/logup.tsx:92-94 | the catch block raises the error dialog with the thrown `Error`'s message, or the generic fallback for anything else thrown |
| Register.HandleRegister | app/logup.tsx:42-98 | a refused form raises exactly its error dialog and nothing else; an accepted form sets `isLoading`, posts the validated body, raises the dialog the reply calls for, and clears `isLoading` last |
| Register.RegisterRequestsIffValid | app/logup.tsx:44-73 | a request is sent exactly when the form is valid, once, with the validated body; exactly one dialog is raised on every path: the reply's after a sent request, the failed check's otherwise |
| Register.RegisterLoadingBracketed | app/logup.tsx:47-96 | a refused form leaves `isLoading` as it was; while the request is out `isLoading` is on, and afterwards it is off |
| Login.HandleLogin | app/login.tsx:26-48 | a blank username or password raises only the fill-in-all-fields dialog; otherwise the attempt is bracketed by `isLoading`; `login` is called exactly when both fields equal `admin` untrimmed, and then right after `isLoading` is set, before any dialog |
| Login.LoginOutcomes | app/login.tsx:27-44 | blank input shows only the required-fields dialog and calls nothing; any other non-demo pair shows only the bad-credentials dialog; the demo pair calls `login` once and shows the generic error exactly when that call throws |
| Login.PaddedDemoNameRejected | app/login.tsx:27-41 | `" admin"` passes the blank check but is reported as bad credentials |
| Login.LoginLoadingBracketed | app/login.tsx:30-47 | the blank check leaves `isLoading` as it was; past it `isLoading` is on during the attempt and off afterwards on every path, the throwing one included |
| Login.Submit | app/login.tsx:21-41 | the context ends logged in exactly when it already was or the demo pair was entered, a provider is present and the storage write succeeded; any other pair leaves the context unchanged |
| Auth.StoredLoggedIn | app/_layout.tsx:39-40 | the startup read is true exactly when the key is present and holds `"true"`; a missing key reads false |
| Auth.Login | app/_layout.tsx:45-48 | `login` leaves the flag up and `"true"` stored, and no other key changes |
| Auth.Logout | app/_layout.tsx:49-52 | `logout` leaves the flag down and the key removed, and no other key changes |
| Auth.LoadStored | app/_layout.tsx:37-42 | the startup read sets the flag to whether `"true"` is stored, keeping storage as it is |
| Auth.ContextLogin | app/_layout.tsx:7-48 | the default `login` does nothing and never throws; the provider's throws exactly when the write fails, and then changes nothing |
| Auth.ContextLogout | app/_layout.tsx:11-52 | after `logout` the context is logged out, with or without a provider |
| Auth.DefaultContextInert | app/_layout.tsx:11-15 | without a provider the context is logged out and `login`/`logout` are no-ops |
| Auth.RestartRestoresFlag | app/_layout.tsx:33-51 | after `login` a fresh mount's startup read yields logged in; after `logout` it yields logged out |
| Auth.Guard | app/_layout.tsx:21-29 | redirect to `/login` exactly when logged out inside `(tabs)`; redirect to `/(tabs)` exactly when logged in outside it; stay exactly when the flag and the route agree |
| Auth.GuardSettles | app/_layout.tsx:21-29 | on any route a redirect lands on, the guard asks for no further redirect |
| Auth.Mount | app/_layout.tsx:33 | a fresh mount of the root layout starts logged out whatever is stored, and storage survives it |
| Auth.Navigate | app/_layout.tsx:24-28 | staying keeps the route; a redirect lands on a route whose first segment is `login` or `(tabs)`, as `router.replace` was told |
| App.Step | app/_layout.tsx:32-54 | every step keeps the in-memory flag backed by storage; after the guard fires the route is settled; after the startup read the flag equals the stored value |
| App.RunKeepsFlagBacked | app/_layout.tsx:33-51 | over any sequence of steps, restarts included, the flag never says logged in unless storage holds `"true"` |
| App.GuardStepIdempotent | app/_layout.tsx:21-29 | firing the guard twice moves the user no further than firing it once |
| App.LoginStepEffect | app/login.tsx:38-41 | a non-demo submission changes nothing; the demo pair with a working write logs the session in |
| App.LogoutSurvivesRestart | app/_layout.tsx:37-51 | after logout, a cold start on any route ends logged out and outside `(tabs)` once the flag is read and the guard has run |
| App.LoginSurvivesRestart | app/_layout.tsx:37-51 | after a demo login, a cold start on any route ends logged in and inside `(tabs)` once the flag is read and the guard has run |

## Left out

- HTTP, `fetch` and JSON parsing: the reply is the abstract `Register.Reply` (ok flag and optional message, or a thrown error with an optional message).
- `Alert.alert` rendering, `router.back`, `router.replace` and `useSegments`: dialogs, redirects and routes are returned values; the OK button's `router.back` is the alert's `GoBack` action.
- The one-second `setTimeout` delay before the login check: it never fails and changes no state.
- React state, hook scheduling and overlapping asynchronous handlers; the buttons are disabled while `isLoading` is on, and races are not modelled.
- Failures of the storage read at startup and of `removeItem` in `logout`: the code does not handle them, and storage is modelled as always answering.
- `console.error` logging in the registration catch block.
- Auth.Guard: only the first route segment matters to the guard, so routes are sequences of segments and a redirect lands on the target's first segment alone.
- Layout, styles and constants/theme.ts: no behaviour.
- The fall-event listener, the statistics aggregation and the profile and medication screens under app/(tabs)/ are not part of this model.
