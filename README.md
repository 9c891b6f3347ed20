# qBitThrottler control core in Dafny

qBitThrottler watches a Jellyfin media server and caps the upload speed of a
qBittorrent client while anyone is streaming. This project models the
deterministic core of its single source file, `src/main.rs`, with every
network call replaced by an abstract reply:

- `errors.dfy` (module `Errors`): the `ThrottlerError` sum type
  (`ReqwestError` / `BadResponse(message, status)` / `NoCookie`), the status
  codes, the messages the program builds, and `Display for ThrottlerError`.
- `credentials.dfy` (module `Credentials`): `QBCreds` and its `Display`
  text `username=..&password=..`, with a reader that inverts it for user names without `&`.
- `clients.dfy` (module `Clients`): the three remote calls `qb_auth`,
  `qb_set_upload` and `jellyfin_get_sessions` as total classification
  functions over abstract replies; `HeaderValue::to_str` on the
  `set-cookie` header; the session-count to upload-limit mapping
  (1000 while a session is active, 0 = unlimited otherwise).
- `control_loop.dfy` (module `ControlLoop`): the two nested loops of
  `main`. `Run` is the state machine (`Authenticating` / `Polling(cookie)` /
  `Exited(code)`) producing a trace of actions `Login`, `Sample`,
  `Apply(speed, cookie)`, `Sleep`; `MainLoop` is the imperative nested-loop
  method with `break`, `continue` and `return`, proved to produce exactly
  what `Run` produces.
- `loop_properties.dfy` (module `LoopProperties`): what every position of a
  run's trace promises. The i-th request of each kind gets the i-th reply of
  that kind. What follows a request depends on its reply. Each apply carries
  the cookie of the latest successful login. Runs exit only for the two
  reasons the code has and otherwise stop only when replies run out.
- `scenarios.dfy` (module `Scenarios`): concrete runs for the situations the
  service exists for.

The environment is three queues of replies (`Env`): the n-th login request
is answered by `logins[n]`, the n-th sessions request by `samples[n]`, the
n-th apply by `applies[n]`. Apart from its two exits (below) the real loop never ends, so a run
here ends when the call it is about to make finds no reply left.

The model follows the code where the code differs from its comments:
- A 401/403 answer to the login `break`s out of the outer loop, so `main`
  returns exit code 0 (src/main.rs:97-100, 137). The comment there speaks of
  re-authenticating, but no further login happens.
- `NoCookie`, a transport failure and any other status at login `continue`
  at once, with no pause (src/main.rs:103-104). The comment says such errors
  are "solved by waiting".
- The sessions request never looks at the status. A body that parses as
  JSON is counted whatever the status, and a non-array body counts as zero
  sessions. A body that is not JSON at all fails the decode in `.json()` and
  is an error, so `main` returns 1 (src/main.rs:145, 113-115).
- Any failed sample returns 1. A 401/403 from the apply call only leaves
  the inner loop, and the next action is a fresh login. Every other apply
  failure is ignored and the loop pauses and polls again
  (src/main.rs:126-133).

## Model

| member | source | states |
|---|---|---|
| `Errors.FromTransport` | src/main.rs:60-64 | a transport or decode failure becomes a `ReqwestError` whose message is the fixed prefix followed by the foreign error's text |
| `Errors.StatusText` | src/main.rs:165 | the status is written as three characters, each a decimal digit, whose values give back the code |
| `Errors.ForcesReauth` | src/main.rs:97-99 | the test that leaves either loop (here and again at lines 126-129) holds only for a bad response, and among the errors the program builds it holds exactly for the bad-response errors of status 401 and 403 |
| `Errors.BadStatus` | src/main.rs:165 | a non-200 answer becomes a `BadResponse` carrying exactly that status and the message "Bad Response from QBittorrent: " followed by the status |
| `Errors.ErrorText` | src/main.rs:48-58 | `NoCookie` displays as "No Cookie Returned"; the other two variants display their message |
| `Errors.ErrorTextInjective` | src/main.rs:48-58 | on every error the program can build, the displayed text determines the error: variant, message and status |
| `Credentials.CredsText` | src/main.rs:36-40 | credentials display as "username=" + user + "&password=" + password, of exactly that length |
| `Credentials.ParseCreds` | src/main.rs:38 | reading a text back yields only credentials that display as that very text |
| `Credentials.CredsTextRoundTrip` | src/main.rs:38 | when the user name has no `&`, the displayed text reads back to the same credentials |
| `Credentials.CredsTextAmbiguous` | src/main.rs:38 | with `&` in the user name two different credentials display the same text |
| `Clients.HeaderText` | src/main.rs:174 | a header value is text exactly when every byte is visible ASCII or a tab, and the text then has exactly the header's bytes |
| `Clients.QbAuth` | src/main.rs:156-186 | a transport failure gives `ReqwestError`; status not 200 gives `BadResponse` with that status; status 200 gives `Ok` exactly when a textual `set-cookie` is present, its value being the header's bytes verbatim, and `NoCookie` exactly when the header is absent or not text |
| `Clients.QbAuthIgnoresHeadersOnBadStatus` | src/main.rs:163-166 | for a non-200 login answer the headers make no difference and the error carries that status |
| `Clients.QbSetUpload` | src/main.rs:189-204 | success exactly when the status is 200; any other status gives a `BadResponse` with the same status; a transport failure gives `ReqwestError` |
| `Clients.JellyfinGetSessions` | src/main.rs:145-153 | an error exactly when the request or the JSON decode failed; an array body gives its length; a positive count only comes from an array |
| `Clients.LenientSessionCount` | src/main.rs:149-153 | a non-array body counts as `Ok(0)`, the same as an empty array, whatever the status |
| `Clients.UploadLimit` | src/main.rs:119-125 | the limit is 0 exactly when no session is active, and 1000 otherwise |
| `Clients.UploadLimitIgnoresMagnitude` | src/main.rs:119-125 | every positive session count gives the same limit, 1000 |
| `ControlLoop.Run` | src/main.rs:90-137 | an exited state does nothing; the first action is `Login` when authenticating and `Sample` when polling; a run that exits has acted and exits with 0 or 1 |
| `ControlLoop.MainLoop` | src/main.rs:90-137 | the nested loops produce exactly the final state and action trace of `Run` from `Authenticating` |
| `LoopProperties.RunSound` | src/main.rs:90-137 | at every position of every run the request gets the next reply of its kind, and the next action is the one that reply dictates |
| `LoopProperties.AuthenticatingRunSound` | src/main.rs:91-106 | the same, for a run that starts by logging in |
| `LoopProperties.PollingRunSound` | src/main.rs:109-134 | the same, for a run that starts by polling with a cookie |
| `LoopProperties.ApplyUsesLatestCookie` | src/main.rs:93-126 | every apply carries the cookie returned by the latest login before it, and that login succeeded |
| `LoopProperties.CookieChangesOnlyAtLogin` | src/main.rs:93-126 | two applies with no login between them carry the same cookie |
| `LoopProperties.ExitShape` | src/main.rs:90-137 | a run that exits ends with the request that caused the exit: a login for code 0, a sample for code 1 |
| `LoopProperties.ExitCause` | src/main.rs:90-137 | exit code 0 comes only from a login rejected with 401/403 and exit code 1 only from a failed sample |
| `LoopProperties.RunStopsForLackOfReplies` | src/main.rs:90-135 | a run that has not exited stopped only because the request it was about to make had no reply left: while authenticating every login reply is used; while polling, a run that ends on a sample has used every apply reply, and any other has used every sample reply; a run that ends on an apply ends authenticating, since only an apply rejected with 401/403 can be last |
| `Scenarios.ActiveSessionThrottles` | src/main.rs:119-133 | login cookie `SID=abc` and one session lead to `Apply(1000, "SID=abc")` and a pause |
| `Scenarios.IdleServerUnthrottles` | src/main.rs:119-133 | an empty session list leads to `Apply(0, cookie)` |
| `Scenarios.NonArrayBodyUnthrottles` | src/main.rs:149-153 | a `null` body on a 401 answer still counts as no session and leads to `Apply(0, cookie)` |
| `Scenarios.ForbiddenLoginExits` | src/main.rs:97-100 | a login answered 403 is the only action and `main` returns 0, whatever replies remain |
| `Scenarios.MissingCookieRetriesAtOnce` | src/main.rs:103-104 | a 200 login without a cookie is followed by another login with no pause in between |
| `Scenarios.UnauthorizedApplyLogsInAgain` | src/main.rs:126-130 | an apply answered 401 is followed by a login, not by another apply |
| `Scenarios.FailedApplyKeepsPolling` | src/main.rs:126-133 | an apply answered 500 is ignored and the loop pauses and samples again; the failed sample then ends the run with 1 |

## Left out

- Building the reqwest client, URLs, headers and forms, and sending the requests (src/main.rs:141-145, 157-161, 190-196): foreign I/O, represented only by the abstract replies `LoginReply`, `SessionsReply` and `ApplyReply`.
- JSON parsing by serde_json: a body that parses is given as a `Json` value, and one that does not is a `SessionsFailed` reply.
- The wire encoding of the forms by serde, and the one-entry `HashMap` payload of `qb_set_upload` (src/main.rs:190-191): library behaviour. `QbSetUpload` therefore takes no cookie or speed; the `Apply` action records them.
- The tokio runtime and the 5-second sleep: a `Sleep` action with no timing.
- The tracing subscriber, every `debug!`/`error!` line and the hard-coded `Config` literal (src/main.rs:68-86): logging and configuration.
- `Errors.FromTransport`: the text of the foreign reqwest error is a parameter, not computed.
- `Errors.StatusText`: writes only the three digits of the code; the `http` crate's `Display` also appends the reason phrase (such as "Unauthorized"), which is not modelled. As a result `BadStatus` messages, and so `ErrorText`, read "Bad Response from QBittorrent: 401" where the program writes "Bad Response from QBittorrent: 401 Unauthorized".
- `Clients.QbAuth`: takes the first `set-cookie` header as given; the header lookup by name is the `http` crate's and is not modelled.
- `ControlLoop.MainLoop`: the real loop is unbounded; here it runs over finite reply queues and stops when the next request has no reply.
