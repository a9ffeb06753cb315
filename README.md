# Kaffino email one-time-password login, modelled in Dafny

This project models the login core of the Kaffino coffee-shop backend. That core has three parts:

- **Otp** (`otp.dfy`, from `internal/server/auth/otp.go`). `GenerateOTP` builds a decimal code one random digit at a time. The process-wide `otpStorage` map holds, per email, a code and the time it was created. `RetrieveOTP` expires entries lazily: it removes any entry older than five minutes when it reads it.
- **Login** (`login.dfy`, from `internal/server/auth/login.go`). The process-wide `failedLogins` map holds, per email, a failure count, a lockout time and the time of the last attempt. `VerifyOTPHandler` checks the lockout, reads the code and compares it. A wrong code is counted, and the fifth failure locks the email for five minutes. The right code clears the record and binds the user to the session. `LoginHandler` refuses sessions that are already logged in and locked emails. Otherwise it generates a 6-digit code, stores it, and then mails it.
- **Sessions** (`sessions.dfy`, from `internal/server/auth/session.go`). A session with no `userID` gets a guest id that starts with `schrödinger-`. Guests are redirected from a fixed list of member-only paths. Logout sets `userID` back to nil.

Each piece of mutable state is a class field that the methods reassign:

- `OtpStore.otpStorage`, process-wide.
- `AuthService.failedLogins`, process-wide.
- `Session.values`, the key/value map of one browser's cookie session.

Each handler is a method. Its postcondition ties the new state and its answer to a pure specification:

- `Retrieved` and `Swept` for the code store.
- `Verify` for a whole verification.

The lemmas about these functions state the flow's properties across several calls:

- A round trip through the store.
- An empty retrieve stays empty.
- Five wrong codes lock the email out.
- A lapsed lockout re-locks at once.
- A success keeps the code.

Time is a natural number of nanoseconds, the unit of Go's `time.Duration`. Go's zero `time.Time` (0001-01-01 UTC) is represented as 0, which lies before every clock reading, so an unset lockout never locks. Each handler takes the clock reading `now` as a parameter.

The random source is a sequence of draws. Each draw is a digit index in [0, 10) or a read failure. The user directory lookup (`GetUserID`) is a `Lookup` parameter. The mail sender's answer is a `sendOk` parameter. The mail the handler would send is returned as a `Mail` value.

The model keeps these behaviours of the code as they are:

- A successful verification does not delete the stored code; `RetrieveOTP` is the only deletion (internal/server/auth/otp.go:52). `Login.SuccessKeepsCodeAndResetsCount` proves the same code verifies again inside the window.
- The failure count is not reset when a lockout lapses (internal/server/auth/login.go:69, 84-87). `Login.LapsedLockoutRelocks` proves the first wrong code after the lapse locks the email again.
- The code is stored before the mail is sent. A send failure therefore leaves a usable code behind (`Login.AuthService.RequestLogin`).
- Only a mismatch is counted (internal/server/auth/login.go:77-93). The lockout therefore shows whether a code is pending for an email: `Login.PendingCodeShowsInLockout` proves five wrong codes lock the email when one is pending and are all answered "Invalid OTP" when none is.

## Model

| member | source | states |
|---|---|---|
| `Otp.Image` | internal/server/auth/otp.go:12-21 | The code spelled by successful draws has one character per draw. Character i is `digits[draw_i]`, so every character is in '0'..'9'. |
| `Otp.GenerateOTP` | internal/server/auth/otp.go:11-25 | Fails exactly when one of the first `length` draws fails, and then returns "" (no partial code). Otherwise it returns the digit image of those draws: `max(length, 0)` numeric characters. |
| `Otp.Live` | internal/server/auth/otp.go:51 | An entry is live exactly when it exists and `now` is at most its creation time plus 5 minutes; the deadline itself is still live, because the test is a strict `>`. |
| `Otp.Retrieved` | internal/server/auth/otp.go:50-55 | A live entry yields its stored code; a non-empty result only ever comes from a live entry and is its code, so a missing or stale entry yields "". |
| `Otp.Swept` | internal/server/auth/otp.go:50-53 | After a retrieve, the email's entry is kept exactly when it is live (at most 5 minutes old, inclusive), and it is then unchanged. Every other key is unchanged. |
| `Otp.OtpStore.constructor` | internal/server/auth/otp.go:34 | The store starts empty. |
| `Otp.OtpStore.StoreOTP` | internal/server/auth/otp.go:40-44 | `otpStorage[email] := (otp, now)` overwrites any earlier entry and leaves every other key as it was. |
| `Otp.OtpStore.RetrieveOTP` | internal/server/auth/otp.go:47-56 | Returns the live code and leaves the map unchanged. For an absent or stale entry it returns "" and the email is no longer in the map. |
| `Otp.StoreThenRetrieve` | internal/server/auth/otp.go:43-55 | Retrieving at most 5 minutes after `StoreOTP(e, c)` returns `c` and removes nothing. |
| `Otp.StoreThenExpire` | internal/server/auth/otp.go:43-53 | Retrieving more than 5 minutes after `StoreOTP(e, c)` returns "" and leaves the store without `e`. |
| `Otp.EmptyRetrieveSticks` | internal/server/auth/otp.go:51-53 | Once a retrieve of `e` returns "", every later retrieve of `e` returns "", whatever stores and retrieves of other emails happen in between, until `e` is stored again. |
| `Sessions.GenerateGuestUserID` | internal/server/auth/session.go:39-41 | The id is the guest prefix followed by the UUID, so the prefix test classifies it as a guest. |
| `Sessions.IsGuest` | internal/server/auth/session.go:75 | A user id is a guest exactly when it is the guest prefix followed by some suffix; a non-guest id equals no prefix-plus-UUID id. The same test decides "already logged in" at internal/server/auth/login.go:125. |
| `Sessions.RouteDisallowed` | internal/server/auth/session.go:69-82 | The loop over the member-only routes finds the path exactly when the path equals one of "/create-product", "/profile" or "/update-product". |
| `Sessions.Session.constructor` | internal/server/auth/session.go:46 | A new session has no values. |
| `Sessions.Session.Middleware` | internal/server/auth/session.go:52-88 | A session without a `userID` gets a guest id, `username` "" and `loginFailTries` 0. A session that has a `userID` is left unchanged. The request is redirected to "/login" exactly when the user is a guest and the path is one of the listed routes. Otherwise the next handler gets the session's user id and username. Only strings or nil are kept under `userID`. |
| `Sessions.Session.Logout` | internal/server/auth/session.go:110-111 | Sets `userID` to nil and changes nothing else. |
| `Sessions.LogoutThenRequest` | internal/server/auth/session.go:53-59 | After logout, the next request gets a fresh guest id and an empty username. It is redirected to "/login" exactly on the listed routes. |
| `Login.Verify` | internal/server/auth/login.go:68-98 | A verify is refused, with the remaining wait, exactly when the email has a record whose lockout is strictly after `now`; nothing is read or written then. A missing or stale code answers "no valid OTP" and counts nothing. A wrong live code adds exactly 1 to the count and sets `LastAttempt := now`. At a count of 5 or more it sets `Lockout := now + 5 min`; otherwise the lockout is kept. The right code deletes the record and leaves the stored code in place. Other emails are unaffected. |
| `Login.IsLockedOut` | internal/server/auth/login.go:68-69 | An email is locked exactly when the record read for it (the zero record when there is none) has a lockout strictly after `now`; the same test guards the login request at internal/server/auth/login.go:144-145. |
| `Login.Respond` | internal/server/auth/login.go:71-115 | "too many attempts" is answered exactly for a refusal, with the remaining wait, and for a new lockout, with the full 5 minutes. "Invalid OTP" is answered exactly for no valid code and for a wrong code below the threshold. Success carries the looked-up user id exactly when the code matches and the lookup succeeds; a failed lookup after a match is a lookup failure. |
| `Login.WrongCodeLooksLikeNoCode` | internal/server/auth/login.go:75-93 | A wrong code below the threshold and the same submission with no code pending both get "Invalid OTP". |
| `Login.FailedVerifyAnswers` | internal/server/auth/login.go:77-93 | A single failed verify is answered "Invalid OTP" or "too many attempts", whether the code was wrong, expired or never issued. |
| `Login.AuthService.constructor` | internal/server/auth/login.go:24 | The failure records start empty, and so satisfy `RecordsWellFormed`. |
| `Login.AuthService.VerifyOTP` | internal/server/auth/login.go:46-116 | Both stores change as `Verify` says, and the answer follows its decision. Only a match with a found user writes `userID` and `username` into the session. Well-formed failure records stay well formed. |
| `Login.AuthService.RequestLogin` | internal/server/auth/login.go:118-173 | A non-guest session gets "Already logged in" with nothing generated or stored. A locked email gets "too many attempts" with the remaining wait, before the store is touched. A failed generation stores and sends nothing. Otherwise the 6-digit code is stored at `now` and mailed to the email in the body "Your OTP is: <code>". The code stays stored when sending fails. |
| `Login.WrongCodesCount` | internal/server/auth/login.go:83-93 | Starting from k failures and no lockout, each wrong code while the code is live is counted one by one. The i-th is a failure that locks exactly when k + i + 1 reaches 5. At 5 the lockout is the last try's time plus 5 minutes. The code is never dropped. |
| `Login.FiveWrongCodesLockOut` | internal/server/auth/login.go:68-93 | From a clean record, five wrong codes get "Invalid OTP" four times and then "too many attempts". A sixth try before the lockout ends is refused whatever code it carries. |
| `Login.LapsedLockoutRelocks` | internal/server/auth/login.go:68-87 | The count survives a lapsed lockout. After 5 failures, the first wrong code after the lockout ends makes the count 6 or more and locks again at once. |
| `Login.LockoutBoundary` | internal/server/auth/login.go:68-73 | A lockout set at t is refused, with the exact remaining wait, at every time before t + 5 min. From t + 5 min on, the code is compared again. |
| `Login.SuccessKeepsCodeAndResetsCount` | internal/server/auth/login.go:75-98 | After a successful verify, the same code verifies again inside its window. The next wrong code is counted from 1. |
| `Login.IssuedCodeVerifies` | internal/server/auth/login.go:75-98 | A 6-digit code stored at t verifies at any time up to t + 5 min, unless the email is locked. |
| `Login.NoCodeNeverCounts` | internal/server/auth/login.go:75-80 | With no code pending and no record, any sequence of tries is answered "no valid OTP" each time, and neither store changes. |
| `Login.PendingCodeShowsInLockout` | internal/server/auth/login.go:75-93 | The same five wrong submissions end in "too many attempts" when a code is pending, and get "Invalid OTP" five times with no record written when none is. |
| `Login.RecordsStayWellFormed` | internal/server/auth/login.go:83-98 | Verification keeps every record at one failure or more, with the lockout still unset below 5 failures. This is the starting state `Login.WrongCodesCount` assumes. |
| `Login.RequestThenVerify` | internal/server/auth/login.go:118-173 | A first visit, through the middleware, gets a guest id. Its login request stores and mails a code. Submitting the mailed code while it is live answers `LoginSuccessful` and binds the looked-up user and the email to the session. |
| `Login.ExpiredCodeRefused` | internal/server/auth/login.go:75-80 | More than 5 minutes after issue, the code is refused as "no valid OTP". The failure is not counted and the entry is removed. |

## Left out

- HTTP and JSON handling is not modelled. This covers request decoding, the POST method check, status codes, the JSON response envelope and the exact message text. These are transport glue. Each handler's answer is an `Outcome` value, and the remaining lockout wait is a number of nanoseconds rather than a formatted string.
- Errors from `store.Get` and `session.Save`, and the cookie options, are not modelled. They belong to the cookie session library, so a session is modelled as its `Values` map.
- `ProfileHandler` (internal/server/auth/session.go:92-101) is not modelled. It is a page handler, not part of the login flow.
- The `sync.Mutex` around the code store and the unsynchronised `failedLogins` map are not modelled. Each handler runs as one sequential step. The interleaving of two concurrent failed verifications, which can under-count failures, is therefore not captured.
- `time.Now`, `crypto/rand`, `uuid.New`, the SES mail sender and the `GetUserID` database lookup are parameters. These are the clock, randomness and foreign services. `GenerateOTP` requires at least one draw per digit; the real source never runs out.
- `Login.Verify`: the failure count is an unbounded integer. Go's `int` would wrap after 2^63 - 1 increments, which no client can reach.
- `Login.AuthService.VerifyOTP`: each handler uses one `now` for every clock read. The verify handler reads the clock at internal/server/auth/login.go:69, 70, 85 and 87, and in `RetrieveOTP` (internal/server/auth/otp.go:51). The login handler reads it at internal/server/auth/login.go:145-146 and in `StoreOTP` (internal/server/auth/otp.go:43). In the model a new `Lockout` is exactly `LastAttempt + 5 min` and the reported wait is exactly `Lockout - now`. In Go the `Lockout` is later, and the reported wait shorter, by the time between the reads.
- `Login.AuthService.RequestLogin`: it requires that the session already carries a string `userID`. Every handler is mounted behind `SessionMiddleware` (internal/server/routes.go:37), which guarantees this. Without it, the type assertion `id.(string)` would panic on the nil that logout leaves.
- `Sessions.IsGuest`: it compares Unicode characters, where Go's `strings.HasPrefix` compares UTF-8 bytes. The two agree on the valid UTF-8 strings that reach the session.
- Log output (`log.Println`, `fmt.Println`) is not modelled, and neither is the stored code that the verify handler logs.
