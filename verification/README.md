# Account and password-reset routes, modelled in Dafny

This project models the account logic of a canteen-management back end's
authentication router (`routes/auth.routes.js`): sign-up, sign-in,
forgot-password (issue a one-time code by mail) and reset-password (consume
the code and replace the password). Each route handler is a pure transition
from a store and the request's inputs to a response and a new store:

- the user store is an immutable map from email to user record, plus the id
  the next new record receives (`Accounts.Store`);
- the clock reading (`now`), the random draw behind the code (an integer in
  `[0, 900000)`), the bcrypt salt and the outcome of sending the mail are
  inputs;
- bcrypt's hash and compare and the JSON Web Token signer are abstract
  functions (`Crypto.Primitives`); the lemmas that need them to behave like
  an ideal hash say so in their `requires` (`HashSound`, `HashBinding`).

Modules: `Wrappers` (Option), `Crypto` (primitives), `Accounts` (record,
store, errors, responses), `AuthRoutes` (the four handlers, the reset check
order `ResetDecision`, and the reset handler as written), `Sessions`
(sequences of requests and the invariants they keep, for either reset
route, plus scenarios).

Three behaviours of the code worth knowing:

- in the corrected reset route (line 236 reading the stored issue time), a
  reset attempt on an account with no pending code, or a replay after a
  successful reset, is reported as "Invalid OTP" (the stored `null` does not
  equal the code), not as a separate "no pending reset" error; as written,
  both are answered "Internal server error";
- sign-up answers with the whole saved record, password hash included;
- sign-up's token carries no expiry; sign-in's expires in five days.

## Model

| member | source | states |
|---|---|---|
| `AuthRoutes.Signup` | routes/auth.routes.js:36-72 | A known email is refused with "User already exists" and the store is unchanged; otherwise exactly one record is added under that email with the given name, email, branch and role, the hash of the password, `isAdmin` false and no code, every existing record is untouched, and the answer carries that record and an unexpiring token for its id |
| `AuthRoutes.Signin` | routes/auth.routes.js:97-131 | The store is never changed; "Email does not exist" exactly when the email is unknown, "Invalid Credentials" exactly when it is known and the comparison fails, a token otherwise, and that token is signed for the user's id with a five-day expiry |
| `AuthRoutes.ForgotPassword` | routes/auth.routes.js:168-218 | An unknown email gives "User not found" with the store unchanged; otherwise the code `100000 + draw`, which lies in [100000, 999999], and the time `now` replace whatever was stored for that user, no other field and no other user changes, and the answer depends only on the mail outcome (sent, send error, transport error) |
| `AuthRoutes.ResetDecision` | routes/auth.routes.js:237-245 | "Invalid OTP" exactly when the given code differs from the stored one; "expired" exactly when they agree and more than 600000 ms have passed; accepted exactly when they agree and at most 600000 ms have passed |
| `AuthRoutes.ResetPassword` | routes/auth.routes.js:228-256 | Corrected reset route: an unknown email gives "User not found"; a wrong code gives "Invalid OTP"; the right code more than ten minutes old gives "otp has expired!"; the reset succeeds exactly when the stored code equals the given one and either the stored issue time is at most ten minutes old or no issue time is stored (impossible while `CodesWellFormed` holds); every refusal leaves the store unchanged; a success sets the password to the hash of the new password and clears the code, keeping the issue time, every other field and every other user |
| `AuthRoutes.ResetPasswordAsWritten` | routes/auth.routes.js:228-259 | Reset route as written: the store is never changed; an unknown email gives "User not found", and every known email gives "Internal server error", because the elapsed-time line throws first |
| `AuthRoutes.MismatchIgnoresTime` | routes/auth.routes.js:240-242 | A wrong code gives "Invalid OTP" whatever the elapsed time |
| `AuthRoutes.ExpiryBoundary` | routes/auth.routes.js:237-245 | Exactly 600000 ms after issue the right code is still accepted (the comparison is strict), and one millisecond later it is expired |
| `AuthRoutes.ForgotPasswordSavesBeforeMail` | routes/auth.routes.js:179-214 | The store left by a reset request is the same whether the mail was sent or failed: the code is saved before mailing, and only the answer differs |
| `AuthRoutes.ResetIsSingleUse` | routes/auth.routes.js:240-254 | Corrected reset route: after a successful reset, presenting the same code again at any time is refused with "Invalid OTP" (the route as written never accepts a first reset, and answers "Internal server error") |
| `AuthRoutes.AsWrittenVersusCorrected` | routes/auth.routes.js:228-259 | For every request: on an unknown email the route as written and the corrected route give the same answer and store; on a known email the route as written answers "Internal server error" where the corrected route answers success, "Invalid OTP" or "otp has expired!"; the route as written never saves, and wherever the corrected route refuses, both leave the same store |
| `Sessions.HandlePreservesValid` | routes/auth.routes.js:36-256 | Each request, with reset requests sent to either the route as written or the corrected route, keeps the store well-formed: every record is filed under its own email, and ids are distinct and were handed out by the store |
| `Sessions.HandlePreservesCodes` | routes/auth.routes.js:175-181 | Each request, with reset requests sent to either reset route, keeps every stored code six-digit and paired with an issue time |
| `Sessions.HandleEvolves` | routes/auth.routes.js:50-57 | Each request, with reset requests sent to either reset route, keeps every account, keeps each account's id, name, email, branch, role and admin flag, and adds only non-admin accounts: sign-up creates records with `isAdmin` false (lines 50-57), forgot-password writes only the code and its time (lines 179-181), and reset writes only the password and the code (lines 250-253) |
| `Sessions.RunPreservesValid` | routes/auth.routes.js:36-256 | Every sequence of requests, with reset requests sent to either the route as written or the corrected route, keeps the store well-formed |
| `Sessions.RunPreservesCodes` | routes/auth.routes.js:175-181 | Every sequence of requests, with reset requests sent to either reset route, keeps every stored code six-digit and paired with an issue time |
| `Sessions.RunEvolves` | routes/auth.routes.js:50-57 | After any sequence of requests, with reset requests sent to either reset route, no account has gone, old accounts keep their profile, and an account is an admin exactly when it was one at the start: no request grants admin rights, because sign-up sets `isAdmin` false (lines 50-57) and forgot-password and reset write only the code, its time and the password (lines 179-181, 250-253) |
| `Sessions.SignupThenSignin` | routes/auth.routes.js:46-58 | After signing up, the same password signs in with a five-day token for the new id, and, under an ideal hash, any other password gets "Invalid Credentials" |
| `Sessions.ForgotThenResetInTime` | routes/auth.routes.js:175-254 | Corrected reset route: the code issued by a reset request, presented within ten minutes, resets the password; the new password then signs in and, under an ideal hash, the old one does not |
| `Sessions.ForgotThenResetTooLate` | routes/auth.routes.js:243-245 | Corrected reset route: the right code presented more than ten minutes after issue is refused as expired and changes nothing (the route as written answers "Internal server error") |
| `Sessions.SecondRequestSupersedesFirst` | routes/auth.routes.js:179-181 | Corrected reset route: a second reset request that draws a different code makes the first code invalid (the route as written answers "Internal server error") |
| `Sessions.AsWrittenRejectsFreshCode` | routes/auth.routes.js:235-236 | For a concrete account, a code mailed at time 0 and presented at time 1 is refused with "Internal server error" by the route as written, but accepted by the corrected route |

## Left out

- Request validation (routes/auth.routes.js:17-31, 83-92): the express-validator checks (non-empty fields, email syntax, password of at least six characters) run before the handler body; the transitions are defined for every input.
- The `/me` route, the `auth` middleware and token verification (routes/auth.routes.js:141-149): they are a store read and a library check; no token expiry is verified in this model.
- bcrypt internals and the random salt: `hash` and `compare` are abstract. `HashBinding` is an idealisation used only as a lemma hypothesis; real bcrypt reads only the first 72 bytes of a password.
- JSON Web Token signing internals and the `throw` inside the signing callbacks (routes/auth.routes.js:67-70, 127-128): signing is an abstract total function.
- Store and library failures that reach the `catch` blocks (routes/auth.routes.js:73-76, 132-135, 215-218, 257-260): store reads and writes never fail in the model. The only exception paths modelled are the mail transport failing after the code is saved and the unbound name in the reset route.
- The mail itself (routes/auth.routes.js:153-214): the OAuth client, the transporter and the message text are I/O; only the outcome (sent, send error, transport error) is an input.
- `Math.random` and floating point: replaced by an integer draw in `[0, 900000)`.
- `Date.now`: replaced by the `now` argument.
- HTTP status codes and response bodies: replaced by the `Response` datatype; `Accounts.Message` gives each error's text.
- JavaScript type coercion in the code comparison (routes/auth.routes.js:240): both codes are integers, so a request whose code is a string, or `null`, is not modelled.
- The mongoose user schema (`models/auth.models`) is not part of this model. Two assumptions rest on it: a new record has no `otp` and no `otpTimestamp` until the first reset request, and emails are compared exactly (case-sensitively, without trimming) both for the duplicate check and for lookup; a schema that lower-cases or trims emails would merge addresses this model keeps apart.
- Record ids: mongoose's generated ObjectId is modelled as a counter kept in the store.
- Concurrency: requests are handled one at a time; interleavings between a handler's read and its save are not modelled.
- Logging.

## Findings

| source | as written | input that shows it | evidently intended | confidence | as-written member | corrected member |
|---|---|---|---|---|---|---|
| routes/auth.routes.js:236 | The elapsed time is computed from `otpTimestamp`, a name declared only inside the forgot-password handler, so reading it throws a ReferenceError; the catch answers "Internal server error" and nothing is saved | Any reset for a registered email, for example the code just mailed, presented one millisecond later | Subtract the stored `user.otpTimestamp` | high; not executed | `AuthRoutes.ResetPasswordAsWritten`, `Sessions.AsWrittenRejectsFreshCode` | `AuthRoutes.ResetPassword`, `Sessions.ForgotThenResetInTime` |
