/**
 The four account routes as pure transitions (store, inputs, now) -> Step.

 The clock reading, the random draw behind the one-time code, the bcrypt salt
 and the outcome of sending mail are all inputs; hashing and signing are the
 abstract `Primitives`. Request validation happens before these transitions
 and is not part of them.
 */
module AuthRoutes {
  import opened Wrappers
  import opened Crypto
  import opened Accounts

  /** Smallest one-time code. */
  const OtpBase: int := 100000

  /** How long a one-time code stays usable: ten minutes, in milliseconds. */
  const OtpLifetimeMs: int := 10 * 60 * 1000

  /** The integer part of `Math.random() * 900000`. */
  type Draw = r: int | 0 <= r < 900000

  /** How the attempt to mail the code ended: sent, refused by the mail
      service, or the transport could not be set up at all (the OAuth access
      token or the transporter threw). */
  datatype Delivery = Sent | SendError | TransportError

  /** Sign-up: refuses a known email; otherwise stores a new, non-admin record
      with the hashed password and answers with an unexpiring token. */
  function Signup(s: Store, name: string, email: Email, password: string,
                  branch: string, role: string, salt: Salt, p: Primitives): (r: Step)
    ensures email in s.users ==> r == Step(Failed(UserAlreadyExists), s)
    ensures email !in s.users ==>
      && r.response.SignedUp?
      && r.store.nextId == s.nextId + 1
      && r.store.users.Keys == s.users.Keys + {email}
      && (forall e :: e in s.users ==> r.store.users[e] == s.users[e])
      && r.response.user == r.store.users[email]
      && r.response.user.id == s.nextId
      && r.response.user.name == name
      && r.response.user.email == email
      && r.response.user.branch == branch
      && r.response.user.role == role
      && r.response.user.password == p.hash(password, salt)
      && !r.response.user.isAdmin
      && r.response.user.otp == None
      && r.response.user.otpTimestamp == None
      && r.response.token == p.sign(s.nextId, NoExpiry)
  {
    if email in s.users then
      Step(Failed(UserAlreadyExists), s)
    else
      var user := User(s.nextId, name, email, branch, role, p.hash(password, salt),
                       false, None, None);
      Step(SignedUp(p.sign(user.id, NoExpiry), user),
           Store(s.users[email := user], s.nextId + 1))
  }

  /** Sign-in: never changes the store; an unknown email, then a failed
      password comparison, are refused; otherwise a five-day token for the
      user's id. */
  function Signin(s: Store, email: Email, password: string, p: Primitives): (r: Step)
    ensures r.store == s
    ensures r.response == Failed(EmailDoesNotExist) <==> email !in s.users
    ensures r.response == Failed(InvalidCredentials) <==>
      email in s.users && !p.compare(password, s.users[email].password)
    ensures r.response.SignedIn? <==>
      email in s.users && p.compare(password, s.users[email].password)
    ensures r.response.SignedIn? ==>
      r.response.token == p.sign(s.users[email].id, ExpiresIn(FiveDaysSeconds))
  {
    if email !in s.users then
      Step(Failed(EmailDoesNotExist), s)
    else
      var user := s.users[email];
      if !p.compare(password, user.password) then
        Step(Failed(InvalidCredentials), s)
      else
        Step(SignedIn(p.sign(user.id, ExpiresIn(FiveDaysSeconds))), s)
  }

  /** The answer to a reset request once the code has been stored. */
  function DeliveryResponse(d: Delivery): Response
  {
    match d
    case Sent => OtpSent
    case SendError => Failed(EmailSendingFailed)
    case TransportError => Failed(InternalServerError)
  }

  /** Forgot-password: refuses an unknown email; otherwise stores a fresh
      six-digit code and the time, replacing any earlier code, and only then
      tries to mail it. */
  function ForgotPassword(s: Store, email: Email, draw: Draw, now: int,
                          delivery: Delivery): (r: Step)
    ensures email !in s.users ==> r == Step(Failed(UserNotFound), s)
    ensures email in s.users ==>
      && r.store.nextId == s.nextId
      && r.store.users.Keys == s.users.Keys
      && (forall e :: e in s.users && e != email ==> r.store.users[e] == s.users[e])
      && r.store.users[email].otp == Some(OtpBase + draw)
      && 100000 <= r.store.users[email].otp.value <= 999999
      && r.store.users[email].otpTimestamp == Some(now)
      && r.store.users[email] == s.users[email].(otp := Some(OtpBase + draw),
                                                 otpTimestamp := Some(now))
    ensures email in s.users ==>
      && (r.response == OtpSent <==> delivery == Sent)
      && (r.response == Failed(EmailSendingFailed) <==> delivery == SendError)
      && (r.response == Failed(InternalServerError) <==> delivery == TransportError)
  {
    if email !in s.users then
      Step(Failed(UserNotFound), s)
    else
      var user := s.users[email].(otp := Some(OtpBase + draw), otpTimestamp := Some(now));
      Step(DeliveryResponse(delivery), s.(users := s.users[email := user]))
  }

  /** The verdict on a reset attempt. */
  datatype Decision = Accept | Reject(error: Error)

  /** The checks of the reset route in their order: first the code must equal
      the stored one, then it must not be older than ten minutes (strictly
      older is expired). */
  function ResetDecision(storedOtp: Option<int>, givenOtp: int, elapsed: int): (d: Decision)
    ensures d == Reject(InvalidOtp) <==> storedOtp != Some(givenOtp)
    ensures d == Reject(OtpExpired) <==> storedOtp == Some(givenOtp) && elapsed > OtpLifetimeMs
    ensures d == Accept <==> storedOtp == Some(givenOtp) && elapsed <= OtpLifetimeMs
  {
    if storedOtp != Some(givenOtp) then Reject(InvalidOtp)
    else if elapsed > OtpLifetimeMs then Reject(OtpExpired)
    else Accept
  }

  /** Time since the stored code was issued. The corrected route treats a
      record without an issue time as never expired; while `CodesWellFormed`
      holds, no record has a code without an issue time. */
  function Elapsed(now: int, issuedAt: Option<int>): int
  {
    match issuedAt
    case Some(t) => now - t
    case None => 0
  }

  /** Reset-password as it evidently should behave: refuses an unknown email,
      then applies `ResetDecision` to the stored code and the stored issue
      time; on acceptance it replaces the hash and clears the code, leaving
      everything else as it was. */
  function ResetPassword(s: Store, email: Email, givenOtp: int, newPassword: string,
                         salt: Salt, now: int, p: Primitives): (r: Step)
    ensures email !in s.users ==> r == Step(Failed(UserNotFound), s)
    ensures r.response == PasswordResetDone <==>
      && email in s.users
      && s.users[email].otp == Some(givenOtp)
      && (s.users[email].otpTimestamp.Some? ==>
            now - s.users[email].otpTimestamp.value <= OtpLifetimeMs)
    ensures r.response != PasswordResetDone ==> r.store == s
    ensures email in s.users && s.users[email].otp != Some(givenOtp) ==>
      r.response == Failed(InvalidOtp)
    ensures (&& email in s.users
             && s.users[email].otp == Some(givenOtp)
             && s.users[email].otpTimestamp.Some?
             && now - s.users[email].otpTimestamp.value > OtpLifetimeMs) ==>
      r.response == Failed(OtpExpired)
    ensures r.response == PasswordResetDone ==>
      && r.store.nextId == s.nextId
      && r.store.users.Keys == s.users.Keys
      && (forall e :: e in s.users && e != email ==> r.store.users[e] == s.users[e])
      && r.store.users[email].password == p.hash(newPassword, salt)
      && r.store.users[email].otp == None
      && r.store.users[email] == s.users[email].(password := p.hash(newPassword, salt),
                                                 otp := None)
  {
    if email !in s.users then
      Step(Failed(UserNotFound), s)
    else
      var user := s.users[email];
      match ResetDecision(user.otp, givenOtp, Elapsed(now, user.otpTimestamp))
      case Reject(e) => Step(Failed(e), s)
      case Accept =>
        var updated := user.(password := p.hash(newPassword, salt), otp := None);
        Step(PasswordResetDone, s.(users := s.users[email := updated]))
  }

  /** Reset-password as the source is written: after finding the user it
      reads a name that is not bound in that handler, so every attempt on a
      known email throws before any check and ends as an internal error with
      nothing saved. */
  function ResetPasswordAsWritten(s: Store, email: Email, givenOtp: int, newPassword: string,
                                  salt: Salt, now: int, p: Primitives): (r: Step)
    ensures r.store == s
    ensures email !in s.users <==> r.response == Failed(UserNotFound)
    ensures email in s.users <==> r.response == Failed(InternalServerError)
  {
    if email !in s.users then
      Step(Failed(UserNotFound), s)
    else
      // The elapsed-time computation throws a ReferenceError here.
      Step(Failed(InternalServerError), s)
  }

  // ---------------------------------------------------------------------------
  // Properties relating calls
  // ---------------------------------------------------------------------------

  /** A wrong code is reported as such however much time has passed. */
  lemma MismatchIgnoresTime(storedOtp: Option<int>, givenOtp: int, e1: int, e2: int)
    requires storedOtp != Some(givenOtp)
    ensures ResetDecision(storedOtp, givenOtp, e1) == ResetDecision(storedOtp, givenOtp, e2)
    ensures ResetDecision(storedOtp, givenOtp, e1) == Reject(InvalidOtp)
  {
  }

  /** Exactly ten minutes is still in time; one millisecond more is not. */
  lemma ExpiryBoundary(code: int)
    ensures ResetDecision(Some(code), code, OtpLifetimeMs) == Accept
    ensures ResetDecision(Some(code), code, OtpLifetimeMs + 1) == Reject(OtpExpired)
  {
  }

  /** The store a reset request leaves behind does not depend on whether the
      mail went out: the code is saved before sending is attempted. */
  lemma ForgotPasswordSavesBeforeMail(s: Store, email: Email, draw: Draw, now: int,
                                      d1: Delivery, d2: Delivery)
    ensures ForgotPassword(s, email, draw, now, d1).store
         == ForgotPassword(s, email, draw, now, d2).store
  {
  }

  /** Corrected reset route: after a successful reset the same code is
      refused at any later time. */
  lemma ResetIsSingleUse(s: Store, email: Email, code: int, pw: string, salt: Salt, now: int,
                         pw2: string, salt2: Salt, later: int, p: Primitives)
    requires ResetPassword(s, email, code, pw, salt, now, p).response == PasswordResetDone
    ensures ResetPassword(ResetPassword(s, email, code, pw, salt, now, p).store,
                          email, code, pw2, salt2, later, p).response == Failed(InvalidOtp)
  {
  }

  /** For every request, the route as written agrees with the corrected one
      on an unknown email, and on a known email answers an internal error
      where the corrected route gives a real verdict (success, wrong code or
      expired code); it never saves anything, and wherever the corrected
      route refuses, the two leave the same store. */
  lemma AsWrittenVersusCorrected(s: Store, email: Email, givenOtp: int, newPassword: string,
                                 salt: Salt, now: int, p: Primitives)
    ensures
      var w := ResetPasswordAsWritten(s, email, givenOtp, newPassword, salt, now, p);
      var c := ResetPassword(s, email, givenOtp, newPassword, salt, now, p);
      && (email !in s.users ==> w == c)
      && (email in s.users ==>
            && w.response == Failed(InternalServerError)
            && (c.response == PasswordResetDone
                || c.response == Failed(InvalidOtp)
                || c.response == Failed(OtpExpired)))
      && w.store == s
      && (c.response != PasswordResetDone ==> w.store == c.store)
  {
  }
}
