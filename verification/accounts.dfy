/**
 The user record, the user store and the results the account routes return.

 The store is an immutable map from email to user record, together with the
 identifier the next new record will receive (the id mongoose assigns when a
 record is first built).
 */
module Accounts {
  import opened Wrappers
  import opened Crypto

  type Email = string

  /** One registered user. `otp` and `otpTimestamp` are absent until the first
      password-reset request; `otp` is cleared again by a successful reset. */
  datatype User = User(
    id: UserId,
    name: string,
    email: Email,
    branch: string,
    role: string,
    password: Digest,
    isAdmin: bool,
    otp: Option<int>,
    otpTimestamp: Option<int>)

  datatype Store = Store(users: map<Email, User>, nextId: UserId)

  /** The store is indexed by each record's own email, every id was handed out
      by the store and no two records share an id. */
  predicate Valid(s: Store)
  {
    && (forall e :: e in s.users ==> s.users[e].email == e && s.users[e].id < s.nextId)
    && (forall e1, e2 :: e1 in s.users && e2 in s.users && e1 != e2 ==>
          s.users[e1].id != s.users[e2].id)
  }

  /** A pending code is always stored together with the time it was issued,
      and is a six-digit number. */
  predicate CodesWellFormed(s: Store)
  {
    forall e :: e in s.users && s.users[e].otp.Some? ==>
      && s.users[e].otpTimestamp.Some?
      && 100000 <= s.users[e].otp.value <= 999999
  }

  /** The failures the routes report. */
  datatype Error =
    | UserAlreadyExists
    | EmailDoesNotExist
    | InvalidCredentials
    | UserNotFound
    | EmailSendingFailed
    | InvalidOtp
    | OtpExpired
    | InternalServerError

  /** The message each failure is reported with. */
  function Message(e: Error): string
  {
    match e
    case UserAlreadyExists => "User already exists"
    case EmailDoesNotExist => "Email does not exist"
    case InvalidCredentials => "Invalid Credentials"
    case UserNotFound => "User not found"
    case EmailSendingFailed => "Email sending failed"
    case InvalidOtp => "Invalid OTP"
    case OtpExpired => "otp has expired!"
    case InternalServerError => "Internal server error"
  }

  /** What a route answers. */
  datatype Response =
    | SignedUp(token: Token, user: User)
    | SignedIn(token: Token)
    | OtpSent
    | PasswordResetDone
    | Failed(error: Error)

  /** A route's answer together with the store it leaves behind. */
  datatype Step = Step(response: Response, store: Store)
}
