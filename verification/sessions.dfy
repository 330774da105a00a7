/**
 Sequences of requests against one store, and the properties that hold of
 every such sequence: the store stays well-formed, codes stay six-digit, and
 after sign-up only the password and the reset code of an account ever change
 (in particular no request makes anyone an administrator).

 Reset requests go either to the corrected `AuthRoutes.ResetPassword` or to
 the route as written, `AuthRoutes.ResetPasswordAsWritten`; the invariants
 below hold for both.
 */
module Sessions {
  import opened Wrappers
  import opened Crypto
  import opened Accounts
  import opened AuthRoutes

  /** One request body, with the random inputs the handler would draw. */
  datatype Request =
    | SignupRequest(name: string, email: Email, password: string, branch: string,
                    role: string, salt: Salt)
    | SigninRequest(email: Email, password: string)
    | ForgotRequest(email: Email, draw: Draw, delivery: Delivery)
    | ResetRequest(email: Email, otp: int, newPassword: string, salt: Salt)

  /** A request and the clock reading when it is handled. */
  datatype Event = Event(request: Request, now: int)

  /** Which reset route handles reset requests. */
  datatype ResetRoute = CorrectedReset | ResetAsWritten

  function Handle(s: Store, ev: Event, p: Primitives, route: ResetRoute): Step
  {
    match ev.request
    case SignupRequest(name, email, pw, branch, role, salt) =>
      Signup(s, name, email, pw, branch, role, salt, p)
    case SigninRequest(email, pw) => Signin(s, email, pw, p)
    case ForgotRequest(email, draw, delivery) => ForgotPassword(s, email, draw, ev.now, delivery)
    case ResetRequest(email, otp, pw, salt) =>
      match route
      case CorrectedReset => ResetPassword(s, email, otp, pw, salt, ev.now, p)
      case ResetAsWritten => ResetPasswordAsWritten(s, email, otp, pw, salt, ev.now, p)
  }

  /** The store after handling the events in order. */
  function Run(s: Store, evs: seq<Event>, p: Primitives, route: ResetRoute): Store
    decreases |evs|
  {
    if |evs| == 0 then s else Run(Handle(s, evs[0], p, route).store, evs[1..], p, route)
  }

  /** Two records of the same account that agree on everything except the
      password hash and the reset code. */
  predicate SameProfile(u: User, v: User)
  {
    && u.id == v.id
    && u.name == v.name
    && u.email == v.email
    && u.branch == v.branch
    && u.role == v.role
    && u.isAdmin == v.isAdmin
  }

  /** `t` is a possible later state of `s`: no account is removed, existing
      accounts keep their profile, and every account added is not an admin. */
  predicate Evolves(s: Store, t: Store)
  {
    && s.users.Keys <= t.users.Keys
    && (forall e :: e in s.users ==> SameProfile(s.users[e], t.users[e]))
    && (forall e :: e in t.users && e !in s.users ==> !t.users[e].isAdmin)
  }

  lemma EvolvesTransitive(a: Store, b: Store, c: Store)
    requires Evolves(a, b) && Evolves(b, c)
    ensures Evolves(a, c)
  {
  }

  /** Each single request keeps the store well-formed. */
  lemma HandlePreservesValid(s: Store, ev: Event, p: Primitives, route: ResetRoute)
    requires Valid(s)
    ensures Valid(Handle(s, ev, p, route).store)
  {
  }

  /** Each single request keeps every stored code six-digit and timestamped. */
  lemma HandlePreservesCodes(s: Store, ev: Event, p: Primitives, route: ResetRoute)
    requires CodesWellFormed(s)
    ensures CodesWellFormed(Handle(s, ev, p, route).store)
  {
  }

  /** Each single request only ever evolves the store. */
  lemma HandleEvolves(s: Store, ev: Event, p: Primitives, route: ResetRoute)
    ensures Evolves(s, Handle(s, ev, p, route).store)
  {
  }

  /** Every sequence of requests keeps the store well-formed. */
  lemma {:induction false} RunPreservesValid(s: Store, evs: seq<Event>, p: Primitives,
                                             route: ResetRoute)
    requires Valid(s)
    ensures Valid(Run(s, evs, p, route))
    decreases |evs|
  {
    if |evs| > 0 {
      HandlePreservesValid(s, evs[0], p, route);
      RunPreservesValid(Handle(s, evs[0], p, route).store, evs[1..], p, route);
    }
  }

  /** Every sequence of requests keeps every stored code six-digit. */
  lemma {:induction false} RunPreservesCodes(s: Store, evs: seq<Event>, p: Primitives,
                                             route: ResetRoute)
    requires CodesWellFormed(s)
    ensures CodesWellFormed(Run(s, evs, p, route))
    decreases |evs|
  {
    if |evs| > 0 {
      HandlePreservesCodes(s, evs[0], p, route);
      RunPreservesCodes(Handle(s, evs[0], p, route).store, evs[1..], p, route);
    }
  }

  /** After any sequence of requests no account has disappeared, every old
      account has its profile, and an account is an admin exactly when it
      already was one at the start: no request grants admin rights. */
  lemma {:induction false} RunEvolves(s: Store, evs: seq<Event>, p: Primitives,
                                      route: ResetRoute)
    ensures Evolves(s, Run(s, evs, p, route))
    ensures forall e :: e in Run(s, evs, p, route).users ==>
      (Run(s, evs, p, route).users[e].isAdmin <==> e in s.users && s.users[e].isAdmin)
    decreases |evs|
  {
    if |evs| == 0 {
    } else {
      var mid := Handle(s, evs[0], p, route).store;
      HandleEvolves(s, evs[0], p, route);
      RunEvolves(mid, evs[1..], p, route);
      EvolvesTransitive(s, mid, Run(mid, evs[1..], p, route));
    }
    var t := Run(s, evs, p, route);
    forall e | e in t.users
      ensures t.users[e].isAdmin <==> e in s.users && s.users[e].isAdmin
    {
      if e in s.users {
        assert SameProfile(s.users[e], t.users[e]);
      }
    }
  }

  // ---------------------------------------------------------------------------
  // Scenarios
  // ---------------------------------------------------------------------------

  /** A fresh sign-up can sign in with its password, and with no other one. */
  lemma SignupThenSignin(s: Store, name: string, email: Email, pw: string, branch: string,
                         role: string, salt: Salt, other: string, p: Primitives)
    requires email !in s.users
    requires HashSound(p)
    ensures Signin(Signup(s, name, email, pw, branch, role, salt, p).store, email, pw, p).response
         == SignedIn(p.sign(s.nextId, ExpiresIn(FiveDaysSeconds)))
    ensures HashBinding(p) && other != pw ==>
      Signin(Signup(s, name, email, pw, branch, role, salt, p).store, email, other, p).response
        == Failed(InvalidCredentials)
  {
    var t := Signup(s, name, email, pw, branch, role, salt, p).store;
    assert p.compare(pw, p.hash(pw, salt));
    if HashBinding(p) && other != pw {
      assert !p.compare(other, p.hash(pw, salt));
    }
  }

  /** Corrected reset route: requesting a code and presenting it within ten
      minutes resets the password; afterwards the new password signs in and
      the old one does not. */
  lemma ForgotThenResetInTime(s: Store, email: Email, draw: Draw, issuedAt: int,
                              delivery: Delivery, newPw: string, salt: Salt, now: int,
                              oldPw: string, p: Primitives)
    requires email in s.users
    requires now - issuedAt <= OtpLifetimeMs
    requires HashSound(p)
    ensures
      var t := ForgotPassword(s, email, draw, issuedAt, delivery).store;
      var r := ResetPassword(t, email, OtpBase + draw, newPw, salt, now, p);
      && r.response == PasswordResetDone
      && Signin(r.store, email, newPw, p).response.SignedIn?
      && (HashBinding(p) && oldPw != newPw ==>
            Signin(r.store, email, oldPw, p).response == Failed(InvalidCredentials))
  {
    var t := ForgotPassword(s, email, draw, issuedAt, delivery).store;
    var r := ResetPassword(t, email, OtpBase + draw, newPw, salt, now, p);
    assert r.store.users[email].password == p.hash(newPw, salt);
    assert p.compare(newPw, p.hash(newPw, salt));
    if HashBinding(p) && oldPw != newPw {
      assert !p.compare(oldPw, p.hash(newPw, salt));
    }
  }

  /** Corrected reset route: the right code presented more than ten minutes
      after it was issued is refused as expired and changes nothing. */
  lemma ForgotThenResetTooLate(s: Store, email: Email, draw: Draw, issuedAt: int,
                               delivery: Delivery, newPw: string, salt: Salt, now: int,
                               p: Primitives)
    requires email in s.users
    requires now - issuedAt > OtpLifetimeMs
    ensures
      var t := ForgotPassword(s, email, draw, issuedAt, delivery).store;
      ResetPassword(t, email, OtpBase + draw, newPw, salt, now, p) == Step(Failed(OtpExpired), t)
  {
  }

  /** Corrected reset route: a second reset request supersedes the first; the
      earlier code is refused once a different one has been issued. */
  lemma SecondRequestSupersedesFirst(s: Store, email: Email, d1: Draw, t1: int, m1: Delivery,
                                     d2: Draw, t2: int, m2: Delivery,
                                     newPw: string, salt: Salt, now: int, p: Primitives)
    requires email in s.users
    requires d1 != d2
    ensures
      var a := ForgotPassword(s, email, d1, t1, m1).store;
      var b := ForgotPassword(a, email, d2, t2, m2).store;
      ResetPassword(b, email, OtpBase + d1, newPw, salt, now, p).response == Failed(InvalidOtp)
  {
  }

  /** The reset route as written refuses even a freshly issued, correct code
      presented one millisecond later, where the corrected route accepts it. */
  lemma AsWrittenRejectsFreshCode(p: Primitives)
    ensures
      var alice := User(0, "A", "a@x.com", "CS", "student", "h", false, None, None);
      var s := Store(map["a@x.com" := alice], 1);
      var t := ForgotPassword(s, "a@x.com", 0, 0, Sent).store;
      && ResetPasswordAsWritten(t, "a@x.com", 100000, "secret2", "salt", 1, p)
           == Step(Failed(InternalServerError), t)
      && ResetPassword(t, "a@x.com", 100000, "secret2", "salt", 1, p).response
           == PasswordResetDone
  {
  }
}
