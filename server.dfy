/** The account handlers of backend/auth/server.js: the in-memory OTP store
    and code generator, registration by OTP, login, password reset and
    logout. Each handler is a method of `Server` proved equal to a function
    of the state before the request (`...Spec`); the lemmas at the end
    relate several requests. Email delivery is an input saying whether the
    mail provider accepted the message. */
module AuthServer {
  import opened Common
  import opened Primitives
  import opened UserModel
  import opened Store
  import opened Middleware

  // ---------------------------------------------------------------------
  // generateOTP.
  // ---------------------------------------------------------------------

  function DigitChar(d: nat): char
    requires d < 10
  {
    ('0' as int + d) as char
  }

  predicate AllDigits(s: string) {
    forall i :: 0 <= i < |s| ==> '0' <= s[i] <= '9'
  }

  /** `Number.prototype.toString()` of a non-negative integer. */
  function DecimalString(n: nat): (s: string)
    ensures |s| >= 1 && AllDigits(s)
    decreases n
  {
    if n < 10 then [DigitChar(n)] else DecimalString(n / 10) + [DigitChar(n % 10)]
  }

  /** The value of a string of decimal digits. */
  function ParseDecimal(s: string): nat
    requires AllDigits(s)
    decreases |s|
  {
    if s == [] then 0 else ParseDecimal(s[..|s| - 1]) * 10 + (s[|s| - 1] as int - '0' as int)
  }

  /** Printing then reading a number gives it back. */
  lemma {:induction false} ParseDecimalString(n: nat)
    ensures ParseDecimal(DecimalString(n)) == n
    decreases n
  {
    if n >= 10 {
      ParseDecimalString(n / 10);
      var s := DecimalString(n);
      assert s[..|s| - 1] == DecimalString(n / 10);
    }
  }

  function Pow10(k: nat): nat {
    if k == 0 then 1 else 10 * Pow10(k - 1)
  }

  /** A number with k + 1 digits prints as k + 1 characters, the first of
      them not '0'. */
  lemma {:induction false} DecimalStringLength(n: nat, k: nat)
    requires Pow10(k) <= n < Pow10(k + 1)
    ensures |DecimalString(n)| == k + 1 && DecimalString(n)[0] != '0'
    decreases k
  {
    if k > 0 {
      DecimalStringLength(n / 10, k - 1);
    }
  }

  /** `generateOTP()`, with the value of `Math.random()` passed in as
      `draw`: `Math.floor(100000 + draw * 900000).toString()`. The code is
      always exactly six digits with no leading zero, i.e. a number from
      100000 to 999999. */
  function GenerateOtp(draw: real): (otp: string)
    requires 0.0 <= draw < 1.0
    ensures |otp| == 6 && AllDigits(otp) && otp[0] != '0'
    ensures 100000 <= ParseDecimal(otp) <= 999999
  {
    var x := 100000.0 + draw * 900000.0;
    var n := x.Floor;
    assert 100000 <= n <= 999999;
    DecimalStringLength(n, 5);
    ParseDecimalString(n);
    DecimalString(n)
  }

  // ---------------------------------------------------------------------
  // State and results.
  // ---------------------------------------------------------------------

  /** How long an OTP stays valid: five minutes. */
  const OtpLifetime: int := 5 * Minute
  /** Session lifetime for a plain login and for a remembered one. */
  const SessionLifetime: int := Day
  const RememberedSessionLifetime: int := 30 * Day

  /** An `otpStore` entry. */
  datatype Pending = Pending(otp: string, expiry: Time)

  /** Everything the handlers read and write: the process-wide OTP map, the
      stored accounts and the next document id. */
  datatype State = State(otpStore: map<string, Pending>, accounts: seq<AccountRecord>, nextId: nat)

  datatype SendOtpResult =
    | EmailRequired            // 400 'Email is required'
    | EmailAlreadyRegistered   // 400 'Email already registered'
    | OtpSent                  // 'OTP sent successfully'
    | OtpSendFailed            // 500 'Failed to send OTP'

  datatype VerifyOtpResult =
    | NoOtpFound               // 400 'No OTP found for this email'
    | OtpExpired               // 400 'OTP has expired'
    | InvalidOtp               // 400 'Invalid OTP'
    | RegistrationFailed       // 500 'Registration failed'
    | Registered(email: string)

  datatype LoginResult =
    | InvalidCredentials       // 401 'Invalid email or password'
    | AccountLocked(lockUntil: Time)   // 423
    | LoggedIn(token: string, rememberMeCookie: Option<string>)

  datatype ResetRequestResult =
    | UserNotFound             // 404 'User not found'
    | ResetEmailSent           // 'Password reset email sent'
    | ResetEmailFailed         // 500 'Failed to send reset email'

  datatype ResetResult =
    | InvalidOrExpiredToken    // 400 'Invalid or expired reset token'
    | ResetFailed              // 500 'Failed to reset password'
    | PasswordReset            // 'Password reset successful'

  datatype LogoutResult =
    | LogoutRejected(error: AuthError)  // answered by verifyToken
    | LogoutFailed                      // 500
    | LoggedOut(clearCookies: bool)

  // ---------------------------------------------------------------------
  // Specifications of the handlers.
  // ---------------------------------------------------------------------

  /** POST /api/send-otp. A missing or empty email, or one that already has
      an account, is refused and the OTP map is left alone; otherwise a
      fresh code valid for five minutes replaces any entry for that email,
      and stays stored even when the mail is not delivered. */
  function SendOtpSpec(st: State, email: Option<string>, now: Time, draw: real, delivered: bool): (out: (SendOtpResult, State))
    requires 0.0 <= draw < 1.0
    ensures out.1.accounts == st.accounts && out.1.nextId == st.nextId
    ensures out.0 == EmailRequired <==> !Truthy(email)
    ensures out.0 == EmailAlreadyRegistered <==> Truthy(email) && FindOne(st.accounts, ByEmail(email.value)).Some?
    ensures out.0 == EmailRequired || out.0 == EmailAlreadyRegistered ==> out.1 == st
    ensures out.0 == OtpSent || out.0 == OtpSendFailed ==>
              out.1.otpStore == st.otpStore[email.value := Pending(GenerateOtp(draw), now + OtpLifetime)]
    ensures out.0 == OtpSent ==> delivered
    ensures Truthy(email) && FindOne(st.accounts, ByEmail(email.value)).None? ==> (out.0 == OtpSent <==> delivered)
  {
    if !Truthy(email) then (EmailRequired, st)
    else if FindOne(st.accounts, ByEmail(email.value)).Some? then (EmailAlreadyRegistered, st)
    else
      var st' := st.(otpStore := st.otpStore[email.value := Pending(GenerateOtp(draw), now + OtpLifetime)]);
      (if delivered then OtpSent else OtpSendFailed, st')
  }

  /** The record `new User({ email, password })` saves once hashed. */
  function NewAccount(id: AccountId, email: string, password: string, now: Time, salt: string, c: Crypto): AccountRecord {
    AccountRecord(id, Normalize(email), c.bcryptHash(password, salt), None, None, None, None, 0, None, [], now)
  }

  /** POST /api/verify-otp. The checks run in order: an entry must exist; it
      must not have expired (an expired entry is deleted); the code must
      match exactly. Then the account is created; if its save fails (empty
      email or password, or the email already taken) the entry stays, and
      otherwise the entry is deleted. The map is keyed by the email as sent,
      the account by its normalised form. */
  function VerifyOtpSpec(st: State, email: string, otp: string, password: string, now: Time, salt: string, c: Crypto): (VerifyOtpResult, State)
  {
    if email !in st.otpStore then (NoOtpFound, st)
    else if now > st.otpStore[email].expiry then (OtpExpired, st.(otpStore := st.otpStore - {email}))
    else if st.otpStore[email].otp != otp then (InvalidOtp, st)
    else
      var id := st.nextId;
      var st' := st.(nextId := id + 1);
      if Normalize(email) == "" || password == "" || EmailTaken(st.accounts, id, Normalize(email)) then
        (RegistrationFailed, st')
      else
        (Registered(Normalize(email)),
         st'.(accounts := st.accounts + [NewAccount(id, email, password, now, salt, c)],
              otpStore := st.otpStore - {email}))
  }

  /** `req.headers['user-agent'] || 'Unknown'`. */
  function Device(userAgent: Option<string>): string {
    if Truthy(userAgent) then userAgent.value else "Unknown"
  }

  function LoginSessionLifetime(rememberMe: bool): int {
    if rememberMe then RememberedSessionLifetime else SessionLifetime
  }

  /** The claims login signs: `{ _id, email }`; there is no `userId`. */
  function LoginClaims(r: AccountRecord, rememberMe: bool): Claims {
    Claims(Some(r.id), None, Some(r.email), LoginSessionLifetime(rememberMe))
  }

  /** The record after a successful login: attempts reset, one session
      appended (holding the random `sessionToken`, not the returned JWT),
      `lastLogin` set, and a remember-me hash stored when asked for. */
  function AfterLogin(r: AccountRecord, rememberMe: bool, userAgent: Option<string>, now: Time,
                      sessionRaw: string, rememberRaw: string, c: Crypto): AccountRecord
  {
    var r1 := AfterAttemptsReset(r);
    var session := Session(sessionRaw, now, Some(Device(userAgent)), now + LoginSessionLifetime(rememberMe));
    var r2 := r1.(sessions := r1.sessions + [session], lastLogin := Some(now));
    if rememberMe then r2.(rememberMeToken := Some(c.sha256(rememberRaw))) else r2
  }

  /** POST /api/login. The checks run in order: unknown email, then lock,
      then password (a wrong one is recorded as a failed attempt). */
  function LoginSpec(st: State, email: string, password: string, rememberMe: bool, userAgent: Option<string>,
                     now: Time, sessionRaw: string, rememberRaw: string, c: Crypto): (LoginResult, State)
  {
    match FindOne(st.accounts, ByEmail(email))
    case None => (InvalidCredentials, st)
    case Some(k) =>
      var r := st.accounts[k];
      if Locked(r, now) then (AccountLocked(r.lockUntil.value), st)
      else if !c.bcryptCompare(password, r.password) then
        (InvalidCredentials, st.(accounts := st.accounts[k := AfterFailedAttempt(r, now)]))
      else
        var token := c.jwtSign(LoginClaims(r, rememberMe), now);
        (LoggedIn(token, if rememberMe then Some(rememberRaw) else None),
         st.(accounts := st.accounts[k := AfterLogin(r, rememberMe, userAgent, now, sessionRaw, rememberRaw, c)]))
  }

  /** POST /api/reset-password-request. An unknown email is refused. Else
      the hash of a fresh raw token and an expiry one hour ahead are saved
      before the mail is sent, so they stay stored even when it fails. */
  function ResetRequestSpec(st: State, email: string, now: Time, raw: string, delivered: bool, c: Crypto): (ResetRequestResult, State)
  {
    match FindOne(st.accounts, ByEmail(email))
    case None => (UserNotFound, st)
    case Some(k) =>
      var r := st.accounts[k].(resetPasswordToken := Some(c.sha256(raw)),
                               resetPasswordExpires := Some(now + ResetTokenLifetime));
      (if delivered then ResetEmailSent else ResetEmailFailed, st.(accounts := st.accounts[k := r]))
  }

  /** POST /api/reset-password/:token. The first account whose stored hash
      is the hash of the presented token and whose expiry lies strictly
      ahead gets the new password (hashed on save, unless it is the stored
      value itself) and loses both reset fields. A new empty password fails
      validation and nothing is stored. */
  function ResetPasswordSpec(st: State, token: string, password: string, now: Time, salt: string, c: Crypto): (ResetResult, State)
  {
    match FindOne(st.accounts, ByResetToken(c.sha256(token), now))
    case None => (InvalidOrExpiredToken, st)
    case Some(k) =>
      var stored := st.accounts[k].password;
      if password != stored && password == "" then (ResetFailed, st)
      else
        var r := st.accounts[k].(password := SavedPassword(stored, password, salt, c),
                                 resetPasswordToken := None, resetPasswordExpires := None);
        (PasswordReset, st.(accounts := st.accounts[k := r]))
  }

  /** `sessions.filter(s => s.token !== token)`. */
  function RemoveSessions(sessions: seq<Session>, token: string): (r: seq<Session>)
    ensures |r| <= |sessions|
    ensures forall x :: x in r <==> x in sessions && x.token != token
    ensures (forall j :: 0 <= j < |sessions| ==> sessions[j].token != token) ==> r == sessions
    decreases |sessions|
  {
    if sessions == [] then []
    else if sessions[0].token == token then RemoveSessions(sessions[1..], token)
    else [sessions[0]] + RemoveSessions(sessions[1..], token)
  }

  /** The filter keeps the surviving sessions in their original order: it
      distributes over concatenation. */
  lemma {:induction false} RemoveSessionsConcat(a: seq<Session>, b: seq<Session>, token: string)
    ensures RemoveSessions(a + b, token) == RemoveSessions(a, token) + RemoveSessions(b, token)
    decreases |a|
  {
    if a == [] {
      assert a + b == b;
    } else {
      assert (a + b)[0] == a[0];
      assert (a + b)[1..] == a[1..] + b;
      RemoveSessionsConcat(a[1..], b, token);
      if a[0].token != token {
        var x, y := RemoveSessions(a[1..], token), RemoveSessions(b, token);
        assert [a[0]] + (x + y) == ([a[0]] + x) + y;
      }
    }
  }

  /** POST /api/logout-session, behind verifyToken. The account is loaded
      again after verifyToken has saved it. */
  function LogoutSessionSpec(st: State, req: Request, sessionToken: string, now: Time, c: Crypto): (LogoutResult, State)
  {
    var (auth, accounts) := VerifySpec(st.accounts, req, now, c);
    match auth
    case Rejected(e) => (LogoutRejected(e), st)
    case Authenticated(user, token) =>
      match FindOne(accounts, ById(user))
      case None => (LogoutFailed, st.(accounts := accounts))
      case Some(k) =>
        var r := accounts[k].(sessions := RemoveSessions(accounts[k].sessions, sessionToken));
        (LoggedOut(sessionToken == token), st.(accounts := accounts[k := r]))
  }

  /** POST /api/logout-all, behind verifyToken: the session list is emptied
      and both cookies are cleared. */
  function LogoutAllSpec(st: State, req: Request, now: Time, c: Crypto): (LogoutResult, State)
  {
    var (auth, accounts) := VerifySpec(st.accounts, req, now, c);
    match auth
    case Rejected(e) => (LogoutRejected(e), st)
    case Authenticated(user, token) =>
      match FindOne(accounts, ById(user))
      case None => (LogoutFailed, st.(accounts := accounts))
      case Some(k) => (LoggedOut(true), st.(accounts := accounts[k := accounts[k].(sessions := [])]))
  }

  // ---------------------------------------------------------------------
  // The server.
  // ---------------------------------------------------------------------

  class Server {
    /** `const otpStore = new Map()`. */
    var otpStore: map<string, Pending>
    const db: Db

    ghost predicate Valid()
      reads this, db
    {
      db.Valid()
    }

    function Snapshot(): State
      reads this, db
    {
      State(otpStore, db.accounts, db.nextId)
    }

    constructor (c: Crypto)
      ensures Valid() && fresh(db) && db.crypto == c
      ensures Snapshot() == State(map[], [], 0)
    {
      otpStore := map[];
      db := new Db(c);
    }

    /** POST /api/send-otp, with `Math.random()` as `draw`. */
    method SendOtp(email: Option<string>, now: Time, draw: real, delivered: bool) returns (res: SendOtpResult)
      requires Valid() && 0.0 <= draw < 1.0
      modifies this
      ensures Valid() && unchanged(db)
      ensures (res, Snapshot()) == SendOtpSpec(old(Snapshot()), email, now, draw, delivered)
    {
      if !Truthy(email) {
        return EmailRequired;
      }
      var existing := FindOne(db.accounts, ByEmail(email.value));
      if existing.Some? {
        return EmailAlreadyRegistered;
      }
      var otp := GenerateOtp(draw);
      otpStore := otpStore[email.value := Pending(otp, now + OtpLifetime)];
      res := if delivered then OtpSent else OtpSendFailed;
    }

    /** POST /api/verify-otp, with the bcrypt salt as `salt`. */
    method VerifyOtp(email: string, otp: string, password: string, now: Time, salt: string) returns (res: VerifyOtpResult)
      requires Valid()
      modifies this, db
      ensures Valid()
      ensures (res, Snapshot()) == VerifyOtpSpec(old(Snapshot()), email, otp, password, now, salt, db.crypto)
    {
      if email !in otpStore {
        return NoOtpFound;
      }
      var stored := otpStore[email];
      if now > stored.expiry {
        otpStore := otpStore - {email};
        return OtpExpired;
      }
      if stored.otp != otp {
        return InvalidOtp;
      }
      var id := db.NewId();
      var user := new Account.Create(id, email, password, now);
      assert FindOne(db.accounts, ById(id)).None?;
      var saved := db.Save(user, salt);
      if !saved {
        return RegistrationFailed;
      }
      otpStore := otpStore - {email};
      res := Registered(user.email);
    }

    /** POST /api/login, with the random session token and remember-me
        token passed in. */
    method Login(email: string, password: string, rememberMe: bool, userAgent: Option<string>,
                 now: Time, sessionRaw: string, rememberRaw: string) returns (res: LoginResult)
      requires Valid()
      modifies db
      ensures Valid() && otpStore == old(otpStore)
      ensures (res, Snapshot()) == LoginSpec(old(Snapshot()), email, password, rememberMe, userAgent, now, sessionRaw, rememberRaw, db.crypto)
    {
      ghost var st := Snapshot();
      var k := FindOne(db.accounts, ByEmail(email));
      if k.None? {
        return InvalidCredentials;
      }
      var r := db.accounts[k.value];
      var user := new Account.Load(r);
      if user.IsLocked(now) {
        return AccountLocked(user.lockUntil.value);
      }
      if !user.ComparePassword(password, db.crypto) {
        RecordFailedLogin(user, k.value, now);
        return InvalidCredentials;
      }
      var token := db.crypto.jwtSign(LoginClaims(r, rememberMe), now);
      var cookie := OpenSession(user, k.value, rememberMe, userAgent, now, sessionRaw, rememberRaw);
      assert db.accounts == st.accounts[k.value := AfterLogin(r, rememberMe, userAgent, now, sessionRaw, rememberRaw, db.crypto)];
      res := LoggedIn(token, cookie);
    }

    /** The failed-password part of login on the loaded document `user`. */
    method RecordFailedLogin(user: Account, ghost k: nat, now: Time)
      requires Valid() && k < |db.accounts| && user.Record() == db.accounts[k] && !user.passwordModified
      modifies db, user
      ensures Valid() && db.nextId == old(db.nextId)
      ensures db.accounts == old(db.accounts)[k := AfterFailedAttempt(old(user.Record()), now)]
    {
      user.IncrementLoginAttempts(now);
      db.Resave(user, k);
    }

    /** The successful part of login on the loaded document `user`. */
    method OpenSession(user: Account, ghost k: nat, rememberMe: bool, userAgent: Option<string>,
                       now: Time, sessionRaw: string, rememberRaw: string) returns (cookie: Option<string>)
      requires Valid() && k < |db.accounts| && user.Record() == db.accounts[k] && !user.passwordModified
      modifies db, user
      ensures Valid() && db.nextId == old(db.nextId)
      ensures db.accounts == old(db.accounts)[k := AfterLogin(old(user.Record()), rememberMe, userAgent, now, sessionRaw, rememberRaw, db.crypto)]
      ensures cookie == if rememberMe then Some(rememberRaw) else None
    {
      user.ResetLoginAttempts();
      user.sessions := user.sessions + [Session(sessionRaw, now, Some(Device(userAgent)), now + LoginSessionLifetime(rememberMe))];
      user.lastLogin := Some(now);
      db.Resave(user, k);
      cookie := None;
      if rememberMe {
        var raw := user.GenerateRememberMeToken(rememberRaw, db.crypto);
        db.Resave(user, k);
        cookie := Some(raw);
      }
    }

    /** POST /api/reset-password-request, with the random raw token passed
        in. */
    method ResetPasswordRequest(email: string, now: Time, raw: string, delivered: bool) returns (res: ResetRequestResult)
      requires Valid()
      modifies db
      ensures Valid() && otpStore == old(otpStore)
      ensures (res, Snapshot()) == ResetRequestSpec(old(Snapshot()), email, now, raw, delivered, db.crypto)
    {
      var k := FindOne(db.accounts, ByEmail(email));
      if k.None? {
        return UserNotFound;
      }
      var user := new Account.Load(db.accounts[k.value]);
      var resetToken := user.GeneratePasswordResetToken(raw, now, db.crypto);
      db.Resave(user, k.value);
      // The link carrying `resetToken` is mailed here.
      res := if delivered then ResetEmailSent else ResetEmailFailed;
    }

    /** POST /api/reset-password/:token, with the bcrypt salt passed in. */
    method ResetPassword(token: string, password: string, now: Time, salt: string) returns (res: ResetResult)
      requires Valid()
      modifies db
      ensures Valid() && otpStore == old(otpStore)
      ensures (res, Snapshot()) == ResetPasswordSpec(old(Snapshot()), token, password, now, salt, db.crypto)
    {
      var hashed := db.crypto.sha256(token);
      var k := FindOne(db.accounts, ByResetToken(hashed, now));
      if k.None? {
        return InvalidOrExpiredToken;
      }
      var user := new Account.Load(db.accounts[k.value]);
      user.SetPassword(password);
      user.resetPasswordToken := None;
      user.resetPasswordExpires := None;
      ghost var before := db.accounts;
      ResaveInPlace(before, k.value, user.Record());
      ResaveInPlace(before, k.value, AfterPreSave(user.Record(), user.passwordModified, salt, db.crypto));
      var saved := db.Save(user, salt);
      if !saved {
        return ResetFailed;
      }
      res := PasswordReset;
    }

    /** POST /api/logout-session. */
    method LogoutSession(req: Request, sessionToken: string, now: Time) returns (res: LogoutResult)
      requires Valid()
      modifies db
      ensures Valid() && otpStore == old(otpStore)
      ensures (res, Snapshot()) == LogoutSessionSpec(old(Snapshot()), req, sessionToken, now, db.crypto)
    {
      var auth := VerifyToken(db, req, now);
      if auth.Rejected? {
        return LogoutRejected(auth.error);
      }
      var k := FindOne(db.accounts, ById(auth.user));
      if k.None? {
        return LogoutFailed;
      }
      var user := new Account.Load(db.accounts[k.value]);
      user.sessions := RemoveSessions(user.sessions, sessionToken);
      db.Resave(user, k.value);
      res := LoggedOut(sessionToken == auth.token);
    }

    /** POST /api/logout-all. */
    method LogoutAll(req: Request, now: Time) returns (res: LogoutResult)
      requires Valid()
      modifies db
      ensures Valid() && otpStore == old(otpStore)
      ensures (res, Snapshot()) == LogoutAllSpec(old(Snapshot()), req, now, db.crypto)
    {
      var auth := VerifyToken(db, req, now);
      if auth.Rejected? {
        return LogoutRejected(auth.error);
      }
      var k := FindOne(db.accounts, ById(auth.user));
      if k.None? {
        return LogoutFailed;
      }
      var user := new Account.Load(db.accounts[k.value]);
      user.sessions := [];
      db.Resave(user, k.value);
      res := LoggedOut(true);
    }
  }
}
