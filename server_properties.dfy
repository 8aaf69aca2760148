/** What the handlers of backend/auth/server.js guarantee across requests,
    stated over their specifications. */
module ServerProperties {
  import opened Common
  import opened Primitives
  import opened UserModel
  import opened Store
  import opened Middleware
  import opened AuthServer

  // ---------------------------------------------------------------------
  // Registration by OTP.
  // ---------------------------------------------------------------------

  /** Once a code has been issued for an unregistered email, only that exact
      code is accepted while it is valid: any other guess is refused and
      leaves everything as it was, and the right one registers the account
      unless validation rejects the email or password. */
  lemma OtpCodeChecked(st: State, e: string, t0: Time, draw: real, delivered: bool,
                       guess: string, password: string, now: Time, salt: string, c: Crypto)
    requires 0.0 <= draw < 1.0 && e != ""
    requires FindOne(st.accounts, ByEmail(e)).None?
    requires now <= t0 + OtpLifetime
    ensures var st1 := SendOtpSpec(st, Some(e), t0, draw, delivered).1;
            guess != GenerateOtp(draw) ==> VerifyOtpSpec(st1, e, guess, password, now, salt, c) == (InvalidOtp, st1)
    ensures var st1 := SendOtpSpec(st, Some(e), t0, draw, delivered).1;
            guess == GenerateOtp(draw) ==>
              (VerifyOtpSpec(st1, e, guess, password, now, salt, c).0 == Registered(Normalize(e)) <==>
               Normalize(e) != "" && password != "")
  {
    var st1 := SendOtpSpec(st, Some(e), t0, draw, delivered).1;
    assert st1.accounts == st.accounts;
    assert !EmailTaken(st.accounts, st.nextId, Normalize(e)) by {
      forall j | 0 <= j < |st.accounts| ensures st.accounts[j].email != Normalize(e) {
        assert !Matches(ByEmail(e), st.accounts[j]);
      }
    }
  }

  /** A code issued at `t0` is accepted up to and including `t0` plus five
      minutes and refused as expired from the next millisecond on; the
      expired entry is removed. */
  lemma OtpExpiry(st: State, e: string, t0: Time, draw: real, delivered: bool,
                  otp: string, password: string, now: Time, salt: string, c: Crypto)
    requires 0.0 <= draw < 1.0 && e != ""
    requires FindOne(st.accounts, ByEmail(e)).None?
    ensures var st1 := SendOtpSpec(st, Some(e), t0, draw, delivered).1;
            var (res, st2) := VerifyOtpSpec(st1, e, otp, password, now, salt, c);
            (res == OtpExpired <==> now > t0 + OtpLifetime) &&
            (res == OtpExpired ==> e !in st2.otpStore && VerifyOtpSpec(st2, e, otp, password, now, salt, c).0 == NoOtpFound)
  {
  }

  /** Only the stored code, within its lifetime, registers an account; the
      entry is then consumed, so the same code cannot register again; the
      new account is found under the email, holds the hashed password, and
      the unique index still holds. */
  lemma RegistrationConsumesOtp(st: State, e: string, otp: string, password: string, now: Time, salt: string, c: Crypto,
                                otp': string, password': string, now': Time, salt': string)
    requires Unique(st.accounts)
    requires forall j :: 0 <= j < |st.accounts| ==> st.accounts[j].id < st.nextId
    ensures var (res, st2) := VerifyOtpSpec(st, e, otp, password, now, salt, c);
            res.Registered? ==>
              e in st.otpStore && st.otpStore[e].otp == otp && now <= st.otpStore[e].expiry &&
              VerifyOtpSpec(st2, e, otp', password', now', salt', c).0 == NoOtpFound &&
              FindOne(st2.accounts, ByEmail(e)) == Some(|st.accounts|) &&
              st2.accounts[|st.accounts|].password == c.bcryptHash(password, salt) &&
              Unique(st2.accounts)
  {
    var (res, st2) := VerifyOtpSpec(st, e, otp, password, now, salt, c);
    if res.Registered? {
      var n := |st.accounts|;
      var r := NewAccount(st.nextId, e, password, now, salt, c);
      assert st2.accounts == st.accounts + [r];
      assert !EmailTaken(st.accounts, st.nextId, r.email);
      assert FindOne(st.accounts, ByEmail(e)).None?;
      FindAppended(st.accounts, r, ByEmail(e));
    }
  }

  /** The password given at registration logs in at once: bcrypt accepts a
      password against its own hash, and a new account carries no lock. */
  lemma RegisteredPasswordLogsIn(st: State, e: string, otp: string, password: string, now: Time, salt: string, c: Crypto,
                                 rememberMe: bool, userAgent: Option<string>, later: Time, sessionRaw: string, rememberRaw: string)
    requires Unique(st.accounts) && BcryptSound(c)
    requires forall j :: 0 <= j < |st.accounts| ==> st.accounts[j].id < st.nextId
    ensures var (res, st2) := VerifyOtpSpec(st, e, otp, password, now, salt, c);
            res.Registered? ==>
              LoginSpec(st2, e, password, rememberMe, userAgent, later, sessionRaw, rememberRaw, c).0.LoggedIn?
  {
    var (res, st2) := VerifyOtpSpec(st, e, otp, password, now, salt, c);
    if res.Registered? {
      RegistrationConsumesOtp(st, e, otp, password, now, salt, c, otp, password, now, salt);
      var n := |st.accounts|;
      assert st2.accounts[n] == NewAccount(st.nextId, e, password, now, salt, c);
      assert c.bcryptCompare(password, c.bcryptHash(password, salt));
    }
  }

  // ---------------------------------------------------------------------
  // Login.
  // ---------------------------------------------------------------------

  /** The three answers of login, each with its exact condition: an
      unknown email and a wrong password get the same answer; a locked
      account is refused whatever the password. Login never touches the OTP
      store, the ids, the emails or the password hashes. */
  lemma LoginOutcomes(st: State, email: string, password: string, rememberMe: bool, userAgent: Option<string>,
                      now: Time, sessionRaw: string, rememberRaw: string, c: Crypto)
    ensures var (res, st') := LoginSpec(st, email, password, rememberMe, userAgent, now, sessionRaw, rememberRaw, c);
            var k := FindOne(st.accounts, ByEmail(email));
            (res == InvalidCredentials <==>
               k.None? || (!Locked(st.accounts[k.value], now) && !c.bcryptCompare(password, st.accounts[k.value].password))) &&
            (res.AccountLocked? <==> k.Some? && Locked(st.accounts[k.value], now)) &&
            (res.LoggedIn? <==>
               k.Some? && !Locked(st.accounts[k.value], now) && c.bcryptCompare(password, st.accounts[k.value].password))
    ensures var st' := LoginSpec(st, email, password, rememberMe, userAgent, now, sessionRaw, rememberRaw, c).1;
            st'.otpStore == st.otpStore && st'.nextId == st.nextId && |st'.accounts| == |st.accounts| &&
            forall j :: 0 <= j < |st.accounts| ==>
              st'.accounts[j].id == st.accounts[j].id && st'.accounts[j].email == st.accounts[j].email &&
              st'.accounts[j].password == st.accounts[j].password
  {
  }

  /** A successful login opens exactly one new session holding the random
      session token, with the lifetime the remember-me flag selects, records
      the login time, clears the failure count and any lock, and leaves
      every other account as it was. */
  lemma LoginOpensSession(st: State, email: string, password: string, rememberMe: bool, userAgent: Option<string>,
                          now: Time, sessionRaw: string, rememberRaw: string, c: Crypto)
    requires LoginSpec(st, email, password, rememberMe, userAgent, now, sessionRaw, rememberRaw, c).0.LoggedIn?
    ensures var (res, st') := LoginSpec(st, email, password, rememberMe, userAgent, now, sessionRaw, rememberRaw, c);
            var k := FindOne(st.accounts, ByEmail(email)).value;
            var s := st'.accounts[k].sessions;
            |s| == |st.accounts[k].sessions| + 1 && s[..|s| - 1] == st.accounts[k].sessions &&
            s[|s| - 1].token == sessionRaw && s[|s| - 1].expiresAt - now == (if rememberMe then 30 * Day else Day) &&
            s[|s| - 1].lastActivity == now &&
            st'.accounts[k].loginAttempts == 0 && !Locked(st'.accounts[k], now) &&
            st'.accounts[k].lastLogin == Some(now) &&
            (res.rememberMeCookie.Some? <==> rememberMe) &&
            (rememberMe ==> st'.accounts[k].rememberMeToken == Some(c.sha256(res.rememberMeCookie.value)))
    ensures var st' := LoginSpec(st, email, password, rememberMe, userAgent, now, sessionRaw, rememberRaw, c).1;
            var k := FindOne(st.accounts, ByEmail(email)).value;
            |st'.accounts| == |st.accounts| &&
            forall j :: 0 <= j < |st.accounts| && j != k ==> st'.accounts[j] == st.accounts[j]
  {
    var (res, st') := LoginSpec(st, email, password, rememberMe, userAgent, now, sessionRaw, rememberRaw, c);
    var k := FindOne(st.accounts, ByEmail(email)).value;
    var s := st'.accounts[k].sessions;
    assert s == st.accounts[k].sessions + [s[|s| - 1]];
  }

  /** Unfolding helper for the lemmas below: what a successful login stores,
      for the account it found. */
  lemma LoginSucceeds(st: State, email: string, password: string, rememberMe: bool, userAgent: Option<string>,
                      now: Time, sessionRaw: string, rememberRaw: string, c: Crypto, k: nat)
    requires FindOne(st.accounts, ByEmail(email)) == Some(k)
    requires LoginSpec(st, email, password, rememberMe, userAgent, now, sessionRaw, rememberRaw, c).0.LoggedIn?
    ensures k < |st.accounts|
    ensures var (res, st') := LoginSpec(st, email, password, rememberMe, userAgent, now, sessionRaw, rememberRaw, c);
            st'.accounts == st.accounts[k := AfterLogin(st.accounts[k], rememberMe, userAgent, now, sessionRaw, rememberRaw, c)] &&
            res.rememberMeCookie == (if rememberMe then Some(rememberRaw) else None)
  {
  }

  /** A login with "remember me" returns a cookie that later renews the
      session without the password: `checkRememberMe` mints a token for it,
      and that token, presented while the JWT library accepts it,
      authenticates as the account that logged in. Assumes no other account
      holds the same remember-me hash. */
  lemma RememberedLoginRenews(st: State, email: string, password: string, userAgent: Option<string>,
                              now: Time, sessionRaw: string, rememberRaw: string, c: Crypto, k: nat,
                              req: Request, renewAt: Time, later: Request, laterNow: Time)
    requires Unique(st.accounts) && JwtSound(c) && rememberRaw != ""
    requires FindOne(st.accounts, ByEmail(email)) == Some(k)
    requires LoginSpec(st, email, password, true, userAgent, now, sessionRaw, rememberRaw, c).0.LoggedIn?
    requires forall j :: 0 <= j < |st.accounts| && j != k ==> st.accounts[j].rememberMeToken != Some(c.sha256(rememberRaw))
    requires req.rememberMeCookie == LoginSpec(st, email, password, true, userAgent, now, sessionRaw, rememberRaw, c).0.rememberMeCookie
    ensures var st' := LoginSpec(st, email, password, true, userAgent, now, sessionRaw, rememberRaw, c).1;
            CheckRememberMeSpec(st'.accounts, req, renewAt, c).0.Some?
    ensures var st' := LoginSpec(st, email, password, true, userAgent, now, sessionRaw, rememberRaw, c).1;
            var (issued, renewed) := CheckRememberMeSpec(st'.accounts, req, renewAt, c);
            SelectToken(later) == issued && c.jwtVerify(issued.value, laterNow).Some? ==>
              VerifySpec(renewed, later, laterNow, c).0 == Authenticated(st.accounts[k].id, issued.value)
  {
    LoginSucceeds(st, email, password, true, userAgent, now, sessionRaw, rememberRaw, c, k);
    var after := LoginSpec(st, email, password, true, userAgent, now, sessionRaw, rememberRaw, c).1.accounts;
    var h := c.sha256(rememberRaw);
    assert after[k].rememberMeToken == Some(h);
    SameKeysUnique(st.accounts, after);
    OnlyMatch(after, ByRememberMeToken(h), k);
    var (issued, renewed) := CheckRememberMeSpec(after, req, renewAt, c);
    if SelectToken(later) == issued && c.jwtVerify(issued.value, laterNow).Some? {
      RememberMeTokenAuthenticates(after, req, renewAt, c, later, laterNow);
    }
  }

  /** A sequence of login attempts on the same email with the given
      passwords at the given times. */
  function FailedLogins(st: State, email: string, passwords: seq<string>, times: seq<Time>, c: Crypto): State
    requires |passwords| == |times|
    decreases |times|
  {
    if times == [] then st
    else FailedLogins(LoginSpec(st, email, passwords[0], false, None, times[0], "", "", c).1,
                      email, passwords[1..], times[1..], c)
  }

  /** Wrong passwords on an unlocked account, up to the threshold, are
      counted one per attempt exactly as `incrementLoginAttempts` does. */
  lemma {:induction false} FailedLoginsCounted(st: State, email: string, passwords: seq<string>, times: seq<Time>, c: Crypto, k: nat)
    requires |passwords| == |times|
    requires FindOne(st.accounts, ByEmail(email)) == Some(k)
    requires st.accounts[k].lockUntil == None
    requires st.accounts[k].loginAttempts + |times| <= MaxLoginAttempts
    requires forall i :: 0 <= i < |passwords| ==> !c.bcryptCompare(passwords[i], st.accounts[k].password)
    ensures FailedLogins(st, email, passwords, times, c).accounts ==
              st.accounts[k := AfterFailedAttempts(st.accounts[k], times)]
    decreases |times|
  {
    var r := st.accounts[k];
    if times == [] {
      assert st.accounts[k := r] == st.accounts;
    } else {
      var r1 := AfterFailedAttempt(r, times[0]);
      var st1 := LoginSpec(st, email, passwords[0], false, None, times[0], "", "", c).1;
      assert st1.accounts == st.accounts[k := r1];
      if |times| > 1 {
        FindOneAgrees(st.accounts, st1.accounts, ByEmail(email));
        FailedLoginsCounted(st1, email, passwords[1..], times[1..], c, k);
        assert st1.accounts[k := AfterFailedAttempts(r1, times[1..])] == st.accounts[k := AfterFailedAttempts(r, times)];
      }
    }
  }

  /** Five wrong passwords in a row on a fresh account lock it for an hour
      from the fifth: during that hour every login, even with the right
      password, is answered with the lock and changes nothing; from the end
      of the hour the right password logs in again. */
  lemma RepeatedFailuresLock(st: State, email: string, passwords: seq<string>, times: seq<Time>, c: Crypto, k: nat,
                             password: string, rememberMe: bool, userAgent: Option<string>,
                             now: Time, sessionRaw: string, rememberRaw: string)
    requires |passwords| == |times| == MaxLoginAttempts
    requires FindOne(st.accounts, ByEmail(email)) == Some(k)
    requires st.accounts[k].lockUntil == None && st.accounts[k].loginAttempts == 0
    requires forall i :: 0 <= i < |passwords| ==> !c.bcryptCompare(passwords[i], st.accounts[k].password)
    ensures var st5 := FailedLogins(st, email, passwords, times, c);
            var last := times[|times| - 1];
            times[|times| - 1] <= now < last + LockTime ==>
              LoginSpec(st5, email, password, rememberMe, userAgent, now, sessionRaw, rememberRaw, c) ==
                (AccountLocked(last + LockTime), st5)
    ensures var st5 := FailedLogins(st, email, passwords, times, c);
            var last := times[|times| - 1];
            now >= last + LockTime && c.bcryptCompare(password, st.accounts[k].password) ==>
              LoginSpec(st5, email, password, rememberMe, userAgent, now, sessionRaw, rememberRaw, c).0.LoggedIn?
  {
    FailedLoginsCounted(st, email, passwords, times, c, k);
    ConsecutiveFailuresLock(st.accounts[k], times);
    var st5 := FailedLogins(st, email, passwords, times, c);
    FindOneAgrees(st.accounts, st5.accounts, ByEmail(email));
  }

  /** The JWT that login returns never gets past `verifyToken`: it is signed
      over `_id`, while the middleware looks up the `userId` claim. This
      holds for any later state of the collection, as long as the JWT
      library only accepts tokens it signed, with the claims it signed. */
  lemma LoginTokenNeverAuthenticates(st: State, email: string, password: string, rememberMe: bool, userAgent: Option<string>,
                                     now: Time, sessionRaw: string, rememberRaw: string, c: Crypto,
                                     accounts: seq<AccountRecord>, later: Request, laterNow: Time)
    requires JwtSound(c)
    requires LoginSpec(st, email, password, rememberMe, userAgent, now, sessionRaw, rememberRaw, c).0.LoggedIn?
    requires SelectToken(later) == Some(LoginSpec(st, email, password, rememberMe, userAgent, now, sessionRaw, rememberRaw, c).0.token)
    ensures VerifySpec(accounts, later, laterNow, c) == (Rejected(InvalidToken), accounts)
  {
    var out := LoginSpec(st, email, password, rememberMe, userAgent, now, sessionRaw, rememberRaw, c);
    var k := FindOne(st.accounts, ByEmail(email)).value;
    var claims := LoginClaims(st.accounts[k], rememberMe);
    assert out.0.token == c.jwtSign(claims, now);
    var v := c.jwtVerify(c.jwtSign(claims, now), laterNow);
    assert v == None || v == Some(claims);
    NoUserIdClaimRejected(accounts, later, laterNow, c);
  }

  // ---------------------------------------------------------------------
  // Password reset.
  // ---------------------------------------------------------------------

  /** Unfolding helper for the reset lemmas below: what a reset request does
      to the account it finds. */
  lemma ResetRequestStores(st: State, email: string, t0: Time, raw: string, delivered: bool, c: Crypto, k: nat)
    requires FindOne(st.accounts, ByEmail(email)) == Some(k)
    ensures k < |st.accounts|
    ensures ResetRequestSpec(st, email, t0, raw, delivered, c).1 ==
              st.(accounts := st.accounts[k := st.accounts[k].(resetPasswordToken := Some(c.sha256(raw)),
                                                              resetPasswordExpires := Some(t0 + ResetTokenLifetime))])
  {
  }

  /** Redeeming a raw token whose hash only account `k` holds: refused from
      its expiry on; before that the new password is set and the reset
      fields cleared, unless a new password is empty. */
  lemma ResetTokenRedeems(st: State, k: nat, raw: string, expires: Time, password: string, now: Time, salt: string, c: Crypto)
    requires k < |st.accounts|
    requires st.accounts[k].resetPasswordToken == Some(c.sha256(raw)) && st.accounts[k].resetPasswordExpires == Some(expires)
    requires forall j :: 0 <= j < |st.accounts| && j != k ==> st.accounts[j].resetPasswordToken != Some(c.sha256(raw))
    ensures var (res, st2) := ResetPasswordSpec(st, raw, password, now, salt, c);
            (res == InvalidOrExpiredToken <==> now >= expires) &&
            (res == PasswordReset <==> now < expires && (password != "" || password == st.accounts[k].password)) &&
            (res == PasswordReset ==>
               st2.accounts == st.accounts[k := st.accounts[k].(password := SavedPassword(st.accounts[k].password, password, salt, c),
                                                               resetPasswordToken := None,
                                                               resetPasswordExpires := None)])
  {
    if now < expires {
      OnlyMatch(st.accounts, ByResetToken(c.sha256(raw), now), k);
    }
  }

  /** A reset token, redeemed after the request for it: it is refused once
      an hour has passed; before that it sets the new password and clears
      the reset fields, unless a new password is empty. Assumes no other
      account holds a reset token with the same hash. */
  lemma ResetRequestThenRedeem(st: State, email: string, t0: Time, raw: string, delivered: bool,
                               password: string, now: Time, salt: string, c: Crypto, k: nat)
    requires FindOne(st.accounts, ByEmail(email)) == Some(k)
    requires forall j :: 0 <= j < |st.accounts| && j != k ==> st.accounts[j].resetPasswordToken != Some(c.sha256(raw))
    ensures var st1 := ResetRequestSpec(st, email, t0, raw, delivered, c).1;
            var (res, st2) := ResetPasswordSpec(st1, raw, password, now, salt, c);
            (res == InvalidOrExpiredToken <==> now >= t0 + ResetTokenLifetime) &&
            (res == PasswordReset <==> now < t0 + ResetTokenLifetime && (password != "" || password == st.accounts[k].password)) &&
            (res == PasswordReset ==>
               st2.accounts == st.accounts[k := st.accounts[k].(password := SavedPassword(st.accounts[k].password, password, salt, c),
                                                               resetPasswordToken := None,
                                                               resetPasswordExpires := None)])
  {
    ResetRequestStores(st, email, t0, raw, delivered, c, k);
    var st1 := ResetRequestSpec(st, email, t0, raw, delivered, c).1;
    ResetTokenRedeems(st1, k, raw, t0 + ResetTokenLifetime, password, now, salt, c);
    var saved := SavedPassword(st.accounts[k].password, password, salt, c);
    var cleared := st.accounts[k].(password := saved, resetPasswordToken := None, resetPasswordExpires := None);
    assert st1.accounts[k := st1.accounts[k].(password := saved,
                                              resetPasswordToken := None, resetPasswordExpires := None)]
        == st.accounts[k := cleared];
  }

  /** A reset token works once: after a successful reset no request with
      the same token succeeds, at any time and with any password, when no
      two accounts held its hash. */
  lemma ResetTokenSingleUse(st: State, token: string, password: string, now: Time, salt: string, c: Crypto,
                            password': string, now': Time, salt': string)
    requires forall i, j :: 0 <= i < j < |st.accounts| ==>
               st.accounts[i].resetPasswordToken != Some(c.sha256(token)) ||
               st.accounts[j].resetPasswordToken != Some(c.sha256(token))
    ensures var (res, st2) := ResetPasswordSpec(st, token, password, now, salt, c);
            res == PasswordReset ==>
              ResetPasswordSpec(st2, token, password', now', salt', c) == (InvalidOrExpiredToken, st2)
  {
    var (res, st2) := ResetPasswordSpec(st, token, password, now, salt, c);
    if res == PasswordReset {
      var k := FindOne(st.accounts, ByResetToken(c.sha256(token), now)).value;
      forall j | 0 <= j < |st2.accounts| ensures !Matches(ByResetToken(c.sha256(token), now'), st2.accounts[j]) {
        if j < k {
          assert st.accounts[j].resetPasswordToken != Some(c.sha256(token));
        } else if j > k {
          assert st.accounts[j].resetPasswordToken != Some(c.sha256(token));
        }
      }
    }
  }

  // ---------------------------------------------------------------------
  // Logout.
  // ---------------------------------------------------------------------

  /** Records with the same ids and emails keep the unique index. */
  lemma SameKeysUnique(a: seq<AccountRecord>, b: seq<AccountRecord>)
    requires Unique(a) && |a| == |b|
    requires forall j :: 0 <= j < |a| ==> a[j].id == b[j].id && a[j].email == b[j].email
    ensures Unique(b)
  {
  }

  /** `verifyToken` answers the same on two collections with the same ids
      whose records agree on whether they hold a session for the presented
      token. */
  lemma VerifyAgrees(a: seq<AccountRecord>, b: seq<AccountRecord>, req: Request, now: Time, c: Crypto)
    requires |a| == |b|
    requires forall j :: 0 <= j < |a| ==> a[j].id == b[j].id
    requires SelectToken(req).Some? ==>
               forall j :: 0 <= j < |a| ==>
                 (FindSession(a[j].sessions, SelectToken(req).value).Some? <==> FindSession(b[j].sessions, SelectToken(req).value).Some?)
    ensures VerifySpec(a, req, now, c).0 == VerifySpec(b, req, now, c).0
  {
    var t := SelectToken(req);
    if t.Some? && c.jwtVerify(t.value, now).Some? && c.jwtVerify(t.value, now).value.userId.Some? {
      var q := ById(c.jwtVerify(t.value, now).value.userId.value);
      FindOneAgrees(a, b, q);
      var k := FindOne(a, q);
      if k.Some? {
        assert FindSession(a[k.value].sessions, t.value).Some? <==> FindSession(b[k.value].sessions, t.value).Some?;
      }
    }
  }

  /** After removing the sessions of one token, that token has no session
      and every other token has one exactly when it had one before. */
  lemma FindSessionAfterRemove(s: seq<Session>, token: string, t: string)
    ensures t == token ==> FindSession(RemoveSessions(s, token), t).None?
    ensures t != token ==> (FindSession(RemoveSessions(s, token), t).Some? <==> FindSession(s, t).Some?)
  {
    var r := RemoveSessions(s, token);
    if t == token {
      forall j | 0 <= j < |r| ensures r[j].token != t {
        assert r[j] in r;
      }
    } else {
      if FindSession(s, t).Some? {
        var i := FindSession(s, t).value;
        assert s[i] in r;
      }
      if FindSession(r, t).Some? {
        var i := FindSession(r, t).value;
        assert r[i] in s;
      }
    }
  }

  /** What verifyToken leaves behind keeps the unique index. */
  lemma VerifyKeepsUnique(accounts: seq<AccountRecord>, req: Request, now: Time, c: Crypto)
    requires Unique(accounts)
    ensures Unique(VerifySpec(accounts, req, now, c).1)
    ensures |VerifySpec(accounts, req, now, c).1| == |accounts|
    ensures forall j :: 0 <= j < |accounts| ==>
              VerifySpec(accounts, req, now, c).1[j].id == accounts[j].id &&
              VerifySpec(accounts, req, now, c).1[j].rememberMeToken == accounts[j].rememberMeToken
  {
    var (auth, mid) := VerifySpec(accounts, req, now, c);
    if auth.Authenticated? {
      var k, i :| 0 <= k < |accounts| && accounts[k].id == auth.user &&
        0 <= i < |accounts[k].sessions| && accounts[k].sessions[i].token == auth.token &&
        mid == accounts[k := Touch(accounts[k], i, now)];
      SameKeysUnique(accounts, mid);
    }
  }

  /** Ending one session revokes exactly that token for the signed-in
      account: any request presenting another token is answered as it
      would have been before, and a request presenting the revoked token
      with the account's `userId` claim finds no session. The cookies are
      cleared exactly when the revoked token is the one the request used. */
  lemma LogoutSessionRevokesOne(st: State, req: Request, sessionToken: string, now: Time, c: Crypto,
                                later: Request, laterNow: Time)
    requires Unique(st.accounts)
    requires LogoutSessionSpec(st, req, sessionToken, now, c).0.LoggedOut?
    ensures var (res, st') := LogoutSessionSpec(st, req, sessionToken, now, c);
            (res.clearCookies <==> SelectToken(req) == Some(sessionToken)) &&
            st'.otpStore == st.otpStore && st'.nextId == st.nextId
    ensures var mid := VerifySpec(st.accounts, req, now, c).1;
            var after := LogoutSessionSpec(st, req, sessionToken, now, c).1.accounts;
            SelectToken(later) != Some(sessionToken) ==>
              VerifySpec(after, later, laterNow, c).0 == VerifySpec(mid, later, laterNow, c).0
    ensures var user := VerifySpec(st.accounts, req, now, c).0.user;
            var after := LogoutSessionSpec(st, req, sessionToken, now, c).1.accounts;
            SelectToken(later) == Some(sessionToken) && c.jwtVerify(sessionToken, laterNow).Some? &&
            c.jwtVerify(sessionToken, laterNow).value.userId == Some(user) ==>
              VerifySpec(after, later, laterNow, c).0 == Rejected(SessionExpired)
  {
    var (auth, mid) := VerifySpec(st.accounts, req, now, c);
    VerifyKeepsUnique(st.accounts, req, now, c);
    var k := FindOne(mid, ById(auth.user)).value;
    var after := mid[k := mid[k].(sessions := RemoveSessions(mid[k].sessions, sessionToken))];
    assert LogoutSessionSpec(st, req, sessionToken, now, c).1.accounts == after;
    var t := SelectToken(later);
    if t.Some? && t.value != sessionToken {
      FindSessionAfterRemove(mid[k].sessions, sessionToken, t.value);
      VerifyAgrees(mid, after, later, laterNow, c);
    } else if t.Some? {
      FindOneAgrees(mid, after, ById(auth.user));
      FindSessionAfterRemove(mid[k].sessions, sessionToken, t.value);
    }
  }

  /** Ending all sessions revokes every token of the signed-in account: no
      later request whose token carries its `userId` claim gets through.
      The stored remember-me hash is not cleared. */
  lemma LogoutAllRevokes(st: State, req: Request, now: Time, c: Crypto, later: Request, laterNow: Time)
    requires Unique(st.accounts)
    requires LogoutAllSpec(st, req, now, c).0.LoggedOut?
    ensures var st' := LogoutAllSpec(st, req, now, c).1;
            st'.otpStore == st.otpStore && st'.nextId == st.nextId && |st'.accounts| == |st.accounts| &&
            forall j :: 0 <= j < |st.accounts| ==> st'.accounts[j].rememberMeToken == st.accounts[j].rememberMeToken
    ensures var user := VerifySpec(st.accounts, req, now, c).0.user;
            var after := LogoutAllSpec(st, req, now, c).1.accounts;
            var t := SelectToken(later);
            t.Some? && c.jwtVerify(t.value, laterNow).Some? && c.jwtVerify(t.value, laterNow).value.userId == Some(user) ==>
              VerifySpec(after, later, laterNow, c).0 == Rejected(SessionExpired)
  {
    var (auth, mid) := VerifySpec(st.accounts, req, now, c);
    VerifyKeepsUnique(st.accounts, req, now, c);
    var k := FindOne(mid, ById(auth.user)).value;
    var after := mid[k := mid[k].(sessions := [])];
    assert LogoutAllSpec(st, req, now, c).1.accounts == after;
    FindOneAgrees(mid, after, ById(auth.user));
  }
}
