/** The account routes backend/auth/server.js actually mounts, run one
    request after another. `verifyToken` guards
    logout-session and logout-all; `checkRememberMe` is never mounted, so
    the only sessions ever stored are the random hex tokens login creates.
    No such token is a JWT, and so no request ever gets past `verifyToken`. */
module ServerRuns {
  import opened Common
  import opened Primitives
  import opened UserModel
  import opened Store
  import opened Middleware
  import opened AuthServer

  /** One request to a mounted account route, with the inputs the handler
      draws from randomness, the clock and the mail provider. */
  datatype Call =
    | SendOtpCall(body: Option<string>, now: Time, draw: real, delivered: bool)
    | VerifyOtpCall(email: string, otp: string, password: string, now: Time, salt: string)
    | LoginCall(email: string, password: string, rememberMe: bool, userAgent: Option<string>,
                now: Time, sessionRaw: string, rememberRaw: string)
    | ResetRequestCall(email: string, now: Time, raw: string, delivered: bool)
    | ResetCall(token: string, password: string, now: Time, salt: string)
    | LogoutSessionCall(req: Request, sessionToken: string, now: Time)
    | LogoutAllCall(req: Request, now: Time)

  /** `crypto.randomBytes(n).toString('hex')` yields lower-case hex digits. */
  predicate IsHex(s: string) {
    forall i :: 0 <= i < |s| ==> s[i] in "0123456789abcdef"
  }

  /** The inputs a real run can supply: `Math.random()` lies in [0, 1) and
      the session token of a login is hex. */
  predicate Possible(call: Call) {
    && (call.SendOtpCall? ==> 0.0 <= call.draw < 1.0)
    && (call.LoginCall? ==> IsHex(call.sessionRaw))
  }

  /** The state after one request. */
  function Step(st: State, call: Call, c: Crypto): State
    requires Possible(call)
  {
    match call
    case SendOtpCall(email, now, draw, delivered) => SendOtpSpec(st, email, now, draw, delivered).1
    case VerifyOtpCall(email, otp, password, now, salt) => VerifyOtpSpec(st, email, otp, password, now, salt, c).1
    case LoginCall(email, password, rememberMe, userAgent, now, sessionRaw, rememberRaw) =>
      LoginSpec(st, email, password, rememberMe, userAgent, now, sessionRaw, rememberRaw, c).1
    case ResetRequestCall(email, now, raw, delivered) => ResetRequestSpec(st, email, now, raw, delivered, c).1
    case ResetCall(token, password, now, salt) => ResetPasswordSpec(st, token, password, now, salt, c).1
    case LogoutSessionCall(req, sessionToken, now) => LogoutSessionSpec(st, req, sessionToken, now, c).1
    case LogoutAllCall(req, now) => LogoutAllSpec(st, req, now, c).1
  }

  /** The state after the requests, one after another. */
  function Run(st: State, calls: seq<Call>, c: Crypto): State
    requires forall i :: 0 <= i < |calls| ==> Possible(calls[i])
    decreases |calls|
  {
    if calls == [] then st else Run(Step(st, calls[0], c), calls[1..], c)
  }

  /** An empty database and an empty OTP map, as on a first deployment. A
      restarted server keeps the stored collection; its sessions are covered
      by `GuardedRoutesRefuseFrom`. */
  const Initial: State := State(map[], [], 0)

  /** A token the JWT library never accepts with a `userId` claim. */
  ghost predicate NeverAuthenticates(c: Crypto, t: string) {
    forall now: Time :: c.jwtVerify(t, now).None? || c.jwtVerify(t, now).value.userId.None?
  }

  /** Every stored session holds such a token. */
  ghost predicate NoLiveSession(accounts: seq<AccountRecord>, c: Crypto) {
    forall k, i :: 0 <= k < |accounts| && 0 <= i < |accounts[k].sessions| ==>
      NeverAuthenticates(c, accounts[k].sessions[i].token)
  }

  /** A hex string has no '.', so it is never a JWT. */
  lemma HexNeverAuthenticates(c: Crypto, s: string)
    requires JwtNeedsDots(c) && IsHex(s)
    ensures NeverAuthenticates(c, s)
  {
    assert forall i :: 0 <= i < |s| ==> s[i] != '.';
    assert '.' !in s;
  }

  /** With no live session, `verifyToken` refuses every request. */
  lemma NoLiveSessionRejects(accounts: seq<AccountRecord>, req: Request, now: Time, c: Crypto)
    requires NoLiveSession(accounts, c)
    ensures VerifySpec(accounts, req, now, c).0.Rejected?
  {
    var t := SelectToken(req);
    if t.Some? && c.jwtVerify(t.value, now).Some? && c.jwtVerify(t.value, now).value.userId.Some? {
      var uid := c.jwtVerify(t.value, now).value.userId.value;
      var k := FindOne(accounts, ById(uid));
      if k.Some? {
        var ss := accounts[k.value].sessions;
        forall i | 0 <= i < |ss| ensures ss[i].token != t.value {
          assert NeverAuthenticates(c, ss[i].token);
        }
      }
    }
  }

  /** Records whose sessions are those of the old records, or those with one
      session of token `t` appended, or none for a new record, keep every
      session dead. */
  lemma SessionsFrom(a: seq<AccountRecord>, b: seq<AccountRecord>, c: Crypto, t: string)
    requires NoLiveSession(a, c) && NeverAuthenticates(c, t)
    requires |a| <= |b|
    requires forall k :: |a| <= k < |b| ==> b[k].sessions == []
    requires forall k :: 0 <= k < |a| ==>
               b[k].sessions == a[k].sessions ||
               (|b[k].sessions| == |a[k].sessions| + 1 && b[k].sessions[..|a[k].sessions|] == a[k].sessions &&
                b[k].sessions[|a[k].sessions|].token == t)
    ensures NoLiveSession(b, c)
  {
    forall k, i | 0 <= k < |b| && 0 <= i < |b[k].sessions| ensures NeverAuthenticates(c, b[k].sessions[i].token) {
      if b[k].sessions != a[k].sessions && i == |a[k].sessions| {
        assert b[k].sessions[i].token == t;
      } else {
        assert b[k].sessions[i] == b[k].sessions[..|a[k].sessions|][i];
      }
    }
  }

  /** Records whose sessions are those of the old records, or none for a
      new record, keep every session dead. */
  lemma SessionsKept(a: seq<AccountRecord>, b: seq<AccountRecord>, c: Crypto)
    requires NoLiveSession(a, c)
    requires |a| <= |b|
    requires forall k :: |a| <= k < |b| ==> b[k].sessions == []
    requires forall k :: 0 <= k < |a| ==> b[k].sessions == a[k].sessions
    ensures NoLiveSession(b, c)
  {
    forall k, i | 0 <= k < |b| && 0 <= i < |b[k].sessions| ensures NeverAuthenticates(c, b[k].sessions[i].token) {
      assert b[k].sessions[i] == a[k].sessions[i];
    }
  }

  /** Registration adds an account with no session. */
  lemma VerifyOtpKeepsNoLiveSession(st: State, email: string, otp: string, password: string, now: Time, salt: string, c: Crypto)
    requires NoLiveSession(st.accounts, c)
    ensures NoLiveSession(VerifyOtpSpec(st, email, otp, password, now, salt, c).1.accounts, c)
  {
    var b := VerifyOtpSpec(st, email, otp, password, now, salt, c).1.accounts;
    assert b == st.accounts || b == st.accounts + [NewAccount(st.nextId, email, password, now, salt, c)];
    SessionsKept(st.accounts, b, c);
  }

  /** Login appends at most one session, holding the hex session token. */
  lemma LoginKeepsNoLiveSession(st: State, email: string, password: string, rememberMe: bool, userAgent: Option<string>,
                                now: Time, sessionRaw: string, rememberRaw: string, c: Crypto)
    requires NoLiveSession(st.accounts, c) && NeverAuthenticates(c, sessionRaw)
    ensures NoLiveSession(LoginSpec(st, email, password, rememberMe, userAgent, now, sessionRaw, rememberRaw, c).1.accounts, c)
  {
    var a := st.accounts;
    var b := LoginSpec(st, email, password, rememberMe, userAgent, now, sessionRaw, rememberRaw, c).1.accounts;
    var k := FindOne(a, ByEmail(email));
    if k.Some? {
      assert |b| == |a|;
      assert forall j :: 0 <= j < |a| && j != k.value ==> b[j] == a[j];
      var s := a[k.value].sessions;
      assert b[k.value].sessions == s ||
             (|b[k.value].sessions| == |s| + 1 && b[k.value].sessions[..|s|] == s && b[k.value].sessions[|s|].token == sessionRaw);
    }
    SessionsFrom(a, b, c, sessionRaw);
  }

  /** The reset routes touch no session. */
  lemma ResetKeepsNoLiveSession(st: State, email: string, token: string, password: string, now: Time,
                                raw: string, delivered: bool, salt: string, c: Crypto)
    requires NoLiveSession(st.accounts, c)
    ensures NoLiveSession(ResetRequestSpec(st, email, now, raw, delivered, c).1.accounts, c)
    ensures NoLiveSession(ResetPasswordSpec(st, token, password, now, salt, c).1.accounts, c)
  {
    SessionsKept(st.accounts, ResetRequestSpec(st, email, now, raw, delivered, c).1.accounts, c);
    SessionsKept(st.accounts, ResetPasswordSpec(st, token, password, now, salt, c).1.accounts, c);
  }

  /** Every mounted route keeps all stored sessions dead. */
  lemma StepKeepsNoLiveSession(st: State, call: Call, c: Crypto)
    requires Possible(call) && JwtNeedsDots(c) && NoLiveSession(st.accounts, c)
    ensures NoLiveSession(Step(st, call, c).accounts, c)
  {
    match call
    case SendOtpCall(body, now, draw, delivered) =>
    case VerifyOtpCall(email, otp, password, now, salt) =>
      VerifyOtpKeepsNoLiveSession(st, email, otp, password, now, salt, c);
    case LoginCall(email, password, rememberMe, userAgent, now, sessionRaw, rememberRaw) =>
      HexNeverAuthenticates(c, sessionRaw);
      LoginKeepsNoLiveSession(st, email, password, rememberMe, userAgent, now, sessionRaw, rememberRaw, c);
    case ResetRequestCall(email, now, raw, delivered) =>
      ResetKeepsNoLiveSession(st, email, "", "", now, raw, delivered, "", c);
    case ResetCall(token, password, now, salt) =>
      ResetKeepsNoLiveSession(st, "", token, password, now, "", false, salt, c);
    case LogoutSessionCall(req, sessionToken, now) =>
      NoLiveSessionRejects(st.accounts, req, now, c);
    case LogoutAllCall(req, now) =>
      NoLiveSessionRejects(st.accounts, req, now, c);
  }

  lemma {:induction false} RunKeepsNoLiveSession(st: State, calls: seq<Call>, c: Crypto)
    requires forall i :: 0 <= i < |calls| ==> Possible(calls[i])
    requires JwtNeedsDots(c) && NoLiveSession(st.accounts, c)
    ensures NoLiveSession(Run(st, calls, c).accounts, c)
    decreases |calls|
  {
    if calls != [] {
      StepKeepsNoLiveSession(st, calls[0], c);
      RunKeepsNoLiveSession(Step(st, calls[0], c), calls[1..], c);
    }
  }

  /** From any state whose stored sessions are all dead (in particular one a
      restarted server finds in the database, if every session in it was
      created by these routes), every request `verifyToken` guards is
      answered with a 401 after any further run. */
  lemma GuardedRoutesRefuseFrom(st0: State, calls: seq<Call>, c: Crypto, req: Request, sessionToken: string, now: Time)
    requires forall i :: 0 <= i < |calls| ==> Possible(calls[i])
    requires JwtNeedsDots(c) && NoLiveSession(st0.accounts, c)
    ensures VerifySpec(Run(st0, calls, c).accounts, req, now, c).0.Rejected?
    ensures LogoutSessionSpec(Run(st0, calls, c), req, sessionToken, now, c).0.LogoutRejected?
    ensures LogoutAllSpec(Run(st0, calls, c), req, now, c).0.LogoutRejected?
  {
    RunKeepsNoLiveSession(st0, calls, c);
    NoLiveSessionRejects(Run(st0, calls, c).accounts, req, now, c);
  }

  /** After any run of the mounted routes from an empty database, every
      request `verifyToken` guards is answered with a 401, so logging out of
      one session or of all of them never succeeds. */
  lemma GuardedRoutesAlwaysRefuse(calls: seq<Call>, c: Crypto, req: Request, sessionToken: string, now: Time)
    requires forall i :: 0 <= i < |calls| ==> Possible(calls[i])
    requires JwtNeedsDots(c)
    ensures VerifySpec(Run(Initial, calls, c).accounts, req, now, c).0.Rejected?
    ensures LogoutSessionSpec(Run(Initial, calls, c), req, sessionToken, now, c).0.LogoutRejected?
    ensures LogoutAllSpec(Run(Initial, calls, c), req, now, c).0.LogoutRejected?
  {
    GuardedRoutesRefuseFrom(Initial, calls, c, req, sessionToken, now);
  }
}
