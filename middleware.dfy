/** The request-authentication middleware of backend/auth/middleware/auth.js:
    `verifyToken` (pick the presented token, resolve its account, require a
    matching session, refresh its activity) and `checkRememberMe` (mint a
    session from a remember-me cookie). */
module Middleware {
  import opened Common
  import opened Primitives
  import opened UserModel
  import opened Store

  /** Lifetime of a session minted from a remember-me cookie: seven days. */
  const RememberMeSessionLifetime: int := 7 * Day

  /** The parts of an incoming request the middleware reads. */
  datatype Request = Request(
    authorization: Option<string>,     // req.headers.authorization
    tokenCookie: Option<string>,       // req.cookies.token
    queryToken: Option<string>,        // req.query.token
    rememberMeCookie: Option<string>,  // req.cookies.rememberMe
    userAgent: Option<string>)         // req.headers['user-agent']

  /** JavaScript truthiness of an optional string: absent and "" are falsy. */
  predicate Truthy(o: Option<string>) {
    o.Some? && o.value != ""
  }

  // ---------------------------------------------------------------------
  // Token selection.
  // ---------------------------------------------------------------------

  /** The position of the first space in `s`, if any. */
  function IndexOfSpace(s: string): (k: Option<nat>)
    ensures k.Some? ==> k.value < |s| && s[k.value] == ' ' && ' ' !in s[..k.value]
    ensures k.None? <==> ' ' !in s
    decreases |s|
  {
    if s == [] then None
    else if s[0] == ' ' then Some(0)
    else match IndexOfSpace(s[1..])
      case None => None
      case Some(j) => Some(j + 1)
  }

  /** `s.split(' ')`: the pieces between single spaces, none of them
      containing a space. */
  function Split(s: string): (parts: seq<string>)
    ensures |parts| >= 1
    ensures forall i :: 0 <= i < |parts| ==> ' ' !in parts[i]
    decreases |s|
  {
    match IndexOfSpace(s)
    case None => [s]
    case Some(i) => [s[..i]] + Split(s[i + 1..])
  }

  /** `parts.join(' ')`. */
  function Join(parts: seq<string>): string
    requires |parts| >= 1
    decreases |parts|
  {
    if |parts| == 1 then parts[0] else parts[0] + " " + Join(parts[1..])
  }

  /** Splitting loses nothing: joining the pieces gives the string back. */
  lemma {:induction false} JoinSplit(s: string)
    ensures Join(Split(s)) == s
    decreases |s|
  {
    match IndexOfSpace(s)
    case None =>
    case Some(i) =>
      JoinSplit(s[i + 1..]);
      assert Split(s)[1..] == Split(s[i + 1..]);
      assert s == s[..i] + " " + s[i + 1..];
  }

  /** `req.headers.authorization?.split(' ')[1]`. */
  function HeaderToken(authorization: Option<string>): Option<string> {
    match authorization
    case None => None
    case Some(h) => var parts := Split(h); if |parts| > 1 then Some(parts[1]) else None
  }

  /** A header `Bearer <t>` presents `t`, for any `t` without a space. */
  lemma BearerHeader(t: string)
    requires ' ' !in t
    ensures HeaderToken(Some("Bearer " + t)) == Some(t)
  {
    var h := "Bearer " + t;
    assert h[..6] == "Bearer" && h[6] == ' ' && h[7..] == t;
    assert IndexOfSpace(h) == Some(6);
    assert Split(t) == [t];
  }

  /** The token `verifyToken` uses: the header's second word if that is
      truthy, else the `token` cookie if truthy, else the `token` query
      parameter if truthy; none when all three are falsy. */
  function SelectToken(req: Request): (t: Option<string>)
    ensures t.Some? ==> t.value != ""
    ensures t.Some? ==> t == HeaderToken(req.authorization) || t == req.tokenCookie || t == req.queryToken
    ensures t.None? <==> !Truthy(HeaderToken(req.authorization)) && !Truthy(req.tokenCookie) && !Truthy(req.queryToken)
    ensures Truthy(HeaderToken(req.authorization)) ==> t == HeaderToken(req.authorization)
    ensures !Truthy(HeaderToken(req.authorization)) && Truthy(req.tokenCookie) ==> t == req.tokenCookie
  {
    var h := HeaderToken(req.authorization);
    if Truthy(h) then h
    else if Truthy(req.tokenCookie) then req.tokenCookie
    else if Truthy(req.queryToken) then req.queryToken
    else None
  }

  // ---------------------------------------------------------------------
  // verifyToken.
  // ---------------------------------------------------------------------

  /** `user.sessions.find(s => s.token === token)`, as an index. */
  function FindSession(sessions: seq<Session>, token: string): (i: Option<nat>)
    ensures i.Some? ==> i.value < |sessions| && sessions[i.value].token == token
    ensures i.Some? ==> forall j :: 0 <= j < i.value ==> sessions[j].token != token
    ensures i.None? <==> forall j :: 0 <= j < |sessions| ==> sessions[j].token != token
    decreases |sessions|
  {
    if sessions == [] then None
    else if sessions[0].token == token then Some(0)
    else match FindSession(sessions[1..], token)
      case None => None
      case Some(j) => Some(j + 1)
  }

  /** `session.lastActivity = new Date()` on the i-th session. */
  function Touch(r: AccountRecord, i: nat, now: Time): AccountRecord
    requires i < |r.sessions|
  {
    r.(sessions := r.sessions[i := r.sessions[i].(lastActivity := now)])
  }

  datatype AuthError =
    | NoToken         // 'Access denied. No token provided.'
    | InvalidToken    // 'Invalid token.'
    | SessionExpired  // 'Session expired.'

  /** Either the request goes on with `req.user` and `req.token` set, or it
      is answered with 401 and the error. */
  datatype AuthResult = Authenticated(user: AccountId, token: string) | Rejected(error: AuthError)

  /** What `verifyToken` answers and what the collection holds afterwards.
      The account is looked up by the token's `userId` claim; a token
      without one looks up `findById(undefined)`, which finds nothing. A
      session's `expiresAt` is never read. */
  function VerifySpec(accounts: seq<AccountRecord>, req: Request, now: Time, c: Crypto): (out: (AuthResult, seq<AccountRecord>))
    ensures out.0.Rejected? ==> out.1 == accounts
    ensures out.0 == Rejected(NoToken) <==> SelectToken(req).None?
    // An acceptance is for the presented token, which the JWT library accepts
    // with a `userId` claim naming the account that holds it in a session.
    ensures out.0.Authenticated? ==>
      SelectToken(req) == Some(out.0.token) &&
      c.jwtVerify(out.0.token, now).Some? && c.jwtVerify(out.0.token, now).value.userId == Some(out.0.user)
    // The session touched is the first one holding the token (`find`), in
    // the account `findById` returns.
    ensures out.0.Authenticated? ==>
      FindOne(accounts, ById(out.0.user)).Some? &&
      var k := FindOne(accounts, ById(out.0.user)).value;
      FindSession(accounts[k].sessions, out.0.token).Some? &&
      out.1 == accounts[k := Touch(accounts[k], FindSession(accounts[k].sessions, out.0.token).value, now)]
    // A token the library refuses, or one without a `userId` claim.
    ensures SelectToken(req).Some? &&
            (c.jwtVerify(SelectToken(req).value, now).None? || c.jwtVerify(SelectToken(req).value, now).value.userId.None?) ==>
              out.0 == Rejected(InvalidToken)
    // A `userId` claim: no account with that id (`findById`) is 'Invalid
    // token.'; for the account found, a session holding the token is an
    // acceptance and none is 'Session expired.'.
    ensures SelectToken(req).Some? && c.jwtVerify(SelectToken(req).value, now).Some? &&
            c.jwtVerify(SelectToken(req).value, now).value.userId.Some? ==>
              var t := SelectToken(req).value;
              var uid := c.jwtVerify(t, now).value.userId.value;
              var k := FindOne(accounts, ById(uid));
              (k.None? ==> out.0 == Rejected(InvalidToken)) &&
              (k.Some? && FindSession(accounts[k.value].sessions, t).Some? ==> out.0 == Authenticated(uid, t)) &&
              (k.Some? && FindSession(accounts[k.value].sessions, t).None? ==> out.0 == Rejected(SessionExpired))
  {
    match SelectToken(req)
    case None => (Rejected(NoToken), accounts)
    case Some(token) =>
      match c.jwtVerify(token, now)
      case None => (Rejected(InvalidToken), accounts)
      case Some(decoded) =>
        if decoded.userId.None? then (Rejected(InvalidToken), accounts)
        else match FindOne(accounts, ById(decoded.userId.value))
          case None => (Rejected(InvalidToken), accounts)
          case Some(k) =>
            match FindSession(accounts[k].sessions, token)
            case None => (Rejected(SessionExpired), accounts)
            case Some(i) =>
              (Authenticated(accounts[k].id, token), accounts[k := Touch(accounts[k], i, now)])
  }

  /** The accounts with the `expiresAt` of one session replaced. */
  function WithExpiry(accounts: seq<AccountRecord>, k: nat, i: nat, e: Time): seq<AccountRecord>
    requires k < |accounts| && i < |accounts[k].sessions|
  {
    accounts[k := accounts[k].(sessions := accounts[k].sessions[i := accounts[k].sessions[i].(expiresAt := e)])]
  }

  /** Two collections that agree on which records each query matches give
      the same `findOne` answer. */
  lemma {:induction false} FindOneAgrees(a: seq<AccountRecord>, b: seq<AccountRecord>, q: Query)
    requires |a| == |b|
    requires forall j :: 0 <= j < |a| ==> Matches(q, a[j]) == Matches(q, b[j])
    ensures FindOne(a, q) == FindOne(b, q)
    decreases |a|
  {
    if a != [] {
      FindOneAgrees(a[1..], b[1..], q);
    }
  }

  /** Two session lists with the same tokens give the same `find` answer. */
  lemma {:induction false} FindSessionAgrees(s: seq<Session>, t: seq<Session>, token: string)
    requires |s| == |t|
    requires forall j :: 0 <= j < |s| ==> s[j].token == t[j].token
    ensures FindSession(s, token) == FindSession(t, token)
    decreases |s|
  {
    if s != [] {
      FindSessionAgrees(s[1..], t[1..], token);
    }
  }

  /** `expiresAt` is never consulted: whatever one session's expiry is set
      to, past or future, `verifyToken` gives the same answer. */
  lemma VerifyIgnoresExpiry(accounts: seq<AccountRecord>, k: nat, i: nat, e: Time, req: Request, now: Time, c: Crypto)
    requires k < |accounts| && i < |accounts[k].sessions|
    ensures VerifySpec(WithExpiry(accounts, k, i, e), req, now, c).0 == VerifySpec(accounts, req, now, c).0
  {
    var b := WithExpiry(accounts, k, i, e);
    forall q: Query | q.ById? ensures FindOne(accounts, q) == FindOne(b, q) {
      FindOneAgrees(accounts, b, q);
    }
    forall token: string ensures FindSession(accounts[k].sessions, token) == FindSession(b[k].sessions, token) {
      FindSessionAgrees(accounts[k].sessions, b[k].sessions, token);
    }
  }

  /** `verifyToken`. A failure answers the request and changes nothing; a
      success refreshes the matched session and saves the account (its
      password is not modified, so the stored hash is kept). */
  method VerifyToken(db: Db, req: Request, now: Time) returns (res: AuthResult)
    requires db.Valid()
    modifies db
    ensures db.Valid() && db.nextId == old(db.nextId)
    ensures (res, db.accounts) == VerifySpec(old(db.accounts), req, now, db.crypto)
  {
    var token := SelectToken(req);
    if token.None? {
      return Rejected(NoToken);
    }
    var decoded := db.crypto.jwtVerify(token.value, now);
    if decoded.None? || decoded.value.userId.None? {
      return Rejected(InvalidToken);
    }
    var k := FindOne(db.accounts, ById(decoded.value.userId.value));
    if k.None? {
      return Rejected(InvalidToken);
    }
    var user := new Account.Load(db.accounts[k.value]);
    var i := FindSession(user.sessions, token.value);
    if i.None? {
      return Rejected(SessionExpired);
    }
    user.sessions := user.sessions[i.value := user.sessions[i.value].(lastActivity := now)];
    ResaveInPlace(db.accounts, k.value, user.Record());
    // No password was assigned, so the salt is never drawn.
    var saved := db.Save(user, "");
    res := Authenticated(user.id, token.value);
  }

  // ---------------------------------------------------------------------
  // checkRememberMe.
  // ---------------------------------------------------------------------

  /** The claims of a token minted from a remember-me cookie. */
  function RememberMeClaims(id: AccountId): Claims {
    Claims(None, Some(id), None, RememberMeSessionLifetime)
  }

  /** What `checkRememberMe` issues (the new `token` cookie, if any) and what
      the collection holds afterwards. The request always continues. */
  function CheckRememberMeSpec(accounts: seq<AccountRecord>, req: Request, now: Time, c: Crypto): (out: (Option<string>, seq<AccountRecord>))
    ensures out.0.None? ==> out.1 == accounts
    ensures out.0.Some? ==>
      Truthy(req.rememberMeCookie) &&
      exists k :: 0 <= k < |accounts| && accounts[k].rememberMeToken == Some(c.sha256(req.rememberMeCookie.value)) &&
        out.1 == accounts[k := accounts[k].(sessions := accounts[k].sessions +
                   [Session(out.0.value, now, req.userAgent, now + RememberMeSessionLifetime)])]
    // A truthy cookie whose hash the first matching account (`findOne`)
    // holds mints a token for that account and pushes a session for it.
    ensures Truthy(req.rememberMeCookie) &&
            FindOne(accounts, ByRememberMeToken(c.sha256(req.rememberMeCookie.value))).Some? ==>
              var k := FindOne(accounts, ByRememberMeToken(c.sha256(req.rememberMeCookie.value))).value;
              out.0 == Some(c.jwtSign(RememberMeClaims(accounts[k].id), now)) &&
              out.1 == accounts[k := accounts[k].(sessions := accounts[k].sessions +
                         [Session(out.0.value, now, req.userAgent, now + RememberMeSessionLifetime)])]
    // No cookie, or no account holding its hash: nothing is issued.
    ensures !Truthy(req.rememberMeCookie) ||
            FindOne(accounts, ByRememberMeToken(c.sha256(req.rememberMeCookie.value))).None? ==>
              out == (None, accounts)
  {
    if !Truthy(req.rememberMeCookie) then (None, accounts)
    else match FindOne(accounts, ByRememberMeToken(c.sha256(req.rememberMeCookie.value)))
      case None => (None, accounts)
      case Some(k) =>
        var token := c.jwtSign(RememberMeClaims(accounts[k].id), now);
        var session := Session(token, now, req.userAgent, now + RememberMeSessionLifetime);
        (Some(token), accounts[k := accounts[k].(sessions := accounts[k].sessions + [session])])
  }

  /** `checkRememberMe`. */
  method CheckRememberMe(db: Db, req: Request, now: Time) returns (issued: Option<string>)
    requires db.Valid()
    modifies db
    ensures db.Valid() && db.nextId == old(db.nextId)
    ensures (issued, db.accounts) == CheckRememberMeSpec(old(db.accounts), req, now, db.crypto)
  {
    var cookie := req.rememberMeCookie;
    if !Truthy(cookie) {
      return None;
    }
    var hashed := db.crypto.sha256(cookie.value);
    var k := FindOne(db.accounts, ByRememberMeToken(hashed));
    if k.None? {
      return None;
    }
    var user := new Account.Load(db.accounts[k.value]);
    var token := db.crypto.jwtSign(RememberMeClaims(user.id), now);
    user.sessions := user.sessions + [Session(token, now, req.userAgent, now + RememberMeSessionLifetime)];
    ResaveInPlace(db.accounts, k.value, user.Record());
    var saved := db.Save(user, "");
    issued := Some(token);
  }

  // ---------------------------------------------------------------------
  // Consequences.
  // ---------------------------------------------------------------------

  /** A token minted by `checkRememberMe` authenticates: presented later
      while the JWT library still accepts it, it resolves to the account
      that owns the cookie. */
  lemma RememberMeTokenAuthenticates(accounts: seq<AccountRecord>, req: Request, now: Time, c: Crypto,
                                     later: Request, laterNow: Time)
    requires Unique(accounts) && JwtSound(c)
    requires CheckRememberMeSpec(accounts, req, now, c).0.Some?
    requires SelectToken(later) == CheckRememberMeSpec(accounts, req, now, c).0
    requires c.jwtVerify(CheckRememberMeSpec(accounts, req, now, c).0.value, laterNow).Some?
    ensures var (t, after) := CheckRememberMeSpec(accounts, req, now, c);
            var k := FindOne(accounts, ByRememberMeToken(c.sha256(req.rememberMeCookie.value)));
            k.Some? && VerifySpec(after, later, laterNow, c).0 == Authenticated(accounts[k.value].id, t.value)
  {
    var (t, after) := CheckRememberMeSpec(accounts, req, now, c);
    var k := FindOne(accounts, ByRememberMeToken(c.sha256(req.rememberMeCookie.value))).value;
    var id := accounts[k].id;
    assert t.value == c.jwtSign(RememberMeClaims(id), now);
    assert c.jwtVerify(t.value, laterNow) == Some(RememberMeClaims(id));
    FindOwnId(accounts, k);
    FindOneAgrees(accounts, after, ById(id));
    var sessions := after[k].sessions;
    assert sessions[|sessions| - 1].token == t.value;
  }

  /** A token whose claims carry no `userId` is always answered
      'Invalid token.', whatever the collection holds. */
  lemma NoUserIdClaimRejected(accounts: seq<AccountRecord>, req: Request, now: Time, c: Crypto)
    requires SelectToken(req).Some?
    requires c.jwtVerify(SelectToken(req).value, now).Some? ==> c.jwtVerify(SelectToken(req).value, now).value.userId.None?
    ensures VerifySpec(accounts, req, now, c) == (Rejected(InvalidToken), accounts)
  {
  }
}
