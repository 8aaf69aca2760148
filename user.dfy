/** The account document of backend/auth/models/User.js: its stored fields,
    the email normalisation its schema applies, the lockout policy and the
    schema methods, with the clock and the random bytes passed in. */
module UserModel {
  import opened Common
  import opened Primitives

  /** The number of consecutive failures that locks an account. */
  const MaxLoginAttempts: nat := 5
  /** How long a lock lasts: one hour. */
  const LockTime: int := 3600000
  /** How long a password-reset token can be redeemed: one hour. */
  const ResetTokenLifetime: int := 3600000

  /** One entry of an account's `sessions` list. */
  datatype Session = Session(
    token: string,
    lastActivity: Time,
    device: Option<string>,
    expiresAt: Time)

  /** An account as the collection stores it. `password` holds the bcrypt
      hash once the document has been saved. */
  datatype AccountRecord = AccountRecord(
    id: AccountId,
    email: string,
    password: string,
    resetPasswordToken: Option<string>,
    resetPasswordExpires: Option<Time>,
    rememberMeToken: Option<string>,
    lastLogin: Option<Time>,
    loginAttempts: nat,
    lockUntil: Option<Time>,
    sessions: seq<Session>,
    createdAt: Time)

  // ---------------------------------------------------------------------
  // Email normalisation: the schema's `trim: true, lowercase: true`.
  // ---------------------------------------------------------------------

  /** The characters `String.prototype.trim` removes: JavaScript's
      WhiteSpace and LineTerminator productions. */
  predicate IsJsWhitespace(ch: char) {
    ch == '\t' || ch == '\n' || ch == '\U{B}' || ch == '\U{C}' || ch == '\r' || ch == ' '
    || ch == '\U{A0}' || ch == '\U{1680}' || ('\U{2000}' <= ch <= '\U{200A}')
    || ch == '\U{2028}' || ch == '\U{2029}' || ch == '\U{202F}' || ch == '\U{205F}'
    || ch == '\U{3000}' || ch == '\U{FEFF}'
  }

  /** `String.prototype.trimStart`: drops leading whitespace. */
  function TrimStart(s: string): string
    decreases |s|
  {
    if |s| > 0 && IsJsWhitespace(s[0]) then TrimStart(s[1..]) else s
  }

  /** `String.prototype.trimEnd`: drops trailing whitespace. */
  function TrimEnd(s: string): string
    decreases |s|
  {
    if |s| > 0 && IsJsWhitespace(s[|s| - 1]) then TrimEnd(s[..|s| - 1]) else s
  }

  /** `String.prototype.trim`. */
  function Trim(s: string): string {
    TrimEnd(TrimStart(s))
  }

  /** `String.prototype.toLowerCase` on one character, for the ASCII letters. */
  function LowerChar(ch: char): char {
    if 'A' <= ch <= 'Z' then (ch as int + ('a' as int - 'A' as int)) as char else ch
  }

  function Lower(s: string): string {
    seq(|s|, i requires 0 <= i < |s| => LowerChar(s[i]))
  }

  /** The value the schema stores for an email, and the value a query on
      `email` is compared against (Mongoose applies the same setters to
      query filters). */
  function Normalize(email: string): string {
    Lower(Trim(email))
  }

  /** `TrimStart` keeps a suffix, everything it drops is whitespace, and
      what it keeps does not start with whitespace. */
  lemma {:induction false} TrimStartShape(s: string)
    ensures |TrimStart(s)| <= |s| && TrimStart(s) == s[|s| - |TrimStart(s)|..]
    ensures forall i :: 0 <= i < |s| - |TrimStart(s)| ==> IsJsWhitespace(s[i])
    ensures TrimStart(s) == [] || !IsJsWhitespace(TrimStart(s)[0])
    decreases |s|
  {
    if |s| > 0 && IsJsWhitespace(s[0]) {
      var t := s[1..];
      TrimStartShape(t);
      assert t[|t| - |TrimStart(t)|..] == s[|s| - |TrimStart(s)|..];
      forall i | 0 <= i < |s| - |TrimStart(s)| ensures IsJsWhitespace(s[i]) {
        if i > 0 {
          assert s[i] == t[i - 1];
        }
      }
    }
  }

  /** `TrimEnd` keeps a prefix, everything it drops is whitespace, and what
      it keeps does not end with whitespace. */
  lemma {:induction false} TrimEndShape(s: string)
    ensures TrimEnd(s) <= s
    ensures forall i :: |TrimEnd(s)| <= i < |s| ==> IsJsWhitespace(s[i])
    ensures TrimEnd(s) == [] || !IsJsWhitespace(TrimEnd(s)[|TrimEnd(s)| - 1])
    decreases |s|
  {
    if |s| > 0 && IsJsWhitespace(s[|s| - 1]) {
      var t := s[..|s| - 1];
      TrimEndShape(t);
      forall i | |TrimEnd(s)| <= i < |s| ensures IsJsWhitespace(s[i]) {
        if i < |s| - 1 {
          assert s[i] == t[i];
        }
      }
    }
  }

  /** A trimmed string has no whitespace at either end. */
  lemma TrimShape(s: string)
    ensures Trim(s) == [] || (!IsJsWhitespace(Trim(s)[0]) && !IsJsWhitespace(Trim(s)[|Trim(s)| - 1]))
  {
    TrimStartShape(s);
    TrimEndShape(TrimStart(s));
    var u := TrimStart(s);
    var r := TrimEnd(u);
    if r != [] {
      assert r[0] == u[0];
    }
  }

  /** Lower-casing never turns whitespace into a letter or back. */
  lemma LowerCharKeepsWhitespace(ch: char)
    ensures IsJsWhitespace(LowerChar(ch)) == IsJsWhitespace(ch)
    ensures LowerChar(LowerChar(ch)) == LowerChar(ch)
  {
  }

  /** A string with no whitespace at either end is its own trim. */
  lemma TrimOfTrimmed(s: string)
    requires s == [] || (!IsJsWhitespace(s[0]) && !IsJsWhitespace(s[|s| - 1]))
    ensures Trim(s) == s
  {
    assert TrimStart(s) == s;
    assert TrimEnd(s) == s;
  }

  /** Normalising twice is normalising once, so a stored email matches a
      query for itself. */
  lemma NormalizeIdempotent(email: string)
    ensures Normalize(Normalize(email)) == Normalize(email)
  {
    var t := Trim(email);
    TrimShape(email);
    var n := Lower(t);
    if n != [] {
      LowerCharKeepsWhitespace(t[0]);
      LowerCharKeepsWhitespace(t[|t| - 1]);
    }
    TrimOfTrimmed(n);
    var l := Lower(n);
    forall i | 0 <= i < |n| ensures l[i] == n[i] {
      LowerCharKeepsWhitespace(t[i]);
    }
    assert l == n;
  }

  // ---------------------------------------------------------------------
  // Lockout policy, as functions of the stored record.
  // ---------------------------------------------------------------------

  /** `isLocked`: a lock is in force only while `lockUntil` lies strictly in
      the future. */
  predicate Locked(r: AccountRecord, now: Time) {
    r.lockUntil.Some? && r.lockUntil.value > now
  }

  /** The stored effect of `incrementLoginAttempts` at time `now`. */
  function AfterFailedAttempt(r: AccountRecord, now: Time): AccountRecord {
    if r.lockUntil.Some? && r.lockUntil.value < now then
      r.(loginAttempts := 1, lockUntil := None)
    else
      r.(loginAttempts := r.loginAttempts + 1,
         lockUntil := if r.loginAttempts + 1 >= MaxLoginAttempts then Some(now + LockTime) else r.lockUntil)
  }

  /** The stored effect of `resetLoginAttempts`. */
  function AfterAttemptsReset(r: AccountRecord): AccountRecord {
    r.(loginAttempts := 0, lockUntil := None)
  }

  /** Failed attempts at the given times, one after another. */
  function AfterFailedAttempts(r: AccountRecord, times: seq<Time>): AccountRecord
    decreases |times|
  {
    if times == [] then r else AfterFailedAttempts(AfterFailedAttempt(r, times[0]), times[1..])
  }

  /** Fewer than five failures on an unlocked account only count: no lock is
      set and nothing else changes. */
  lemma {:induction false} FailuresBelowThreshold(r: AccountRecord, times: seq<Time>)
    requires r.lockUntil == None
    requires r.loginAttempts + |times| < MaxLoginAttempts
    ensures AfterFailedAttempts(r, times) == r.(loginAttempts := r.loginAttempts + |times|)
    decreases |times|
  {
    if times != [] {
      var r' := AfterFailedAttempt(r, times[0]);
      assert r' == r.(loginAttempts := r.loginAttempts + 1);
      FailuresBelowThreshold(r', times[1..]);
    }
  }

  /** The failure that brings an unlocked account's count to five locks it
      for exactly one hour from that failure: locked at every instant of
      that hour and no longer locked at its end. No other field changes. */
  lemma {:induction false} ConsecutiveFailuresLock(r: AccountRecord, times: seq<Time>)
    requires r.lockUntil == None
    requires |times| > 0 && r.loginAttempts + |times| == MaxLoginAttempts
    ensures var last := times[|times| - 1];
            AfterFailedAttempts(r, times) == r.(loginAttempts := MaxLoginAttempts, lockUntil := Some(last + LockTime))
    ensures var last := times[|times| - 1];
            (forall now :: last <= now < last + LockTime ==> Locked(AfterFailedAttempts(r, times), now))
            && !Locked(AfterFailedAttempts(r, times), last + LockTime)
    decreases |times|
  {
    if |times| > 1 {
      var r' := AfterFailedAttempt(r, times[0]);
      assert r' == r.(loginAttempts := r.loginAttempts + 1);
      ConsecutiveFailuresLock(r', times[1..]);
      assert AfterFailedAttempts(r, times) == AfterFailedAttempts(r', times[1..]);
    } else {
      assert AfterFailedAttempts(r, times) == AfterFailedAttempt(r, times[0]);
    }
  }

  /** At the very instant a lock ends the account is no longer locked, yet
      the lock is not stale either: a failure then counts on from the old
      total (and relocks once that reaches five). The count restarts at 1
      only once the lock lies strictly in the past. */
  lemma LockExpiryBoundary(r: AccountRecord, now: Time)
    requires r.lockUntil == Some(now)
    ensures !Locked(r, now)
    ensures AfterFailedAttempt(r, now).loginAttempts == r.loginAttempts + 1
    ensures r.loginAttempts + 1 >= MaxLoginAttempts ==> AfterFailedAttempt(r, now).lockUntil == Some(now + LockTime)
    ensures AfterFailedAttempt(r, now + 1) == r.(loginAttempts := 1, lockUntil := None)
  {
  }

  /** The password a loaded document stores once `p` is assigned and saved:
      the hash of `p`, unless `p` is the stored value itself, which leaves
      the path unmodified and so is not hashed again. */
  function SavedPassword(stored: string, p: string, salt: string, c: Crypto): string {
    if p == stored then stored else c.bcryptHash(p, salt)
  }

  /** The pre-save hook: a password assigned since the document was loaded
      is replaced by its bcrypt hash; any other save leaves it alone. */
  function AfterPreSave(r: AccountRecord, passwordModified: bool, salt: string, c: Crypto): AccountRecord {
    if passwordModified then r.(password := c.bcryptHash(r.password, salt)) else r
  }

  // ---------------------------------------------------------------------
  // The document.
  // ---------------------------------------------------------------------

  /** A User document in memory: built by `new User(...)` or loaded by a
      query. The schema methods update its fields in place.
      `passwordModified` is the document's record of whether `password` was
      assigned since it was built or loaded (`isModified('password')`). */
  class Account {
    const id: AccountId
    var email: string
    var password: string
    var resetPasswordToken: Option<string>
    var resetPasswordExpires: Option<Time>
    var rememberMeToken: Option<string>
    var lastLogin: Option<Time>
    var loginAttempts: nat
    var lockUntil: Option<Time>
    var sessions: seq<Session>
    var createdAt: Time
    var passwordModified: bool

    /** The fields the collection would store for this document. */
    function Record(): AccountRecord
      reads this
    {
      AccountRecord(id, email, password, resetPasswordToken, resetPasswordExpires,
                    rememberMeToken, lastLogin, loginAttempts, lockUntil, sessions, createdAt)
    }

    /** `new User({ email, password })`: the email goes through the schema's
        setters, the password is kept as given until the document is saved,
        `loginAttempts` defaults to 0 and `createdAt` to now. */
    constructor Create(id: AccountId, email: string, password: string, now: Time)
      ensures Record() == AccountRecord(id, Normalize(email), password, None, None, None, None, 0, None, [], now)
      ensures passwordModified
    {
      this.id := id;
      this.email := Normalize(email);
      this.password := password;
      resetPasswordToken, resetPasswordExpires, rememberMeToken, lastLogin := None, None, None, None;
      loginAttempts, lockUntil, sessions, createdAt := 0, None, [], now;
      passwordModified := true;
    }

    /** A document hydrated from a stored record. */
    constructor Load(r: AccountRecord)
      ensures Record() == r && !passwordModified
    {
      id, email, password := r.id, r.email, r.password;
      resetPasswordToken, resetPasswordExpires := r.resetPasswordToken, r.resetPasswordExpires;
      rememberMeToken, lastLogin := r.rememberMeToken, r.lastLogin;
      loginAttempts, lockUntil, sessions, createdAt := r.loginAttempts, r.lockUntil, r.sessions, r.createdAt;
      passwordModified := false;
    }

    /** `isLocked()` at time `now`. */
    predicate IsLocked(now: Time)
      reads this
    {
      Locked(Record(), now)
    }

    /** `comparePassword(candidate)`. */
    predicate ComparePassword(candidate: string, c: Crypto)
      reads this
    {
      c.bcryptCompare(candidate, password)
    }

    /** Schema validation on save: `email` and `password` are required. A
        stored (already hashed) password is only re-checked when assigned. */
    predicate PassesValidation()
      reads this
    {
      email != "" && (passwordModified ==> password != "")
    }

    /** `user.password = p`. The path is only marked modified when the new
        value differs from the current one. */
    method SetPassword(p: string)
      modifies this
      ensures Record() == old(Record()).(password := p)
      ensures passwordModified == (old(passwordModified) || p != old(password))
    {
      if p != password {
        passwordModified := true;
      }
      password := p;
    }

    /** The `pre('save')` hook, with the generated salt passed in. */
    method PreSave(salt: string, c: Crypto)
      modifies this
      ensures Record() == AfterPreSave(old(Record()), old(passwordModified), salt, c)
      ensures old(passwordModified) ==> password == c.bcryptHash(old(password), salt)
      ensures !old(passwordModified) ==> password == old(password)
      ensures passwordModified == old(passwordModified)
    {
      if passwordModified {
        password := c.bcryptHash(password, salt);
      }
    }

    /** `generatePasswordResetToken()`, with the 32 random bytes (as hex)
        passed in as `raw`: stores the SHA-256 of the raw token and an expiry
        one hour from now, and returns the raw token. */
    method GeneratePasswordResetToken(raw: string, now: Time, c: Crypto) returns (token: string)
      modifies this
      ensures token == raw
      ensures resetPasswordToken == Some(c.sha256(raw))
      ensures resetPasswordExpires == Some(now + ResetTokenLifetime)
      ensures Record() == old(Record()).(resetPasswordToken := Some(c.sha256(raw)),
                                         resetPasswordExpires := Some(now + ResetTokenLifetime))
      ensures passwordModified == old(passwordModified)
    {
      token := raw;
      resetPasswordToken := Some(c.sha256(raw));
      resetPasswordExpires := Some(now + ResetTokenLifetime);
    }

    /** `generateRememberMeToken()`, with the random bytes passed in as
        `raw`: stores the SHA-256 of the raw token, returns the raw token,
        and changes nothing else. */
    method GenerateRememberMeToken(raw: string, c: Crypto) returns (token: string)
      modifies this
      ensures token == raw
      ensures Record() == old(Record()).(rememberMeToken := Some(c.sha256(raw)))
      ensures passwordModified == old(passwordModified)
    {
      token := raw;
      rememberMeToken := Some(c.sha256(raw));
    }

    /** `incrementLoginAttempts()` at time `now`. A lock that has already
        passed is cleared and the count restarts at 1; otherwise the count
        goes up by one, and the attempt that reaches five sets a one-hour
        lock. Nothing else changes. */
    method IncrementLoginAttempts(now: Time)
      modifies this
      ensures Record() == AfterFailedAttempt(old(Record()), now)
      ensures old(lockUntil).Some? && old(lockUntil).value < now ==>
                loginAttempts == 1 && lockUntil == None
      ensures !(old(lockUntil).Some? && old(lockUntil).value < now) ==>
                loginAttempts == old(loginAttempts) + 1
      ensures !(old(lockUntil).Some? && old(lockUntil).value < now) && old(loginAttempts) + 1 >= MaxLoginAttempts ==>
                lockUntil == Some(now + LockTime)
      ensures !(old(lockUntil).Some? && old(lockUntil).value < now) && old(loginAttempts) + 1 < MaxLoginAttempts ==>
                lockUntil == old(lockUntil)
      ensures passwordModified == old(passwordModified)
    {
      if lockUntil.Some? && lockUntil.value < now {
        loginAttempts := 1;
        lockUntil := None;
        return;
      }
      var locks := loginAttempts + 1 >= MaxLoginAttempts;
      loginAttempts := loginAttempts + 1;
      if locks {
        lockUntil := Some(now + LockTime);
      }
    }

    /** `resetLoginAttempts()`: the count is 0 and no lock is set. */
    method ResetLoginAttempts()
      modifies this
      ensures Record() == AfterAttemptsReset(old(Record()))
      ensures loginAttempts == 0 && lockUntil == None
      ensures passwordModified == old(passwordModified)
    {
      loginAttempts := 0;
      lockUntil := None;
    }
  }
}
