/** The cryptographic libraries the account code calls (bcrypt, SHA-256,
    JSON Web Tokens). Their internals are not modelled: each is an
    uninterpreted total function, supplied as a value of type `Crypto`, so
    every property proved here holds for ANY choice of those functions.
    Being functions, they are deterministic, which is what makes looking an
    account up by the hash of a presented token meaningful. */
module Primitives {
  import opened Common

  /** The `_id` of an account document. */
  type AccountId = nat

  /** The payload of a signed token. The original code uses two different
      claim names for the account: `_id` (set by login) and `userId` (set by
      the remember-me middleware and read by token verification). They are
      kept apart here because the difference is observable. */
  datatype Claims = Claims(
    id: Option<AccountId>,
    userId: Option<AccountId>,
    email: Option<string>,
    expiresIn: int)

  datatype Crypto = Crypto(
    /** `crypto.createHash('sha256').update(s).digest('hex')` */
    sha256: string -> string,
    /** `bcrypt.hash(password, salt)` */
    bcryptHash: (string, string) -> string,
    /** `bcrypt.compare(candidate, hash)` */
    bcryptCompare: (string, string) -> bool,
    /** `jwt.sign(claims, secret, { expiresIn })`, issued at the given time */
    jwtSign: (Claims, Time) -> string,
    /** `jwt.verify(token, secret)` at the given time; `None` when it throws */
    jwtVerify: (string, Time) -> Option<Claims>)

  /** What the JWT library guarantees about its own tokens: verifying a token
      it signed either fails (for instance because it has expired) or gives
      back exactly the claims that were signed. */
  ghost predicate JwtSound(c: Crypto) {
    forall claims: Claims, issued: Time, now: Time ::
      c.jwtVerify(c.jwtSign(claims, issued), now) == None ||
      c.jwtVerify(c.jwtSign(claims, issued), now) == Some(claims)
  }

  /** A compact JWT is three base64url segments joined by '.', so the
      library throws on any string without a '.'. */
  ghost predicate JwtNeedsDots(c: Crypto) {
    forall s: string, now: Time :: c.jwtVerify(s, now).Some? ==> '.' in s
  }

  /** What bcrypt guarantees: a password compares equal to its own hash,
      whatever the salt. */
  ghost predicate BcryptSound(c: Crypto) {
    forall p: string, salt: string :: c.bcryptCompare(p, c.bcryptHash(p, salt))
  }
}
