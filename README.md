# Account security core of the smart-checkout backend, in Dafny

This project models the account and session subsystem of a retail checkout
web application and proves properties of that model. The subsystem covers:

- registration gated by a one-time password (OTP) sent by email;
- password hashing and login, with a lockout after five failed attempts;
- several concurrent sessions per account, plus a "remember me" middleware
  that can mint a new session from a cookie (defined, but not mounted on any
  route);
- password reset by an emailed single-use token;
- logging out of one session or of all of them;
- the password-strength rule the registration and reset forms apply before
  they call the server.

The model is organised by file:

| file | models |
|---|---|
| `common.dfy` | `Option` and the millisecond clock (`Time`). |
| `primitives.dfy` | bcrypt, SHA-256 and JSON Web Tokens. They are uninterpreted functions bundled in a `Crypto` value, so every result holds for any choice of them. Results about tokens the library signed assume `JwtSound`: verifying such a token either fails or gives back exactly the claims that were signed. It says nothing about strings the library did not sign. `JwtNeedsDots` (the library refuses any string without a '.') and `BcryptSound` (a password compares equal to its own hash) are assumed only where a lemma says so. |
| `user.dfy` | The `User` schema. `AccountRecord` is a stored document. Email normalisation is the schema's `trim` and `lowercase`. The lockout policy is written as functions of a record. `class Account` is a document in memory, and its methods update its fields in place as the schema methods do. |
| `store.dfy` | The `users` collection: the filters the handlers query with, `findOne`, and the unique index on `email`. `class Db`'s `Save` runs validation, then the pre-save hook, then the upsert. |
| `middleware.dfy` | `verifyToken` and `checkRememberMe`. Each is a method on the collection, proved equal to a function of the old state (`VerifySpec`, `CheckRememberMeSpec`). |
| `server.dfy` | `generateOTP`, the in-memory `otpStore`, and the handlers for send-otp, verify-otp, login, the two password-reset routes, logout-session and logout-all. Each handler is a method of `class Server`, proved equal to a `...Spec` function of the state before the request. |
| `server_properties.dfy` | Lemmas that relate several requests. |
| `server_runs.dfy` | Any sequence of requests to the mounted account routes, run from an empty database or from any database whose sessions are all login's. |
| `password_policy.dfy`, `register_form.dfy`, `reset_password_form.dfy` | `validatePassword`, `passwordRequirements` and the check order of each form's `handleSubmit`. |

## Behaviour of the code worth knowing

- **Session expiry is never checked.** `verifyToken` never reads a
  session's `expiresAt`, so a session past its expiry still authenticates.
  `Middleware.VerifyIgnoresExpiry` proves that changing any session's
  `expiresAt` never changes the answer.
- **The token login returns never authenticates.** Three facts combine:
  - login stores a random hex `sessionToken` in the session list;
  - login returns a JWT signed over `{ _id, email }`, with no `userId`;
  - `verifyToken` looks the account up by the `userId` claim, and looks the
    presented string itself up among the sessions.

  `ServerProperties.LoginTokenNeverAuthenticates` proves that the returned
  JWT is always answered 'Invalid token.'.
- **Tokens minted by `checkRememberMe` do authenticate**
  (`ServerProperties.RememberedLoginRenews`). But `checkRememberMe` is
  imported at backend/auth/server.js line 9 and never mounted: the guarded
  routes (lines 356, 379, 390, 401 and 422) use `verifyToken` alone.
- **So no guarded request ever succeeds.** The sessions of a running
  server hold only login's hex tokens, and no hex string is a valid JWT.
  `ServerRuns.GuardedRoutesAlwaysRefuse` proves it: after any sequence of
  requests to the mounted routes from an empty database, `verifyToken` refuses
  every request, so logout-session and logout-all always answer 401. So do
  the profile and sessions routes, which are not otherwise modelled.
- **Assigning the stored value is not a change.** Mongoose marks a path
  modified only when the new value differs. A password reset whose new
  password is the stored hash string itself therefore keeps that hash
  unhashed (`UserModel.Account.SetPassword`, `UserModel.SavedPassword`).

## Model

| member | source | states |
|---|---|---|
| UserModel.TrimStartShape | backend/auth/models/User.js:10 | Trimming the start keeps a suffix of the email. Everything it drops is JavaScript whitespace, and what is left does not start with whitespace. |
| UserModel.TrimEndShape | backend/auth/models/User.js:10 | Trimming the end keeps a prefix. Everything it drops is whitespace, and what is left does not end with whitespace. |
| UserModel.TrimShape | backend/auth/models/User.js:10 | A trimmed email has no whitespace at either end. |
| UserModel.NormalizeIdempotent | backend/auth/models/User.js:6-12 | Normalising (trim, then lowercase) twice is the same as once. So a stored email matches a query for itself. |
| UserModel.FailuresBelowThreshold | backend/auth/models/User.js:106-126 | Fewer than five failures on an unlocked account only raise the count by one each. No lock is set and nothing else changes. |
| UserModel.ConsecutiveFailuresLock | backend/auth/models/User.js:106-126 | The failure that brings the count to five sets a lock for one hour from that failure. The account is locked at every instant of that hour and unlocked at its end. No other field changes. |
| UserModel.LockExpiryBoundary | backend/auth/models/User.js:102-115 | At the instant a lock ends the account is unlocked (`isLocked` uses `>`). A failure at that instant still counts on from the old total, relocking at five, because the stale-lock test uses `<`. One millisecond later a failure restarts the count at 1 and clears the lock. |
| UserModel.Account.Create | backend/auth/models/User.js:5-54 | A new document holds the normalised email and the password as given. It has no tokens and no sessions, a count of 0 and `createdAt` = now, and its password is marked modified. |
| UserModel.Account.SetPassword | backend/auth/server.js:343 | Assigning the password changes only `password`. It marks the path modified exactly when the new value differs from the current one or the path was already modified. |
| UserModel.SavedPassword | backend/auth/models/User.js:57-67 | The password stored once a value is assigned and saved (definition): its bcrypt hash, unless the value is the stored one, which is kept as it is. |
| UserModel.Locked | backend/auth/models/User.js:102-104 | `isLocked` (definition): a lock is in force exactly while `lockUntil` is set and lies strictly after now. |
| UserModel.Account.IsLocked | backend/auth/models/User.js:102-104 | The document method is `Locked` of the document's record. |
| UserModel.Account.ComparePassword | backend/auth/models/User.js:70-76 | `comparePassword` (definition): bcrypt's comparison of the candidate against the stored hash. `ServerProperties.RegisteredPasswordLogsIn` is its partner. |
| UserModel.AfterFailedAttempt | backend/auth/models/User.js:106-126 | The stored effect of `incrementLoginAttempts` (definition). A stale lock restarts the count at 1 and clears the lock. Otherwise the count goes up by one, and a one-hour lock is set once it reaches five. |
| UserModel.AfterAttemptsReset | backend/auth/models/User.js:129-134 | The stored effect of `resetLoginAttempts` (definition): count 0, no lock. |
| UserModel.AfterPreSave | backend/auth/models/User.js:57-67 | The pre-save hook on a record (definition): hash the password if it was modified, else keep the record. |
| UserModel.Account.Load | backend/auth/server.js:197-202 | A document loaded by a query holds exactly the stored record, with its password not modified. |
| UserModel.Account.PreSave | backend/auth/models/User.js:57-67 | A modified password is replaced by `bcrypt.hash(password, salt)`. An unmodified one is left alone, and no other field changes. |
| UserModel.Account.GeneratePasswordResetToken | backend/auth/models/User.js:79-89 | The method returns the raw token. It stores the token's SHA-256 and an expiry of now + 3600000 ms, and changes nothing else. |
| UserModel.Account.GenerateRememberMeToken | backend/auth/models/User.js:92-99 | The method returns the raw token and stores its SHA-256. Nothing else changes. |
| UserModel.Account.IncrementLoginAttempts | backend/auth/models/User.js:106-126 | If a lock lies strictly in the past, the count becomes 1 and the lock is cleared. Otherwise the count goes up by one, and the attempt that reaches 5 sets `lockUntil` = now + 1 h. Nothing else changes. |
| UserModel.Account.ResetLoginAttempts | backend/auth/models/User.js:129-134 | The count becomes 0 and the lock is cleared. Nothing else changes. |
| Store.FindOne | backend/auth/server.js:334-337 | The lookup returns the first record that matches the filter; None means no record matches. Email filters go through the schema's setters. The reset-token filter needs an expiry strictly after now. |
| Store.ResaveInPlace | backend/auth/models/User.js:9 | Re-saving a loaded record under its own id and email never violates the unique index. It replaces that record in place and keeps ids and emails unique. |
| Store.Db.Save | backend/auth/models/User.js:5-16 | A save succeeds exactly when the required fields are present and no other record holds the email. Validation runs before the hook. On success the record with that id is replaced, or the new one appended, with the password hashed if it was modified. On failure the collection is unchanged, and so is the modified flag. |
| Store.Db.Resave | backend/auth/server.js:244 | Saving a loaded document whose password was not assigned always succeeds. It replaces exactly that document's record. |
| Middleware.JoinSplit | backend/auth/middleware/auth.js:16 | Splitting on single spaces loses nothing: joining the parts back with spaces gives the original header. |
| Middleware.Split | backend/auth/middleware/auth.js:16 | `split(' ')` gives at least one part, and no part contains a space. |
| Middleware.HeaderToken | backend/auth/middleware/auth.js:16 | `authorization?.split(' ')[1]` (definition): the second part of the header, absent when there is no header or no space. |
| Middleware.BearerHeader | backend/auth/middleware/auth.js:16 | A header `Bearer t` yields `t`, for any `t` without spaces. |
| Middleware.SelectToken | backend/auth/middleware/auth.js:16-18 | The selected token is the header's second word if truthy, else the `token` cookie if truthy, else the query token if truthy. No token is selected exactly when all three are falsy. |
| Middleware.FindSession | backend/auth/middleware/auth.js:32 | The lookup returns the first session holding the token; None means no session holds it. |
| Middleware.VerifySpec | backend/auth/middleware/auth.js:14-47 | No token is selected exactly when the answer is 'Access denied. No token provided.'. A token the JWT library refuses, or one with no `userId` claim, is 'Invalid token.', as is a claim naming no account. Take the first account with the claimed id: if one of its sessions holds the token, the request is accepted for that id; if none does, the answer is 'Session expired.'. An acceptance always carries a token the library accepts with a `userId` claim equal to the accepted id. Only the first session holding the token (`find`), in the account `findById` returns, has its `lastActivity` set to now. A rejection changes nothing. |
| Middleware.VerifyToken | backend/auth/middleware/auth.js:14-47 | The method's answer and new collection are those of `VerifySpec`, and the unique index still holds. |
| Middleware.VerifyIgnoresExpiry | backend/auth/middleware/auth.js:31-35 | Changing any session's `expiresAt` never changes what `verifyToken` answers. |
| Middleware.NoUserIdClaimRejected | backend/auth/middleware/auth.js:24-29 | A token whose claims have no `userId` is answered 'Invalid token.' and changes nothing, whatever the collection holds. |
| Middleware.CheckRememberMeSpec | backend/auth/middleware/auth.js:50-95 | With no truthy cookie, or no account holding the cookie's SHA-256, nothing is issued and the state is unchanged. Otherwise take the first account (`findOne`) holding it: the issued token is `jwtSign({userId: id}, now)` for its id. That account gains exactly one session holding the token, with a 7-day expiry, and no other account changes. |
| Middleware.CheckRememberMe | backend/auth/middleware/auth.js:50-95 | The method's cookie and new collection are those of `CheckRememberMeSpec`, and the unique index still holds. |
| Middleware.RememberMeTokenAuthenticates | backend/auth/middleware/auth.js:63-81 | A token minted from a remember-me cookie, presented while the JWT library accepts it, authenticates as the account that owns the cookie. |
| AuthServer.ParseDecimalString | backend/auth/server.js:58 | Reading a printed number gives the number back. |
| AuthServer.DecimalStringLength | backend/auth/server.js:58 | A number from 10^k to 10^(k+1) - 1 prints as k + 1 digits, the first of them not '0'. |
| AuthServer.GenerateOtp | backend/auth/server.js:57-59 | For every draw of `Math.random()` in [0, 1), the code is six decimal digits with no leading zero: a value from 100000 to 999999. |
| AuthServer.SendOtpSpec | backend/auth/server.js:62-137 | No email or an empty one is refused, and so is an email that already has an account; in both cases the state is unchanged. Otherwise the entry for the email becomes a fresh code valid until now + 5 min. The entry stays even when the mail fails, and for a new email the answer is 'sent' exactly when the mail was delivered. |
| AuthServer.Server.SendOtp | backend/auth/server.js:62-137 | The method's answer and new state equal `SendOtpSpec`. The collection is untouched. |
| AuthServer.VerifyOtpSpec | backend/auth/server.js:140-188 | verify-otp (definition), checked in order. No entry for the email is 'No OTP found'. An entry past its expiry is deleted and answers 'OTP has expired'. A different code is 'Invalid OTP' with nothing changed. Then an id is drawn and the account saved. A failed save (empty email or password, or the email taken) keeps the entry; a successful one appends the account with the hashed password and deletes the entry. |
| AuthServer.Server.VerifyOtp | backend/auth/server.js:140-188 | The method's answer and new state equal `VerifyOtpSpec`: the three OTP checks in order, then the account creation and save. |
| AuthServer.LoginSpec | backend/auth/server.js:191-280 | login (definition). An unknown email is 'Invalid email or password'. A locked account answers with its `lockUntil`. A wrong password stores one failed attempt and gives the same answer as an unknown email. Otherwise the JWT is signed over `{ _id, email }` and the successful-login record is stored. |
| AuthServer.Server.Login | backend/auth/server.js:191-280 | The method's answer and new state equal `LoginSpec`: unknown email, then lock, then password, then the session. |
| AuthServer.Server.RecordFailedLogin | backend/auth/server.js:216-219 | A wrong password stores exactly the effect of `incrementLoginAttempts` on that account. |
| AuthServer.Server.OpenSession | backend/auth/server.js:221-256 | A successful login stores the reset count, records the new session and `lastLogin`, and stores the remember-me hash if asked. The remember-me cookie is returned exactly then. |
| AuthServer.ResetRequestSpec | backend/auth/server.js:283-323 | reset-password-request (definition). An unknown email is 'User not found'. Otherwise the token's hash and an expiry one hour ahead are stored before the mail is sent, and kept when it fails. |
| AuthServer.ResetPasswordSpec | backend/auth/server.js:326-353 | reset-password (definition). The token is looked up by its SHA-256 with an expiry strictly after now. No match is 'Invalid or expired reset token'. A new empty password fails validation and stores nothing. Otherwise the saved password is stored and both reset fields are cleared. |
| AuthServer.Server.ResetPasswordRequest | backend/auth/server.js:283-323 | The method's answer and new state equal `ResetRequestSpec`. |
| AuthServer.Server.ResetPassword | backend/auth/server.js:326-353 | The method's answer and new state equal `ResetPasswordSpec`. |
| AuthServer.RemoveSessions | backend/auth/server.js:406 | The filter keeps exactly the sessions whose token differs, so it never grows the list. If no session holds the token, the list is unchanged. |
| AuthServer.RemoveSessionsConcat | backend/auth/server.js:406 | The filter distributes over concatenation, so the kept sessions stay in their original order. |
| AuthServer.LogoutSessionSpec | backend/auth/server.js:401-419 | logout-session (definition). `verifyToken` runs first, and its refusal is the answer. Then the account is loaded again, the sessions holding the given token are filtered out, and cookies are cleared when that token is the request's own. |
| AuthServer.LogoutAllSpec | backend/auth/server.js:422-435 | logout-all (definition). `verifyToken` runs first, and its refusal is the answer. Then the account's session list is emptied and both cookies are cleared. |
| AuthServer.Server.LogoutSession | backend/auth/server.js:401-419 | The method's answer and new state equal `LogoutSessionSpec`: `verifyToken` first, then the filter. |
| AuthServer.Server.LogoutAll | backend/auth/server.js:422-435 | The method's answer and new state equal `LogoutAllSpec`: `verifyToken` first, then the session list is emptied. |
| AuthServer.Server.constructor | backend/auth/server.js:54 | The model's server starts with an empty OTP map (server.js line 54) and an empty collection, as on a first deployment. The collection itself persists in MongoDB across restarts. |
| ServerProperties.OtpCodeChecked | backend/auth/server.js:151-168 | After a code is issued, any other guess within its lifetime is answered 'Invalid OTP' and changes nothing, so the entry is kept. The right code registers exactly when the email and password pass validation. |
| ServerProperties.OtpExpiry | backend/auth/server.js:151-154 | A code issued at t0 is expired exactly when now > t0 + 300000, so it is still accepted at t0 + 5 min. An expired entry is deleted, so a retry finds no OTP. |
| ServerProperties.RegistrationConsumesOtp | backend/auth/server.js:156-172 | Only the stored code within its lifetime registers. The entry is then gone, so the same code cannot register again. The new account is found by its email, holds the hashed password, and the unique index holds. |
| ServerProperties.LoginOutcomes | backend/auth/server.js:197-219 | Each of the three answers has an exact condition. An unknown email and a wrong password give the same answer; a locked account is refused even with the right password. Login never changes the OTP map, ids, emails or password hashes. |
| ServerProperties.LoginOpensSession | backend/auth/server.js:221-256 | A successful login appends one session holding the random session token, with activity now and a 30-day lifetime under "remember me" (1 day otherwise). It sets `lastLogin` to now and clears the count and the lock. The cookie is returned exactly under "remember me", and its hash is what is stored. Every other account is left as it was. |
| ServerProperties.FailedLoginsCounted | backend/auth/server.js:216-217 | Wrong passwords on an unlocked account, up to the threshold, are counted one per attempt, exactly as `incrementLoginAttempts` does. |
| ServerProperties.RepeatedFailuresLock | backend/auth/server.js:205-219 | After five wrong passwords on a fresh account, every login in the following hour is answered with the lock and changes nothing, even with the right password. From the end of the hour the right password logs in. |
| ServerProperties.LoginTokenNeverAuthenticates | backend/auth/server.js:225-229 | Under a sound JWT library, the token login returns is answered 'Invalid token.' by `verifyToken` at any later time and for any collection. |
| ServerProperties.RememberedLoginRenews | backend/auth/server.js:246-256 | The cookie from a "remember me" login makes `checkRememberMe` mint a token. That token authenticates as the same account, without the password, while the JWT library accepts it. This assumes no other account holds the same remember-me hash. |
| ServerProperties.RegisteredPasswordLogsIn | backend/auth/server.js:162-219 | Assuming bcrypt accepts a password against its own hash, the password given at registration logs in right after, whatever the remember-me flag. |
| ServerProperties.ResetTokenRedeems | backend/auth/server.js:329-346 | Redeeming a token whose hash only one account holds fails exactly from its expiry on. Before that it succeeds unless a new password is empty. It stores the hashed new password (or keeps the stored one when it is assigned back) and clears both reset fields; the sessions are kept. |
| ServerProperties.ResetRequestThenRedeem | backend/auth/server.js:283-353 | A reset request at t0 stores the token's hash with an expiry an hour ahead. The emailed token is then refused exactly from t0 + 1 h on. Before that it succeeds unless a new password is empty, and only that account's password and reset fields change. |
| ServerProperties.ResetTokenSingleUse | backend/auth/server.js:334-346 | After a successful reset, the same token is refused at any time and with any password, when no two accounts held its hash. |
| ServerProperties.LogoutSessionRevokesOne | backend/auth/server.js:401-419 | Cookies are cleared exactly when the revoked token is the one the request used. Every other token gets the same answer as before the logout. The revoked token, carrying the account's `userId`, finds no session. |
| ServerProperties.LogoutAllRevokes | backend/auth/server.js:422-435 | No later token carrying the account's `userId` authenticates. The OTP map, the number of accounts and every remember-me hash are untouched: logging out everywhere does not revoke the remember-me cookie. |
| ServerRuns.GuardedRoutesAlwaysRefuse | backend/auth/server.js:9-435 | After any sequence of requests to the mounted account routes from an empty database, `verifyToken` refuses every request, and logout-session and logout-all always answer with its refusal. This assumes the JWT library refuses strings without a '.', and that session tokens are hex. |
| ServerRuns.GuardedRoutesRefuseFrom | backend/auth/server.js:29-435 | From any state, such as the stored collection a restarted server connects to (MongoDB at line 29), whose stored session tokens the JWT library never accepts with a `userId`, every request `verifyToken` guards is refused after any further sequence of requests, and both logout routes answer with the refusal. |
| ServerRuns.StepKeepsNoLiveSession | backend/auth/server.js:62-435 | Every mounted account route keeps the fact that no stored session holds a token the library accepts with a `userId` claim. |
| ServerRuns.NoLiveSessionRejects | backend/auth/middleware/auth.js:24-35 | When no stored session holds such a token, `verifyToken` refuses every request. |
| ServerRuns.HexNeverAuthenticates | backend/auth/server.js:232 | A hex session token is never accepted by the JWT library. |
| PasswordPolicy.Test | frontend/src/components/auth/Register.jsx:21-24 | A character-class regex test succeeds exactly when some character of the string is in the class. |
| PasswordPolicy.ValidatePassword | frontend/src/components/auth/Register.jsx:19-33 | The password is accepted exactly when it has at least 8 characters and contains an upper-case letter, a lower-case letter, a digit and one of the special characters. A shorter string always fails. The reset form's copy (ResetPassword.jsx lines 16-30) is identical. |
| PasswordPolicy.PasswordRequirements | frontend/src/components/auth/Register.jsx:35-41 | The checklist has five lines, with the form's labels in order. Each line is ticked by its own test: the first by length ≥ 8, the others by an upper-case letter, a lower-case letter, a digit and a special character occurring. |
| PasswordPolicy.ChecklistMatchesValidator | frontend/src/components/auth/ResetPassword.jsx:72-78 | The validator accepts exactly when all five checklist lines are ticked. |
| PasswordPolicy.ValidatorAcceptsExample | frontend/src/components/auth/Register.jsx:19-33 | "Passw0rd!" passes, so the rule can be met. |
| PasswordPolicy.ValidatorNeedsEveryClass | frontend/src/components/auth/Register.jsx:19-33 | For every password: accepted exactly when it is at least 8 characters long and each of the four classes occurs in it. So a password missing one class is refused whatever its length. |
| RegisterForm.HandleSubmit | frontend/src/components/auth/Register.jsx:43-63 | A weak password is reported first, even when the confirmation also differs. A mismatch is reported second. The OTP request is sent exactly for a strong password typed twice the same. |
| ResetPasswordForm.HandleSubmit | frontend/src/components/auth/ResetPassword.jsx:32-54 | The same two checks apply in the same order. The reset request is sent exactly for a strong password typed twice the same. |
| ResetPasswordForm.FormsAgree | frontend/src/components/auth/ResetPassword.jsx:38-49 | The two forms refuse exactly the same password pairs, with the same messages. |
| ResetPasswordForm.SubmittedPasswordPassesServer | frontend/src/components/auth/ResetPassword.jsx:38-54 | The server never answers a password the form submits with 'Failed to reset password'. |

## Left out

- Email delivery (Brevo) is an input saying whether the mail was accepted. Message contents and recipients are not modelled.
- Randomness and the clock are parameters: `crypto.randomBytes`, `Math.random()`, `bcrypt.genSalt` and `Date.now()`.
- IEEE floating point in `generateOTP` is treated as exact real arithmetic.
- Store failures, exceptions from bcrypt and the generic 500 answers they lead to are not modelled. Only the validation and duplicate-email failures of `save()` are.
- Concurrency is not modelled: requests run one at a time. So the atomicity of `updateOne`, races on the OTP map, and lost updates between concurrent saves are out of scope.
- `incrementLoginAttempts` and `resetLoginAttempts` use `updateOne`, which writes to the collection without changing the document in memory. The model updates the document and then saves it. The stored result is the same, and login reads no field those calls change afterwards.
- The bcrypt, SHA-256 and JWT algorithms are not modelled. A JWT's own expiry is part of `jwtVerify`, and the JWT secret is left out.
- Because SHA-256 is uninterpreted, the model cannot state that a stored hash differs from the raw token. Properties about redeeming a token assume no other account holds the same hash.
- The login rate limiter (`loginLimiter`) is not modelled. It is the express-rate-limit middleware, not code of this subsystem.
- Cookies set or cleared in responses are not modelled beyond the values returned (the remember-me cookie, whether cookies are cleared). Cookie parsing is not modelled either.
- AuthServer.LoginSpec: a missing `password` field is modelled as the empty string, so a wrong-password attempt is counted. In the source `bcrypt.compare(undefined, hash)` (backend/auth/models/User.js lines 2 and 72) rejects, and the handler answers 500 'Login failed' (backend/auth/server.js lines 277-278) without counting an attempt.
- Request fields that are not strings (`rememberMe` as a non-boolean, `otp` or `sessionToken` as numbers, `req.query.token` as an array) are not modelled. Missing fields are treated like empty strings.
- `String.prototype.toLowerCase` is modelled for ASCII letters only. `length` counts Unicode scalar values, not UTF-16 code units.
- Document ids (`ObjectId`) come from a counter, so ids are never reused.
- The model validates the password only when it was assigned. A stored bcrypt hash is never empty, so re-validating it could not fail. Validation checks emptiness only, which is what `required` checks.
- The profile, sessions-listing, payment (Razorpay) and Python service routes are not part of this model, nor are the rest of the frontend and the AuthContext calls.
- Expired sessions are not rejected, because `verifyToken` never reads `expiresAt` (see above).
- Console logging is not modelled. The handlers print request bodies (send-otp at server.js line 63; verify-otp at line 141, including the plaintext password), the generated OTP (line 77) and the stored OTP entry (line 145).
- `ServerRuns.Call` covers the account routes the core names. The profile routes, the session listing and the payment routes are not requests of a run.
