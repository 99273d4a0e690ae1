# User accounts: signup, verification, login, session guard, password reset

This project models the account lifecycle of a small Express and Mongoose
user service. A table of User documents is changed by seven HTTP handlers.
A middleware (`isLogin`) guards the session-protected routes.

- **Store** (`UserModel`). The User schema becomes a `UserStore` class holding
  `records: map<UserId, User>`. Its `Save` applies the schema's rules in
  Mongoose's order:
  - the `required` paths are validated;
  - the `pre("save")` hook bcrypt-hashes the password when it was modified;
  - the `unique` index on email is enforced;
  - then the document is written.

  The `trim` and `lowercase` setters and the `isVerified` default apply when a
  document is built (`NewUser`). `FindOne` stands for `findOne` and
  `findById`: a loop over the ids that returns the first match.
- **Handlers** (`UserControllers`). `signupUser`, `verifyEmail`, `loginUser`,
  `profileUser`, `logoutUser`, `forgotPassword` and `resetPassword` are
  methods on the store. Each one:
  - returns the status code, what it does to the `token` cookie and the data
    in its body;
  - states, for every branch, the new table or that the table is unchanged;
  - keeps the account lifecycle invariant: an unverified account holds a
    64-hex-digit verification token and a verified one holds none, and the
    reset token and its expiry are set and cleared together;
  - keeps the store's invariant: names trimmed, emails lower-case and unique,
    passwords stored only as bcrypt hashes.
- **Session guard** (`SessionGuard.IsLogin`). It runs three checks in order
  on a `Request` object: cookie, signature, user lookup. It answers 401, 401
  or 404. Otherwise it attaches the user without the password and calls
  `next` once.
- **Flows** (`AccountFlows`). These chain handlers as a client would:
  - signup, verify, login;
  - signing up twice;
  - verifying twice and resetting twice;
  - asking for a reset, then redeeming the mailed token;
  - resetting, then logging in;
  - logging in, then passing the guard;
  - logging out, then the guard.

Foreign code is modelled as follows:
- bcrypt, SHA-256 and JSON web tokens are symbolic terms (`Crypto`):
  - a bcrypt hash is `Bcrypt(salt, input)`;
  - `bcrypt.compare(p, h)` holds when `h` is a hash of exactly `Plain(p)`;
  - a SHA-256 hex digest is `Sha256Hex(preimage)`;
  - a signed token is `Jwt(userId, iat, exp, key)`.

  So hashes never collide, and signatures cannot be forged.
- `crypto.randomBytes(32)` is a byte-sequence parameter. Its
  `.toString("hex")` is modelled exactly (`Hex`, with its inverse `Unhex`).
- These are parameters:
  - `Date.now()`, in milliseconds;
  - each bcrypt salt, and whether the hook's hash fails (`HashEnv`);
  - whether the mail relay delivers;
  - the JWT secret.
- A mail is the message handed to the relay: the recipient and the token its
  link embeds.

Modelling choices:
- Email lookups lower-case the query value (`EmailQuery`), as the schema's
  `lowercase` setter does when Mongoose casts a query filter.
- `isModified("password")` holds for a new document. For a loaded document it
  holds when the assigned value differs from the stored one, as Mongoose
  marks a path only on a change.
- When several documents match a filter, `findOne` returns the one with the
  smallest id (insertion order).
- The code's own behaviour is followed throughout:
  - a mail-relay failure after signup or forgot-password answers 500, and
    the stored user or reset token stays;
  - an unknown email in forgot-password answers 400;
  - the guard answers 404 for a token whose user is gone;
  - profile answers 401 for a user that is gone;
  - login sets the session cookie before rejecting an unverified account.

## Model

| member | source | states |
|---|---|---|
| `JsText.Trim` | server/src/Models/user.models.js:6-10 | the `trim` setter: the result is the piece of the input left after its leading whitespace, and neither of its ends is whitespace; everything removed was whitespace |
| `JsText.TrimFixedPoints` | server/src/Models/user.models.js:9 | trim's results are exactly the strings with no whitespace at either end; trimming twice equals trimming once |
| `JsText.LowerNormalises` | server/src/Models/user.models.js:15 | the `lowercase` setter leaves no upper-case letter, and lower-casing a stored email again changes nothing |
| `Crypto.Hex` | server/src/controllers/user.controllers.js:31 | `toString("hex")` of n bytes is 2n lower-case hex digits, so a 32-byte token is 64 hex digits |
| `Crypto.UnhexHex` | server/src/controllers/user.controllers.js:278 | decoding the hex text of the random bytes gives the bytes back: the encoding loses nothing |
| `Crypto.HexInjective` | server/src/controllers/user.controllers.js:31 | distinct random byte strings give distinct tokens |
| `Crypto.BcryptCompareHash` | server/src/controllers/user.controllers.js:156 | `bcrypt.compare` accepts a password against a single hash of it under any salt, and rejects every other password |
| `Crypto.BcryptCompareRejectsDoubleHash` | server/src/Models/user.models.js:45 | a bcrypt hash of a bcrypt hash is accepted by `compare` for no plaintext |
| `Crypto.JwtSign` | server/src/controllers/user.controllers.js:164-166 | the session token names the user, is signed with the secret, was issued in the current second and expires seven days later |
| `Crypto.JwtRoundTrip` | server/src/middlewares/Isverifyed.js:17 | a token from `jwt.sign` verifies under the same secret, giving back its user id, exactly until its expiry second, and never under another secret |
| `UserModel.NewUser` | server/src/Models/user.models.js:4-33 | `new User(...)`: name trimmed, email lower-cased, `isVerified` false unless set to true, no reset pair; the result is normalised |
| `UserModel.EmailQuery` | server/src/controllers/user.controllers.js:21 | `findOne({ email })` matches a user exactly when its stored email equals the lower-cased query |
| `UserModel.UserStore.FindOne` | server/src/controllers/user.controllers.js:110 | no result exactly when no document matches; otherwise the first matching document in id order |
| `UserModel.UserStore.Save` | server/src/Models/user.models.js:4-50 | validation, then the hook, then the unique index, then the write. Each error, and success, is tied to its exact condition. A failed save writes nothing. A new document gets a fresh id. The password is hashed exactly when it was modified. The store invariant is kept |
| `UserModel.UnmodifiedPasswordKept` | server/src/Models/user.models.js:42 | a save that leaves the password as stored does not rehash it |
| `SessionGuard.IsLogin` | server/src/middlewares/Isverifyed.js:4-40 | no cookie gives 401 with only the cookie checked; a failed verify gives 401 after the signature check; an unknown user gives 404 after the lookup; otherwise `req.user` is the user without the password and `next` is called once; a rejection leaves `req.user` and `next` untouched |
| `UserControllers.SignupUser` | server/src/controllers/user.controllers.js:7-97 | missing field gives 400, unchanged; a taken email (any case) gives 409, unchanged; a failed save (blank trimmed name, hash failure) gives 500, unchanged; otherwise exactly one new user under a fresh id, unverified, holding the 64-hex-digit token, is stored before the mail, and the answer is 201 with that token or 500 when the relay fails |
| `UserControllers.VerifyEmail` | server/src/controllers/user.controllers.js:99-135 | missing or unknown token gives 400, unchanged; otherwise the first holder's token is cleared and it becomes verified, nothing else changes, 200 |
| `UserControllers.LoginUser` | server/src/controllers/user.controllers.js:137-202 | changes nothing; in order: missing field 400, unknown email 400, wrong password 401 without cookie, unverified 401 with the session cookie set, otherwise 200 with the cookie, the token and the user's id, name and email |
| `UserControllers.ProfileUser` | server/src/controllers/user.controllers.js:204-233 | no attached user 500, a vanished user 401, otherwise 200 with id, name, email |
| `UserControllers.LogoutUser` | server/src/controllers/user.controllers.js:235-256 | 200, and the client no longer holds a `token` cookie |
| `UserControllers.ForgotPassword` | server/src/controllers/user.controllers.js:258-323 | missing or unknown email 400, unchanged; otherwise the user alone gains the SHA-256 of a fresh raw token and an expiry 15 minutes (900000 ms) ahead, the mail carries only the raw token, and the answer is 200, or 500 when the relay fails |
| `UserControllers.ResetPassword` | server/src/controllers/user.controllers.js:325-369 | missing field 400, unchanged; no user whose reset digest equals the token's SHA-256 with an expiry strictly after now gives 400, unchanged; otherwise the controller-hashed password is saved with the reset pair cleared and rehashed by the hook (500 and unchanged when that hash fails), 200 |
| `UserControllers.ResetPasswordSingleHash` | server/src/controllers/user.controllers.js:351-356 | the same guards; on success the stored password is one bcrypt hash of the new password, which `compare` accepts, and the reset pair is cleared |
| `AccountFlows.ResetStoresDoubleHash` | server/src/controllers/user.controllers.js:351-356 | with a fresh controller salt the stored password is `hook-hash(controller-hash(pw))`, which no plaintext opens |
| `AccountFlows.SignupTwice` | server/src/controllers/user.controllers.js:21-42 | once a first signup with an address did not fail to save (its trimmed name is not blank and its hash succeeded), a second signup with the same address in any letter case gets 409, whether the first stored the user (201, or 500 after a failed mail) or was itself refused with 409 |
| `AccountFlows.VerifyTwice` | server/src/controllers/user.controllers.js:110-121 | a verification token works once: the second use gets 400 |
| `AccountFlows.ResetTwice` | server/src/controllers/user.controllers.js:339-354 | a reset token that succeeded cannot be redeemed again: the second use gets 400 |
| `AccountFlows.ForgotThenReset` | server/src/controllers/user.controllers.js:278-354 | forgot-password for a registered address, then reset with the mailed raw token: 200 strictly before the 15-minute expiry (when the hook hash succeeds), leaving that user with no reset pair; 400 from the expiry on |
| `AccountFlows.ResetThenLogin` | server/src/controllers/user.controllers.js:351-356 | after a successful reset as written, login with the new password gets 401 |
| `AccountFlows.ResetSingleHashThenLogin` | server/src/controllers/user.controllers.js:351-356 | after the corrected reset, login with the new password gets its session cookie, and 200 exactly when the account is verified |
| `AccountFlows.LoginThenGuard` | server/src/controllers/user.controllers.js:175-182 | a cookie set by login passes `isLogin` until it expires, also for an unverified user whose login was answered 401 |
| `AccountFlows.LogoutThenGuard` | server/src/controllers/user.controllers.js:237-242 | after logout, `isLogin` answers 401 for a missing token |
| `AccountFlows.VerifyThenLogin` | server/src/controllers/user.controllers.js:119-121 | verifying the sole holder of a token, then logging in with its email and password, gives 200 and 200 |
| `AccountFlows.SignupVerifyLogin` | server/src/controllers/user.controllers.js:34-42 | signup answered 201, then the emailed token, then login with the same password gives 200 and 200 |

## Findings

| source | as written | input that shows it | evidently intended | confidence | as-written member | corrected member |
|---|---|---|---|---|---|---|
| server/src/controllers/user.controllers.js:351-356 | `resetPassword` stores `bcrypt.hash(password, salt)` in `user.password`; `save` sees a modified password and the pre-save hook (server/src/Models/user.models.js:41-45) hashes it again | any pending reset redeemed with token t and new password p (200), then login with the user's email and p: `bcrypt.compare(p, hash(hash(p)))` is false, so 401, and the old password no longer matches either | assign the plaintext and let the hook hash it once, so login with p succeeds | high (not executed) | `AccountFlows.ResetThenLogin` | `UserControllers.ResetPasswordSingleHash` |

## Left out

- Timestamps (`createdAt`, `updatedAt`, from `timestamps: true`) are not modelled.
- Database failures inside `findOne`, `findById` or `save` (connection errors) are not modelled. The only 500s modelled are the ones the code itself can cause: a failed save, a failed hook hash, a failed mail, and a missing `req.user`.
- UserControllers.ResetPassword: does not model a failure of the controller's own `bcrypt.genSalt` or `bcrypt.hash` (server/src/controllers/user.controllers.js:351-352). Only the hook's hash may fail.
- The `lowercase` setter is modelled for A to Z only. `toLowerCase` maps the rest of Unicode too.
- Request fields are modelled as strings or absent. Numbers, objects and arrays in the JSON body are not modelled.
- JSON message texts and envelopes, cookie options (`httpOnly`, `secure`, `sameSite`, `maxAge`), email subjects, HTML and URLs are not modelled. A response records its status, its cookie effect and its data; a mail records its recipient and token.
- UserControllers.LogoutUser: `Expire` assumes the client accepts the clearing cookie. Logout sends it with `secure: true` (server/src/controllers/user.controllers.js:239), while login sets `secure` only in production (:170). Over plain HTTP to a host other than localhost, a browser ignores that Set-Cookie and keeps the token. `AccountFlows.LogoutThenGuard` relies on the same assumption.
- The `role` field is read by login and profile but does not exist in the schema, so it is always undefined. It is omitted.
- An invalid ObjectId inside a token is not modelled. It would make `findById` throw, which the guard answers with 401.
- Hashes are symbolic, which loses two things about bcrypt. First, real bcrypt would accept the controller's hash string itself as a password after the double hash. No user knows that string.
- Crypto.BcryptCompareHash: does not model bcrypt's 72-byte limit. `bcrypt` (server/src/Models/user.models.js:45) and `bcryptjs` (server/src/controllers/user.controllers.js:156) use only the first 72 bytes of the UTF-8 password. So a login password that differs from the real one only after byte 72 passes the check at :156 in the source, but `LoginUser` answers it with 401 in the model.
- Routing is outside the model. `/profile` and `/logout` run behind `isLogin` (server/src/routers/user.routers.js:20-21); `AccountFlows.LogoutThenGuard` and `AccountFlows.LoginThenGuard` chain the guard explicitly.
- Concurrent signups racing past the existence check are not modelled, because the model is sequential. The unique index would reject the second one (`UserStore.Save` returns `DuplicateKey`).
- Process startup, the Express app and the database connection are not modelled (server/index.js, server/app.js, server/src/db/index.js).
- The flows assume that the random tokens and salts do not collide. Where a property needs that, it is stated as a precondition: no other user holds the same token or digest, and the controller's salt is fresh.
