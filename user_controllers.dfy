/**
 * The account handlers: signup, email verification, login, profile, logout,
 * forgot-password and reset-password. Each one reads the request, checks its
 * guards in order, and on success changes one User document through `save`.
 * Randomness, the clock, bcrypt's salts and failures, and the mail relay's
 * success are parameters.
 */
module UserControllers {
  import opened Wrappers
  import opened JsText
  import opened Crypto
  import opened Http
  import opened UserModel
  import opened SessionGuard

  /** The reset token's lifetime in milliseconds: 15 minutes. */
  const ResetWindow: nat := 1000 * 60 * 15

  /**
   * The account lifecycle every stored user is in: an unverified account
   * holds its 64-hex-digit verification token and a verified one holds none;
   * a reset token and its expiry are set and cleared together.
   */
  predicate InLifecycle(u: User) {
    && (u.verificationToken.Some? <==> !u.isVerified)
    && (u.verificationToken.Some? ==>
          |u.verificationToken.value| == 2 * TokenBytes && IsHexString(u.verificationToken.value))
    && (u.forgotpasswordToken.Some? <==> u.resetPasswordExpires.Some?)
  }

  ghost predicate AllInLifecycle(records: map<UserId, User>) {
    forall id :: id in records ==> InLifecycle(records[id])
  }

  /**
   * How the table may change across any handler: no user disappears, names
   * and emails never change, and a verified account stays verified.
   */
  ghost predicate Evolves(before: map<UserId, User>, after: map<UserId, User>) {
    && before.Keys <= after.Keys
    && forall id :: id in before ==>
         && after[id].name == before[id].name
         && after[id].email == before[id].email
         && (before[id].isVerified ==> after[id].isVerified)
  }

  /** Writing a document in the lifecycle that keeps its name, email and verification keeps both invariants. */
  lemma WritePreserves(before: map<UserId, User>, id: UserId, u: User)
    requires AllInLifecycle(before) && InLifecycle(u)
    requires id in before ==>
               && u.name == before[id].name && u.email == before[id].email
               && (before[id].isVerified ==> u.isVerified)
    ensures AllInLifecycle(before[id := u]) && Evolves(before, before[id := u])
  {
  }

  /** Some user is registered under `email`, compared lower-cased. */
  ghost predicate EmailTaken(records: map<UserId, User>, email: string) {
    exists id :: id in records && records[id].email == Lower(email)
  }

  /** The document signup stores: the setters applied, the password hashed once by the hook. */
  function SignupRecord(name: string, email: string, password: string, token: string, salt: nat): User {
    User(Trim(name), Lower(email), Bcrypt(salt, Plain(password)), Some(token), false, None, None)
  }

  /** A loaded document saved back with the same email never collides with the unique index. */
  lemma OwnEmailFree(records: map<UserId, User>, id: UserId, email: string)
    requires UniqueEmails(records) && id in records && records[id].email == email
    ensures EmailFree(records, Some(id), email)
  {
  }

  /** What findOne({ email }) tells: whether the lower-cased address is taken. */
  lemma EmailQueryAnswer(records: map<UserId, User>, email: string, found: Option<UserId>)
    requires found.None? <==> NoMatch(records, EmailQuery(email))
    requires found.Some? ==> IsFirstMatch(records, EmailQuery(email), found.value)
    ensures found.Some? <==> EmailTaken(records, email)
    ensures found.None? ==> EmailFree(records, None, Lower(email))
    ensures found.Some? ==> records[found.value].email == Lower(email)
  {
    if found.Some? {
      assert Matches(EmailQuery(email), found.value, records[found.value]);
    } else {
      forall id | id in records ensures records[id].email != Lower(email) {
        assert !Matches(EmailQuery(email), id, records[id]);
      }
    }
  }

  /**
   * signupUser. 400 unless all three fields are present; 409 when the email
   * is taken; otherwise a new unverified user with a fresh 64-hex-digit
   * verification token is saved (500 if the save fails: a name of only
   * whitespace trims to "" and fails `required`, or the hook's hash fails),
   * then the verification mail is sent: 201 with the token in the body, or
   * 500 when the relay fails, with the new user kept either way.
   */
  method SignupUser(store: UserStore, name: Option<string>, email: Option<string>, password: Option<string>,
                    entropy: seq<byte>, hook: HashEnv, mailDelivers: bool)
    returns (resp: Response, sent: Option<Mail>)
    requires store.Valid() && AllInLifecycle(store.records)
    requires |entropy| == TokenBytes
    modifies store
    ensures store.Valid() && AllInLifecycle(store.records)
    ensures Evolves(old(store.records), store.records)
    ensures !(Present(name) && Present(email) && Present(password)) ==>
              resp == Status(400) && sent.None? && store.records == old(store.records)
    ensures Present(name) && Present(email) && Present(password) && EmailTaken(old(store.records), email.value) ==>
              resp == Status(409) && sent.None? && store.records == old(store.records)
    ensures Present(name) && Present(email) && Present(password) && !EmailTaken(old(store.records), email.value)
            && (Trim(name.value) == "" || hook.fails) ==>
              resp == Status(500) && sent.None? && store.records == old(store.records)
    ensures Present(name) && Present(email) && Present(password) && !EmailTaken(old(store.records), email.value)
            && Trim(name.value) != "" && !hook.fails ==>
              var id := old(store.nextId);
              var token := Hex(entropy);
              && id !in old(store.records)
              && store.records == old(store.records)[id := SignupRecord(name.value, email.value, password.value, token, hook.salt)]
              && sent == Some(VerificationMail(Lower(email.value), token))
              && resp == if mailDelivers
                         then Response(201, Keep, Registration(id, Trim(name.value), Lower(email.value), false, token))
                         else Status(500)
  {
    sent := None;
    if !(Present(name) && Present(email) && Present(password)) {
      return Status(400), sent;
    }
    var existing := store.FindOne(EmailQuery(email.value));
    EmailQueryAnswer(store.records, email.value, existing);
    if existing.Some? {
      return Status(409), sent;
    }
    var token := Hex(entropy);
    var doc := NewUser(name.value, email.value, password.value, Some(token), Some(false));
    assert |doc.email| == |email.value|;
    var saved := store.Save(None, doc, hook);
    if saved.Err? {
      return Status(500), sent;
    }
    var id := saved.value;
    WritePreserves(old(store.records), id, SignupRecord(name.value, email.value, password.value, token, hook.salt));
    sent := Some(VerificationMail(doc.email, token));
    if !mailDelivers {
      return Status(500), sent;
    }
    return Response(201, Keep, Registration(id, doc.name, doc.email, doc.isVerified, token)), sent;
  }

  /**
   * verifyEmail. 400 when the token is missing or no user holds it;
   * otherwise that user's token is cleared and it becomes verified, nothing
   * else changes, and the answer is 200.
   */
  method VerifyEmail(store: UserStore, token: Option<string>) returns (resp: Response, ghost hit: Option<UserId>)
    requires store.Valid() && AllInLifecycle(store.records)
    modifies store
    ensures store.Valid() && AllInLifecycle(store.records)
    ensures Evolves(old(store.records), store.records)
    ensures !Present(token) ==> resp == Status(400) && store.records == old(store.records)
    ensures Present(token) && NoMatch(old(store.records), ByVerificationToken(token.value)) ==>
              resp == Status(400) && store.records == old(store.records)
    ensures Present(token) && !NoMatch(old(store.records), ByVerificationToken(token.value)) ==>
              && hit.Some? && IsFirstMatch(old(store.records), ByVerificationToken(token.value), hit.value)
              && resp == Status(200)
              && store.records == old(store.records)[hit.value :=
                   old(store.records)[hit.value].(verificationToken := None, isVerified := true)]
  {
    hit := None;
    if !Present(token) {
      return Status(400), hit;
    }
    var found := store.FindOne(ByVerificationToken(token.value));
    if found.None? {
      return Status(400), hit;
    }
    var id := found.value;
    hit := found;
    var doc := store.records[id].(verificationToken := None, isVerified := true);
    OwnEmailFree(store.records, id, doc.email);
    var saved := store.Save(Some(id), doc, HashEnv(0, false));
    assert saved.Ok?;
    WritePreserves(old(store.records), id, doc);
    return Status(200), hit;
  }

  /**
   * loginUser, which changes nothing. In order: 400 when a field is
   * missing; 400 when no user has the email; 401 when the password does not
   * match; then the session cookie is set, and the answer is 401 for an
   * unverified user and 200 with the token and the user's id, name and
   * email for a verified one.
   */
  method LoginUser(store: UserStore, email: Option<string>, password: Option<string>, secret: string, now: nat)
    returns (resp: Response)
    requires store.Valid()
    ensures !(Present(email) && Present(password)) ==> resp == Status(400)
    ensures Present(email) && Present(password) && !EmailTaken(store.records, email.value) ==>
              resp == Status(400)
    ensures Present(email) && Present(password) ==>
              forall id :: id in store.records && store.records[id].email == Lower(email.value) ==>
                var u := store.records[id];
                var token := JwtSign(id, secret, now);
                && (!BcryptCompare(password.value, u.password) ==> resp == Status(401))
                && (BcryptCompare(password.value, u.password) && !u.isVerified ==>
                      resp == Response(401, SetToken(token), NoData))
                && (BcryptCompare(password.value, u.password) && u.isVerified ==>
                      resp == Response(200, SetToken(token), Session(token, id, u.name, u.email)))
  {
    if !(Present(email) && Present(password)) {
      return Status(400);
    }
    var found := store.FindOne(EmailQuery(email.value));
    EmailQueryAnswer(store.records, email.value, found);
    if found.None? {
      return Status(400);
    }
    var id := found.value;
    var u := store.records[id];
    if !BcryptCompare(password.value, u.password) {
      return Status(401);
    }
    var token := JwtSign(id, secret, now);
    var cookie := SetToken(token);
    if !u.isVerified {
      return Response(401, cookie, NoData);
    }
    return Response(200, cookie, Session(token, id, u.name, u.email));
  }

  /**
   * profileUser, behind isLogin, which changes nothing: 500 when no user is
   * attached to the request (reading `req.user.id` throws), 401 when that
   * user no longer exists, otherwise 200 with the id, name and email.
   */
  method ProfileUser(store: UserStore, req: Request) returns (resp: Response)
    requires store.Valid()
    ensures req.user.None? ==> resp == Status(500)
    ensures req.user.Some? && req.user.value.id !in store.records ==> resp == Status(401)
    ensures req.user.Some? && req.user.value.id in store.records ==>
              var u := store.records[req.user.value.id];
              resp == Response(200, Keep, ProfileData(req.user.value.id, u.name, u.email))
  {
    if req.user.None? {
      return Status(500);
    }
    var found := store.FindOne(ById(req.user.value.id));
    if found.None? {
      return Status(401);
    }
    var u := store.records[found.value];
    return Response(200, Keep, ProfileData(found.value, u.name, u.email));
  }

  /** logoutUser: 200, and the `token` cookie is emptied and expired so the client drops it. */
  method LogoutUser() returns (resp: Response)
    ensures resp.status == 200
    ensures forall jar :: NextCookie(jar, resp.cookie).None?
  {
    return Response(200, Expire, NoData);
  }

  /**
   * forgotPassword. 400 when the email is missing or nobody has it;
   * otherwise the user stores the SHA-256 of a fresh raw token and an expiry
   * 15 minutes from now, nothing else changes, and the raw token alone goes
   * out in the reset mail: 200, or 500 when the relay fails (the pair stays).
   */
  method ForgotPassword(store: UserStore, email: Option<string>, entropy: seq<byte>, now: nat, mailDelivers: bool)
    returns (resp: Response, sent: Option<Mail>)
    requires store.Valid() && AllInLifecycle(store.records)
    requires |entropy| == TokenBytes
    modifies store
    ensures store.Valid() && AllInLifecycle(store.records)
    ensures Evolves(old(store.records), store.records)
    ensures !Present(email) ==> resp == Status(400) && sent.None? && store.records == old(store.records)
    ensures Present(email) && !EmailTaken(old(store.records), email.value) ==>
              resp == Status(400) && sent.None? && store.records == old(store.records)
    ensures Present(email) ==>
              forall id :: id in old(store.records) && old(store.records)[id].email == Lower(email.value) ==>
                var raw := Hex(entropy);
                && store.records == old(store.records)[id := old(store.records)[id].(
                     forgotpasswordToken := Some(Sha256Hex(raw)),
                     resetPasswordExpires := Some(now + ResetWindow))]
                && sent == Some(ResetMail(old(store.records)[id].email, raw))
                && resp == Status(if mailDelivers then 200 else 500)
  {
    sent := None;
    if !Present(email) {
      return Status(400), sent;
    }
    var found := store.FindOne(EmailQuery(email.value));
    EmailQueryAnswer(store.records, email.value, found);
    if found.None? {
      return Status(400), sent;
    }
    var id := found.value;
    var rawToken := Hex(entropy);
    var doc := store.records[id].(forgotpasswordToken := Some(Sha256Hex(rawToken)),
                                  resetPasswordExpires := Some(now + ResetWindow));
    OwnEmailFree(store.records, id, doc.email);
    var saved := store.Save(Some(id), doc, HashEnv(0, false));
    assert saved.Ok?;
    WritePreserves(old(store.records), id, doc);
    sent := Some(ResetMail(doc.email, rawToken));
    if !mailDelivers {
      return Status(500), sent;
    }
    return Status(200), sent;
  }

  /** The document resetPassword saves: the controller's own hash of the new password, the reset pair cleared. */
  function ResetDocument(u: User, password: string, controllerSalt: nat): User {
    u.(password := Bcrypt(controllerSalt, Plain(password)), forgotpasswordToken := None, resetPasswordExpires := None)
  }

  /**
   * resetPassword, as written. 400 when a field is missing, or when no user
   * holds the SHA-256 of the token with an expiry strictly after now;
   * otherwise the handler hashes the new password itself, clears the reset
   * pair and saves, and the pre-save hook hashes the password again (500 if
   * that hash fails, nothing written); the answer is 200.
   */
  method ResetPassword(store: UserStore, token: Option<string>, password: Option<string>, now: nat,
                       controllerSalt: nat, hook: HashEnv)
    returns (resp: Response, ghost hit: Option<UserId>)
    requires store.Valid() && AllInLifecycle(store.records)
    modifies store
    ensures store.Valid() && AllInLifecycle(store.records)
    ensures Evolves(old(store.records), store.records)
    ensures !(Present(token) && Present(password)) ==> resp == Status(400) && store.records == old(store.records)
    ensures Present(token) && Present(password)
            && NoMatch(old(store.records), ByPendingReset(Sha256Hex(token.value), now)) ==>
              resp == Status(400) && store.records == old(store.records)
    ensures Present(token) && Present(password)
            && !NoMatch(old(store.records), ByPendingReset(Sha256Hex(token.value), now)) ==>
              && hit.Some? && IsFirstMatch(old(store.records), ByPendingReset(Sha256Hex(token.value), now), hit.value)
              && var u := old(store.records)[hit.value];
                 var doc := ResetDocument(u, password.value, controllerSalt);
                 var modified := doc.password != u.password;
                 if modified && hook.fails then
                   resp == Status(500) && store.records == old(store.records)
                 else
                   resp == Status(200) && store.records == old(store.records)[hit.value := AfterHook(doc, modified, hook.salt)]
  {
    hit := None;
    if !(Present(token) && Present(password)) {
      return Status(400), hit;
    }
    var hashedToken := Sha256Hex(token.value);
    var found := store.FindOne(ByPendingReset(hashedToken, now));
    if found.None? {
      return Status(400), hit;
    }
    var id := found.value;
    hit := found;
    var doc := ResetDocument(store.records[id], password.value, controllerSalt);
    OwnEmailFree(store.records, id, doc.email);
    var saved := store.Save(Some(id), doc, hook);
    if saved.Err? {
      return Status(500), hit;
    }
    WritePreserves(old(store.records), id, store.records[id]);
    return Status(200), hit;
  }

  /**
   * resetPassword as evidently intended: the plaintext is assigned and the
   * pre-save hook hashes it once, so the stored password is a single bcrypt
   * hash that bcrypt.compare accepts for the new password.
   */
  method ResetPasswordSingleHash(store: UserStore, token: Option<string>, password: Option<string>, now: nat,
                                 hook: HashEnv)
    returns (resp: Response, ghost hit: Option<UserId>)
    requires store.Valid() && AllInLifecycle(store.records)
    modifies store
    ensures store.Valid() && AllInLifecycle(store.records)
    ensures Evolves(old(store.records), store.records)
    ensures !(Present(token) && Present(password)) ==> resp == Status(400) && store.records == old(store.records)
    ensures Present(token) && Present(password)
            && NoMatch(old(store.records), ByPendingReset(Sha256Hex(token.value), now)) ==>
              resp == Status(400) && store.records == old(store.records)
    ensures Present(token) && Present(password)
            && !NoMatch(old(store.records), ByPendingReset(Sha256Hex(token.value), now)) ==>
              && hit.Some? && IsFirstMatch(old(store.records), ByPendingReset(Sha256Hex(token.value), now), hit.value)
              && (hook.fails ==> resp == Status(500) && store.records == old(store.records))
              && (!hook.fails ==>
                    && resp == Status(200)
                    && store.records == old(store.records)[hit.value := old(store.records)[hit.value].(
                         password := Bcrypt(hook.salt, Plain(password.value)),
                         forgotpasswordToken := None, resetPasswordExpires := None)]
                    && BcryptCompare(password.value, store.records[hit.value].password))
  {
    hit := None;
    if !(Present(token) && Present(password)) {
      return Status(400), hit;
    }
    var found := store.FindOne(ByPendingReset(Sha256Hex(token.value), now));
    if found.None? {
      return Status(400), hit;
    }
    var id := found.value;
    hit := found;
    var doc := store.records[id].(password := Plain(password.value),
                                  forgotpasswordToken := None, resetPasswordExpires := None);
    OwnEmailFree(store.records, id, doc.email);
    var saved := store.Save(Some(id), doc, hook);
    if saved.Err? {
      return Status(500), hit;
    }
    WritePreserves(old(store.records), id, store.records[id]);
    return Status(200), hit;
  }
}
