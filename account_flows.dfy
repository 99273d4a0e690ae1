/**
 * Sequences of requests against one store, as a client of the handlers and
 * the session guard sees them: what a later request answers after an
 * earlier one. Each method relies only on the contracts of what it calls.
 */
module AccountFlows {
  import opened Wrappers
  import opened JsText
  import opened Crypto
  import opened Http
  import opened UserModel
  import opened SessionGuard
  import opened UserControllers

  /**
   * What resetPassword stores, as written: when the controller's salt is
   * fresh the password counts as modified, the hook hashes the controller's
   * hash again, and bcrypt.compare then accepts no plaintext at all, the new
   * password included.
   */
  lemma ResetStoresDoubleHash(u: User, password: string, controllerSalt: nat, hookSalt: nat, attempt: string)
    requires u.password != Bcrypt(controllerSalt, Plain(password))
    ensures var doc := ResetDocument(u, password, controllerSalt);
            var stored := AfterHook(doc, doc.password != u.password, hookSalt);
            && stored.password == Bcrypt(hookSalt, Bcrypt(controllerSalt, Plain(password)))
            && !BcryptCompare(attempt, stored.password)
  {
    BcryptCompareRejectsDoubleHash(password, controllerSalt, hookSalt);
  }

  /**
   * Signing up twice with the same address, in any letter case: unless the
   * first signup failed to save (a blank name or a failed hash), the second
   * is refused with 409, whether the first one stored the user (201, or 500
   * when the mail failed) or found the address taken already (409).
   */
  method SignupTwice(store: UserStore, name: string, email: string, sameEmail: string, password: string,
                     entropy1: seq<byte>, entropy2: seq<byte>, hook1: HashEnv, hook2: HashEnv, mail1: bool, mail2: bool)
    returns (first: Response, second: Response)
    requires store.Valid() && AllInLifecycle(store.records)
    requires |entropy1| == TokenBytes && |entropy2| == TokenBytes
    requires name != "" && email != "" && sameEmail != "" && password != ""
    requires Lower(sameEmail) == Lower(email)
    modifies store
    ensures Trim(name) != "" && !hook1.fails ==> second == Status(409)
  {
    var sent;
    first, sent := SignupUser(store, Some(name), Some(email), Some(password), entropy1, hook1, mail1);
    if Trim(name) != "" && !hook1.fails {
      if EmailTaken(old(store.records), email) {
        ghost var j :| j in old(store.records) && old(store.records)[j].email == Lower(email);
        assert store.records[j].email == Lower(sameEmail);
      } else {
        ghost var id := old(store.nextId);
        assert store.records[id].email == Lower(sameEmail);
      }
      assert EmailTaken(store.records, sameEmail);
    }
    second, sent := SignupUser(store, Some(name), Some(sameEmail), Some(password), entropy2, hook2, mail2);
  }

  /**
   * Verification is one-shot: once a token has verified its user, the same
   * token is refused with 400, provided no other user was issued the same
   * token.
   */
  method VerifyTwice(store: UserStore, token: string)
    returns (first: Response, second: Response)
    requires store.Valid() && AllInLifecycle(store.records)
    requires forall a, b ::
               (a in store.records && b in store.records
                && store.records[a].verificationToken == Some(token)
                && store.records[b].verificationToken == Some(token)) ==> a == b
    modifies store
    ensures second == Status(400)
  {
    ghost var hit;
    first, hit := VerifyEmail(store, Some(token));
    second, hit := VerifyEmail(store, Some(token));
  }

  /**
   * A reset token is one-shot: once it has reset a password, the same token
   * is refused with 400, provided no other user holds the same digest.
   */
  method ResetTwice(store: UserStore, token: string, password1: string, password2: string, now: nat,
                    controllerSalt1: nat, controllerSalt2: nat, hook1: HashEnv, hook2: HashEnv)
    returns (first: Response, second: Response)
    requires store.Valid() && AllInLifecycle(store.records)
    requires token != "" && password1 != "" && password2 != ""
    requires forall a, b ::
               (a in store.records && b in store.records
                && store.records[a].forgotpasswordToken == Some(Sha256Hex(token))
                && store.records[b].forgotpasswordToken == Some(Sha256Hex(token))) ==> a == b
    modifies store
    ensures first.status == 200 ==> second == Status(400)
  {
    ghost var hit;
    first, hit := ResetPassword(store, Some(token), Some(password1), now, controllerSalt1, hook1);
    if first.status == 200 {
      assert NoMatch(store.records, ByPendingReset(Sha256Hex(token), now));
    }
    second, hit := ResetPassword(store, Some(token), Some(password2), now, controllerSalt2, hook2);
  }

  /**
   * The reset token's lifecycle: forgotPassword stores the digest of a fresh
   * raw token with a 15-minute expiry and mails the raw token; redeeming the
   * mailed token succeeds strictly before the expiry (when the hook's hash
   * does not fail) and clears the pair, and is refused with 400 from the
   * expiry on. The digest of the fresh token must not be held already.
   */
  method ForgotThenReset(store: UserStore, email: string, password: string, entropy: seq<byte>, now: nat,
                         mailDelivers: bool, at: nat, controllerSalt: nat, hook: HashEnv)
    returns (forgot: Response, reset: Response)
    requires store.Valid() && AllInLifecycle(store.records)
    requires |entropy| == TokenBytes
    requires email != "" && password != ""
    requires EmailTaken(store.records, email)
    requires forall id :: id in store.records ==> store.records[id].forgotpasswordToken != Some(Sha256Hex(Hex(entropy)))
    modifies store
    ensures forgot == Status(if mailDelivers then 200 else 500)
    ensures at < now + ResetWindow && !hook.fails ==> reset == Status(200)
    ensures at >= now + ResetWindow ==> reset == Status(400)
    ensures reset.status == 200 ==>
              forall id :: id in store.records && store.records[id].email == Lower(email) ==>
                store.records[id].forgotpasswordToken.None? && store.records[id].resetPasswordExpires.None?
  {
    var sent;
    forgot, sent := ForgotPassword(store, Some(email), entropy, now, mailDelivers);
    ghost var id :| id in old(store.records) && old(store.records)[id].email == Lower(email);
    ghost var digest := Sha256Hex(Hex(entropy));
    assert store.records == old(store.records)[id := old(store.records)[id].(
             forgotpasswordToken := Some(digest), resetPasswordExpires := Some(now + ResetWindow))];
    var token := sent.value.token;
    assert token == Hex(entropy) && |token| == 2 * TokenBytes;
    ghost var afterForgot := store.records;
    forall j | j in afterForgot && Matches(ByPendingReset(digest, at), j, afterForgot[j])
      ensures j == id && at < now + ResetWindow
    {
    }
    ghost var hit;
    reset, hit := ResetPassword(store, Some(token), Some(password), at, controllerSalt, hook);
    if at < now + ResetWindow {
      assert Matches(ByPendingReset(digest, at), id, afterForgot[id]);
    }
    if reset.status == 200 {
      assert hit == Some(id);
      forall j | j in store.records && store.records[j].email == Lower(email)
        ensures j == id
      {
        assert afterForgot[j].email == afterForgot[id].email;
      }
    }
  }

  /**
   * The reset as written locks the user out: after a successful reset, a
   * login with the new password is refused with 401 (when the controller's
   * salt is fresh, as bcrypt.genSalt's random salt is).
   */
  method ResetThenLogin(store: UserStore, email: string, token: string, newPassword: string, now: nat,
                        controllerSalt: nat, hook: HashEnv, secret: string, loginAt: nat)
    returns (reset: Response, login: Response)
    requires store.Valid() && AllInLifecycle(store.records)
    requires email != "" && token != "" && newPassword != ""
    requires forall id :: id in store.records && Matches(ByPendingReset(Sha256Hex(token), now), id, store.records[id]) ==>
               store.records[id].email == Lower(email)
    requires forall id :: id in store.records ==> store.records[id].password != Bcrypt(controllerSalt, Plain(newPassword))
    modifies store
    ensures reset.status == 200 ==> login == Status(401)
  {
    ghost var hit;
    reset, hit := ResetPassword(store, Some(token), Some(newPassword), now, controllerSalt, hook);
    if reset.status == 200 {
      ResetStoresDoubleHash(old(store.records)[hit.value], newPassword, controllerSalt, hook.salt, newPassword);
      assert store.records[hit.value].email == Lower(email);
    }
    login := LoginUser(store, Some(email), Some(newPassword), secret, loginAt);
  }

  /**
   * With the single-hash reset, the new password is accepted: a login right
   * after a successful reset gets its session cookie, and 200 when the
   * account is verified.
   */
  method ResetSingleHashThenLogin(store: UserStore, email: string, token: string, newPassword: string, now: nat,
                                  hook: HashEnv, secret: string, loginAt: nat)
    returns (reset: Response, login: Response)
    requires store.Valid() && AllInLifecycle(store.records)
    requires email != "" && token != "" && newPassword != ""
    requires forall id :: id in store.records && Matches(ByPendingReset(Sha256Hex(token), now), id, store.records[id]) ==>
               store.records[id].email == Lower(email)
    modifies store
    ensures reset.status == 200 ==> login.cookie.SetToken? && (login.status == 200 || login.status == 401)
    ensures reset.status == 200 ==>
              (login.status == 200 <==> exists id :: id in store.records && store.records[id].email == Lower(email)
                                                     && store.records[id].isVerified)
  {
    ghost var hit;
    reset, hit := ResetPasswordSingleHash(store, Some(token), Some(newPassword), now, hook);
    if reset.status == 200 {
      assert store.records[hit.value].email == Lower(email);
    }
    login := LoginUser(store, Some(email), Some(newPassword), secret, loginAt);
  }

  /**
   * The cookie a login sets opens the guard until the token expires, also
   * for an unverified user whose login was answered 401: the cookie is set
   * before the verification check.
   */
  method LoginThenGuard(store: UserStore, email: string, password: string, secret: string, now: nat, later: nat)
    returns (login: Response, outcome: GuardOutcome, req: Request)
    requires store.Valid()
    requires email != "" && password != ""
    requires later < (now / 1000 + SessionLifetime) * 1000
    ensures login.cookie.SetToken? ==> outcome == Continue && req.user.Some? && req.nextCalls == 1
    ensures login.status == 401 && login.cookie.SetToken? ==>
              exists id :: id in store.records && !store.records[id].isVerified && req.user == Some(WithoutPassword(id, store.records[id]))
  {
    login := LoginUser(store, Some(email), Some(password), secret, now);
    req := new Request(NextCookie(None, login.cookie));
    ghost var trace;
    if login.cookie.SetToken? {
      ghost var id :| id in store.records && store.records[id].email == Lower(email);
      JwtRoundTrip(id, secret, secret, now, later);
      assert login.cookie.value == JwtSign(id, secret, now);
    }
    outcome, trace := IsLogin(req, store, secret, later);
  }

  /** After logout the client holds no token, and the guard answers 401 without looking further. */
  method LogoutThenGuard(store: UserStore, jar: Option<CookieValue>, secret: string, now: nat)
    returns (outcome: GuardOutcome)
    requires store.Valid()
    ensures outcome == Reject(401, NoToken)
  {
    var resp := LogoutUser();
    var req := new Request(NextCookie(jar, resp.cookie));
    ghost var trace;
    outcome, trace := IsLogin(req, store, secret, now);
  }

  /**
   * Following a verification link held by exactly one user, then logging in
   * with that user's address and password, gives 200 twice.
   */
  method VerifyThenLogin(store: UserStore, token: string, email: string, password: string, secret: string, now: nat)
    returns (verify: Response, login: Response)
    requires store.Valid() && AllInLifecycle(store.records)
    requires token != "" && email != "" && password != ""
    requires !NoMatch(store.records, ByVerificationToken(token))
    requires forall id :: id in store.records && store.records[id].verificationToken == Some(token) ==>
               store.records[id].email == Lower(email) && BcryptCompare(password, store.records[id].password)
    modifies store
    ensures verify == Status(200) && login.status == 200
  {
    ghost var hit;
    verify, hit := VerifyEmail(store, Some(token));
    assert store.records[hit.value].isVerified && store.records[hit.value].email == Lower(email);
    login := LoginUser(store, Some(email), Some(password), secret, now);
  }

  /**
   * The happy path: signing up, following the verification link and logging
   * in with the same password gives 200, provided the fresh verification
   * token is not one another user already holds.
   */
  method SignupVerifyLogin(store: UserStore, name: string, email: string, password: string,
                           entropy: seq<byte>, hook: HashEnv, secret: string, now: nat)
    returns (signup: Response, verify: Response, login: Response)
    requires store.Valid() && AllInLifecycle(store.records)
    requires |entropy| == TokenBytes
    requires name != "" && email != "" && password != ""
    requires forall id :: id in store.records ==> store.records[id].verificationToken != Some(Hex(entropy))
    modifies store
    ensures signup.status == 201 ==> verify == Status(200) && login.status == 200
  {
    verify, login := Status(400), Status(400);
    var sent;
    signup, sent := SignupUser(store, Some(name), Some(email), Some(password), entropy, hook, true);
    if signup.status != 201 {
      return;
    }
    ghost var id := old(store.nextId);
    var token := signup.body.verificationToken;
    assert token == Hex(entropy);
    ghost var u := SignupRecord(name, email, password, token, hook.salt);
    assert store.records == old(store.records)[id := u];
    assert Matches(ByVerificationToken(token), id, store.records[id]);
    forall other | other in store.records && store.records[other].verificationToken == Some(token)
      ensures store.records[other].email == Lower(email) && BcryptCompare(password, store.records[other].password)
    {
      assert other == id;
    }
    verify, login := VerifyThenLogin(store, token, email, password, secret, now);
  }
}
