/**
 * The `isLogin` middleware in front of /profile and /logout: it reads the
 * `token` cookie, verifies it as a JSON web token, loads the user it names
 * without the password, attaches that user to the request and calls `next`.
 */
module SessionGuard {
  import opened Wrappers
  import opened Crypto
  import opened UserModel

  /** The request as the guard and the profile handler see it. */
  class Request {
    const tokenCookie: Option<CookieValue>   // req.cookies.token
    var user: Option<SafeUser>               // req.user
    var nextCalls: nat                       // how often `next()` has been called

    constructor (tokenCookie: Option<CookieValue>)
      ensures this.tokenCookie == tokenCookie && user.None? && nextCalls == 0
    {
      this.tokenCookie := tokenCookie;
      user := None;
      nextCalls := 0;
    }
  }

  datatype RejectReason = NoToken | InvalidOrExpiredToken | UserNotFound

  /** The guard either passes the request on (`next()`) or answers it itself. */
  datatype GuardOutcome = Continue | Reject(status: nat, reason: RejectReason)

  /** The checks the guard performs, in the order it performs them. */
  datatype GuardStep = CookieCheck | SignatureCheck | StoreLookup

  /** `!token` is false: the cookie is there and not the empty string. */
  predicate CookiePresent(c: Option<CookieValue>) {
    c.Some? && c.value != Text("")
  }

  /**
   * isLogin: 401 without a token; 401 when jwt.verify throws (bad signature
   * or expired); 404 when no user has the id the token names; otherwise
   * req.user is the user without the password and `next` runs once.
   * `trace` lists the checks reached: a later one is never reached unless
   * every earlier one passed.
   */
  method IsLogin(req: Request, store: UserStore, secret: string, now: nat)
    returns (outcome: GuardOutcome, ghost trace: seq<GuardStep>)
    requires store.Valid()
    modifies req
    ensures !CookiePresent(req.tokenCookie) ==>
              outcome == Reject(401, NoToken) && trace == [CookieCheck]
    ensures CookiePresent(req.tokenCookie) && JwtVerify(req.tokenCookie.value, secret, now).None? ==>
              outcome == Reject(401, InvalidOrExpiredToken) && trace == [CookieCheck, SignatureCheck]
    ensures CookiePresent(req.tokenCookie) && JwtVerify(req.tokenCookie.value, secret, now).Some? ==>
              var id := JwtVerify(req.tokenCookie.value, secret, now).value;
              && trace == [CookieCheck, SignatureCheck, StoreLookup]
              && (id !in store.records ==> outcome == Reject(404, UserNotFound))
              && (id in store.records ==>
                    outcome == Continue && req.user == Some(WithoutPassword(id, store.records[id])))
    ensures outcome.Continue? ==> req.nextCalls == old(req.nextCalls) + 1
    ensures outcome.Reject? ==> req.user == old(req.user) && req.nextCalls == old(req.nextCalls)
  {
    trace := [CookieCheck];
    if !CookiePresent(req.tokenCookie) {
      return Reject(401, NoToken), trace;
    }
    trace := trace + [SignatureCheck];
    var decoded := JwtVerify(req.tokenCookie.value, secret, now);
    if decoded.None? {
      return Reject(401, InvalidOrExpiredToken), trace;
    }
    trace := trace + [StoreLookup];
    var found := store.FindOne(ById(decoded.value));
    if found.None? {
      return Reject(404, UserNotFound), trace;
    }
    req.user := Some(WithoutPassword(found.value, store.records[found.value]));
    req.nextCalls := req.nextCalls + 1;
    return Continue, trace;
  }
}
