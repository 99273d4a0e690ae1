/**
 * What a handler hands back to Express: the status code, what it does to the
 * `token` cookie, and the data it puts in the JSON body; and the one message
 * it passes to the mail relay.
 */
module Http {
  import opened Wrappers
  import opened Crypto

  /** JavaScript truthiness of a request field that is a string or absent: "" is falsy too. */
  predicate Present(field: Option<string>) {
    field.Some? && field.value != ""
  }

  /** What res.cookie does to the client's `token` cookie. */
  datatype CookieEffect =
    | Keep                      // no Set-Cookie header
    | SetToken(value: CookieValue)
    | Expire                    // value "" with an expiry at the epoch: the client drops the cookie

  /** The `token` cookie the client holds after a response with effect `e`. */
  function NextCookie(jar: Option<CookieValue>, e: CookieEffect): Option<CookieValue> {
    match e
    case Keep => jar
    case SetToken(v) => Some(v)
    case Expire => None
  }

  /** The data a handler puts in its JSON body, beyond `error` and `message`. */
  datatype Body =
    | NoData
    | Registration(id: nat, name: string, email: string, isVerified: bool, verificationToken: string)
    | Session(token: CookieValue, id: nat, name: string, email: string)
    | ProfileData(id: nat, name: string, email: string)

  datatype Response = Response(status: nat, cookie: CookieEffect, body: Body)

  /** A response that carries only a status (and a message), leaving the cookie alone. */
  function Status(code: nat): Response {
    Response(code, Keep, NoData)
  }

  /** The message handed to the mail relay: the recipient and the token its link embeds. */
  datatype Mail =
    | VerificationMail(to: string, token: string)
    | ResetMail(to: string, token: string)
}
