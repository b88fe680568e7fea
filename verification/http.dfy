/** The parts of an HTTP exchange both authenticators read and write. Symfony's
    request and response objects are reduced to the fields they consult. */
module Http {
  import opened Wrappers

  const HTTP_OK: int := 200
  const HTTP_UNAUTHORIZED: int := 401

  /** The route name of the login endpoint. */
  const LOGIN_ROUTE: string := "api_login"

  /** An incoming request: its matched route (the `_route` attribute, null
      when routing set none), its headers, and its form body. */
  datatype Request = Request(
    route: Option<string>,
    headers: map<string, string>,
    body: map<string, string>)

  /** A JSON body: `{"message": …}` or `{"token": …}` (the token may be null). */
  datatype Body = MessageBody(message: string) | TokenBody(token: Option<string>)

  datatype Response = Response(status: int, body: Body)

  /** An authentication exception, reduced to its message key. Every exception
      these authenticators raise carries empty message data. */
  datatype AuthException = AuthException(messageKey: string)

  /** `$bag->get($key, $default)`. */
  function Get(m: map<string, string>, key: string, default: string): (r: string)
    ensures key in m ==> r == m[key]
    ensures key !in m ==> r == default
  {
    if key in m then m[key] else default
  }

  /** The failure response both authenticators send: 401 with the exception's
      message. With empty message data `strtr` leaves the key unchanged, so
      the message is the key itself. */
  function FailureResponse(e: AuthException): (r: Response)
    ensures r.status == HTTP_UNAUTHORIZED
    ensures r.body == MessageBody(e.messageKey)
  {
    Response(HTTP_UNAUTHORIZED, MessageBody(e.messageKey))
  }
}
