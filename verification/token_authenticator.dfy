/** The bearer-token authenticator of src/Security/TokenAuthenticator.php. It
    guards every route except the login route, reads the token from the
    `X-AUTH-TOKEN` header, rejects unknown and expired tokens, and on success
    slides the expiry one hour past now. */
module TokenAuthenticator {
  import opened Wrappers
  import opened UserRepository
  import opened UserProvider
  import opened Http
  import PhpStrings
  import DateTimeService
  import UserTokenService

  const TOKEN_HEADER: string := "X-AUTH-TOKEN"

  /** The message for a missing, blank or unknown token. Note the lower-case
      "c", unlike the login authenticator's message. */
  const WRONG_CREDENTIALS: string := "Wrong credentials"
  const TOKEN_EXPIRED: string := "Token was expired. Try to login again"
  const TOKEN_REQUIRED: string := "Authentication token required"

  /** `start()`: the answer to an unauthenticated request. */
  function Start(): (r: Response)
    ensures r.status == HTTP_UNAUTHORIZED
    ensures r.body == MessageBody(TOKEN_REQUIRED)
  {
    Response(HTTP_UNAUTHORIZED, MessageBody(TOKEN_REQUIRED))
  }

  /** `supports()`: every request not routed to the login endpoint. */
  predicate Supports(request: Request) {
    request.route != Some(LOGIN_ROUTE)
  }

  /** `getCredentials()`: the token header, or the empty string without one. */
  function GetCredentials(request: Request): (r: string)
    ensures TOKEN_HEADER in request.headers ==> r == request.headers[TOKEN_HEADER]
    ensures TOKEN_HEADER !in request.headers ==> r == ""
  {
    Get(request.headers, TOKEN_HEADER, "")
  }

  /** `getUser()`: the holder of the token. The three rejections share one
      message: the trimmed credential is `""` or `"0"`, the provider is not
      this application's, or nobody holds the token. The lookup uses the
      credential as given, not the trimmed one. */
  function GetUser(credentials: string, provider: ProviderKind, store: Store): (r: Result<Id, AuthException>)
    ensures r.Failure? ==> r.error == AuthException(WRONG_CREDENTIALS)
    ensures r.Success? ==> r.value < |store| && store[r.value].token == Some(credentials)
    ensures r.Success? <==>
      && !PhpStrings.IsBlankOrZero(credentials)
      && provider == AppUserProvider
      && exists i :: 0 <= i < |store| && store[i].token == Some(credentials)
  {
    if PhpStrings.IsBlankOrZero(credentials) || !provider.AppUserProvider? then
      Failure(AuthException(WRONG_CREDENTIALS))
    else
      match LoadUserByToken(store, credentials)
      case None => Failure(AuthException(WRONG_CREDENTIALS))
      case Some(id) => Success(id)
  }

  /** `checkCredentials()`: accepts exactly when the user has an expiry and it
      is not past; the only answer on acceptance is `true`. */
  function CheckCredentials(user: User, now: int): (r: Result<bool, AuthException>)
    ensures r.Success? ==> r.value
    ensures r.Failure? ==> r.error == AuthException(TOKEN_EXPIRED)
    ensures r.Success? <==> user.tokenValidTill.Some? && now <= user.tokenValidTill.value
  {
    if user.tokenValidTill.None? || DateTimeService.IsPast(user.tokenValidTill.value, now) then
      Failure(AuthException(TOKEN_EXPIRED))
    else
      Success(true)
  }

  /** `onAuthenticationFailure()`: 401 with the exception's message. */
  function OnAuthenticationFailure(e: AuthException): (r: Response)
    ensures r.status == HTTP_UNAUTHORIZED && r.body == MessageBody(e.messageKey)
  {
    FailureResponse(e)
  }

  /** `onAuthenticationSuccess()`: prolongs the session by the default hour and
      returns null, so the request goes on to its controller. A failing
      prolongation is logged and swallowed: the store is left as it was and
      the answer is still null. */
  function OnAuthenticationSuccess(store: Store, id: Id, now: int, prolongFails: bool): (r: (Option<Response>, Store))
    requires id < |store|
    ensures r.0.None?
    ensures prolongFails ==> r.1 == store
    ensures !prolongFails ==> OnlySessionChanged(store, r.1, id)
    ensures !prolongFails ==> r.1[id].token == store[id].token
    ensures !prolongFails ==> r.1[id].tokenValidTill == Some(now + DateTimeService.SECONDS_IN_HOUR)
  {
    match UserTokenService.Prolong(store, id, now, prolongFails)
    case Success(after) => (None, after)
    case Failure(_) => (None, store)
  }

  /** `supportsRememberMe()`. */
  function SupportsRememberMe(): (r: bool)
    ensures !r
  {
    false
  }

  /** A blank or zero credential is refused whatever the store holds, even a
      user whose token is literally `"0"`. */
  lemma ZeroTokenRefused(provider: ProviderKind, store: Store)
    ensures GetUser("0", provider, store) == Failure(AuthException(WRONG_CREDENTIALS))
    ensures GetUser("", provider, store) == Failure(AuthException(WRONG_CREDENTIALS))
  {
    PhpStrings.EmptyAndZeroRejected();
  }

  /** A token whose expiry equals now is still accepted; a second later it is
      expired. */
  lemma ExpiryBoundary(user: User, now: int)
    requires user.tokenValidTill == Some(now)
    ensures CheckCredentials(user, now).Success?
    ensures CheckCredentials(user, now + 1) == Failure(AuthException(TOKEN_EXPIRED))
  {
  }
}
