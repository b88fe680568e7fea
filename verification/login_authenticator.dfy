/** The email/password authenticator of src/Security/LoginAuthenticator.php.
    It guards the login route only, checks the password, issues a fresh token
    and answers with it. Password verification is the `isPasswordValid`
    parameter, standing for the framework's password encoder. */
module LoginAuthenticator {
  import opened Wrappers
  import opened UserRepository
  import opened UserProvider
  import opened Http
  import UserTokenService
  import DateTimeService

  const WRONG_CREDENTIALS: string := "Wrong Credentials"
  const SOMETHING_WENT_WRONG: string := "Something went wrong. Try again later"

  /** The form fields of a login request. */
  datatype Credentials = Credentials(email: string, password: string)

  /** The password encoder's verdict on a user and a plain-text password. */
  type PasswordCheck = (User, string) -> bool

  /** `start()`: the answer to an unauthenticated login attempt. */
  function Start(): (r: Response)
    ensures r.status == HTTP_UNAUTHORIZED
    ensures r.body == MessageBody(WRONG_CREDENTIALS)
  {
    Response(HTTP_UNAUTHORIZED, MessageBody(WRONG_CREDENTIALS))
  }

  /** `supports()`: exactly the requests routed to the login endpoint. */
  predicate Supports(request: Request) {
    request.route == Some(LOGIN_ROUTE)
  }

  /** `getCredentials()`: `email` and `password` from the form body, each the
      empty string when absent. */
  function GetCredentials(request: Request): (r: Credentials)
    ensures "email" in request.body ==> r.email == request.body["email"]
    ensures "email" !in request.body ==> r.email == ""
    ensures "password" in request.body ==> r.password == request.body["password"]
    ensures "password" !in request.body ==> r.password == ""
  {
    Credentials(Get(request.body, "email", ""), Get(request.body, "password", ""))
  }

  /** `getUser()`: null for a provider other than this application's,
      otherwise the lookup by email. */
  function GetUser(credentials: Credentials, provider: ProviderKind, store: Store): (r: Option<Id>)
    ensures provider == ForeignProvider ==> r.None?
    ensures r.Some? ==> r.value < |store| && store[r.value].email == credentials.email
    ensures r.Some? <==>
      provider == AppUserProvider && exists i :: 0 <= i < |store| && store[i].email == credentials.email
  {
    if !provider.AppUserProvider? then None
    else LoadUserByUsername(store, credentials.email)
  }

  /** `checkCredentials()`: a wrong password fails with "Wrong Credentials"
      before any token is issued; a right one issues a fresh token with the
      default one-hour window, and a failure while issuing is reported with a
      generic message that hides the internal error. On success the result
      is the store after issuance (the method itself answers `true`). */
  function CheckCredentials(credentials: Credentials, store: Store, id: Id, isPasswordValid: PasswordCheck,
                            newToken: UserTokenService.FreshToken, now: int, issueFails: bool): (r: Result<Store, AuthException>)
    requires id < |store|
    ensures !isPasswordValid(store[id], credentials.password) ==> r == Failure(AuthException(WRONG_CREDENTIALS))
    ensures isPasswordValid(store[id], credentials.password) && issueFails ==>
      r == Failure(AuthException(SOMETHING_WENT_WRONG))
    ensures r.Success? <==> isPasswordValid(store[id], credentials.password) && !issueFails
    ensures r.Success? ==> OnlySessionChanged(store, r.value, id)
    ensures r.Success? ==> r.value[id].token == Some(newToken)
    ensures r.Success? ==> r.value[id].tokenValidTill == Some(now + DateTimeService.SECONDS_IN_HOUR)
  {
    if !isPasswordValid(store[id], credentials.password) then
      Failure(AuthException(WRONG_CREDENTIALS))
    else
      match UserTokenService.Update(store, id, newToken, now, issueFails)
      case Failure(_) => Failure(AuthException(SOMETHING_WENT_WRONG))
      case Success(after) => Success(after)
  }

  /** `onAuthenticationFailure()`: 401 with the exception's message. */
  function OnAuthenticationFailure(e: AuthException): (r: Response)
    ensures r.status == HTTP_UNAUTHORIZED && r.body == MessageBody(e.messageKey)
  {
    FailureResponse(e)
  }

  /** `onAuthenticationSuccess()`: 200 with the authenticated user's token. */
  function OnAuthenticationSuccess(user: User): (r: Response)
    ensures r.status == HTTP_OK
    ensures r.body == TokenBody(user.token)
  {
    Response(HTTP_OK, TokenBody(user.token))
  }

  /** `supportsRememberMe()`. */
  function SupportsRememberMe(): (r: bool)
    ensures !r
  {
    false
  }
}
