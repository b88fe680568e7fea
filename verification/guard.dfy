/** Assumed glue: the order in which the host framework's guard layer calls an
    authenticator (supports, getCredentials, getUser, checkCredentials, then
    onAuthenticationSuccess or onAuthenticationFailure). The framework is not
    part of this model; this module composes the steps the way that layer is
    documented to, so that whole requests can be reasoned about. One instant
    `now` serves the whole request. */
module Guard {
  import opened Wrappers
  import opened UserRepository
  import opened UserProvider
  import opened Http
  import DateTimeService
  import PhpStrings
  import UserTokenService
  import TokenAuthenticator
  import LoginAuthenticator

  /** What happens to a request: the authenticator does not apply, it answers
      the request itself, or it lets the request through to its controller. */
  datatype Outcome = NotHandled | Respond(response: Response) | Proceed

  /** An outcome and the store after the request. */
  datatype Step = Step(outcome: Outcome, store: Store)

  /** The framework's own message when `getUser()` returns null (assumed). */
  const USER_NOT_FOUND: string := "Username could not be found."

  /** A request through the login authenticator. */
  function LoginRequest(request: Request, provider: ProviderKind, store: Store,
                        isPasswordValid: LoginAuthenticator.PasswordCheck,
                        newToken: UserTokenService.FreshToken, now: int, issueFails: bool): Step
  {
    if !LoginAuthenticator.Supports(request) then Step(NotHandled, store)
    else
      var credentials := LoginAuthenticator.GetCredentials(request);
      match LoginAuthenticator.GetUser(credentials, provider, store)
      case None =>
        Step(Respond(LoginAuthenticator.OnAuthenticationFailure(AuthException(USER_NOT_FOUND))), store)
      case Some(id) =>
        match LoginAuthenticator.CheckCredentials(credentials, store, id, isPasswordValid, newToken, now, issueFails)
        case Failure(e) => Step(Respond(LoginAuthenticator.OnAuthenticationFailure(e)), store)
        case Success(after) => Step(Respond(LoginAuthenticator.OnAuthenticationSuccess(after[id])), after)
  }

  /** A request through the token authenticator. */
  function TokenRequest(request: Request, provider: ProviderKind, store: Store, now: int, prolongFails: bool): Step
  {
    if !TokenAuthenticator.Supports(request) then Step(NotHandled, store)
    else
      var credentials := TokenAuthenticator.GetCredentials(request);
      match TokenAuthenticator.GetUser(credentials, provider, store)
      case Failure(e) => Step(Respond(TokenAuthenticator.OnAuthenticationFailure(e)), store)
      case Success(id) =>
        match TokenAuthenticator.CheckCredentials(store[id], now)
        case Failure(e) => Step(Respond(TokenAuthenticator.OnAuthenticationFailure(e)), store)
        case Success(_) =>
          var (response, after) := TokenAuthenticator.OnAuthenticationSuccess(store, id, now, prolongFails);
          match response
          case None => Step(Proceed, after)
          case Some(r) => Step(Respond(r), after)
  }

  /** Exactly one of the two authenticators applies to any request. */
  lemma SupportsAreComplementary(request: Request)
    ensures LoginAuthenticator.Supports(request) <==> !TokenAuthenticator.Supports(request)
  {
  }

  /** The user found by email, for a login request through this application's provider. */
  predicate LoginTarget(request: Request, store: Store, id: Id) {
    && LoginAuthenticator.Supports(request)
    && id < |store|
    && LoginAuthenticator.GetCredentials(request).email == store[id].email
    && forall j :: 0 <= j < id ==> store[j].email != store[id].email
  }

  /** A correct password and a successful issuance answer 200 with the fresh
      token, which is the one now stored for the user, valid for an hour, and
      which then finds that user when nobody else held it. */
  lemma LoginSucceeds(request: Request, store: Store, id: Id,
                      isPasswordValid: LoginAuthenticator.PasswordCheck,
                      newToken: UserTokenService.FreshToken, now: int)
    requires LoginTarget(request, store, id)
    requires isPasswordValid(store[id], LoginAuthenticator.GetCredentials(request).password)
    requires forall j :: 0 <= j < |store| && j != id ==> store[j].token != Some(newToken)
    ensures var step := LoginRequest(request, AppUserProvider, store, isPasswordValid, newToken, now, false);
      && step.outcome == Respond(Response(HTTP_OK, TokenBody(Some(newToken))))
      && OnlySessionChanged(store, step.store, id)
      && step.store[id].token == Some(newToken)
      && step.store[id].tokenValidTill == Some(now + 3600)
      && !DateTimeService.IsPast(step.store[id].tokenValidTill.value, now)
      && LoadUserByToken(step.store, newToken) == Some(id)
  {
    var credentials := LoginAuthenticator.GetCredentials(request);
    assert FindOneBy(store, ByEmail(credentials.email)) == Some(id);
    var after := LoginAuthenticator.CheckCredentials(credentials, store, id, isPasswordValid, newToken, now, false).value;
    FindUniqueHolder(after, id, newToken);
  }

  /** A wrong password answers 401 "Wrong Credentials" and issues nothing. */
  lemma LoginWrongPassword(request: Request, store: Store, id: Id,
                           isPasswordValid: LoginAuthenticator.PasswordCheck,
                           newToken: UserTokenService.FreshToken, now: int, issueFails: bool)
    requires LoginTarget(request, store, id)
    requires !isPasswordValid(store[id], LoginAuthenticator.GetCredentials(request).password)
    ensures LoginRequest(request, AppUserProvider, store, isPasswordValid, newToken, now, issueFails)
      == Step(Respond(Response(HTTP_UNAUTHORIZED, MessageBody("Wrong Credentials"))), store)
  {
    var credentials := LoginAuthenticator.GetCredentials(request);
    assert FindOneBy(store, ByEmail(credentials.email)) == Some(id);
  }

  /** A correct password whose issuance fails answers 401 with the generic
      message and leaves the store as it was. */
  lemma LoginIssuanceFails(request: Request, store: Store, id: Id,
                           isPasswordValid: LoginAuthenticator.PasswordCheck,
                           newToken: UserTokenService.FreshToken, now: int)
    requires LoginTarget(request, store, id)
    requires isPasswordValid(store[id], LoginAuthenticator.GetCredentials(request).password)
    ensures LoginRequest(request, AppUserProvider, store, isPasswordValid, newToken, now, true)
      == Step(Respond(Response(HTTP_UNAUTHORIZED, MessageBody("Something went wrong. Try again later"))), store)
  {
    var credentials := LoginAuthenticator.GetCredentials(request);
    assert FindOneBy(store, ByEmail(credentials.email)) == Some(id);
  }

  /** Every login answer is 200 with a token or 401 with a message, and only
      the 200 answer changes the store. */
  lemma LoginAnswers(request: Request, provider: ProviderKind, store: Store,
                     isPasswordValid: LoginAuthenticator.PasswordCheck,
                     newToken: UserTokenService.FreshToken, now: int, issueFails: bool)
    requires LoginAuthenticator.Supports(request)
    ensures var step := LoginRequest(request, provider, store, isPasswordValid, newToken, now, issueFails);
      && step.outcome.Respond?
      && (step.outcome.response.status == HTTP_OK <==> step.outcome.response.body.TokenBody?)
      && (step.outcome.response.status == HTTP_OK || step.outcome.response.status == HTTP_UNAUTHORIZED)
      && (step.outcome.response.status == HTTP_UNAUTHORIZED ==> step.store == store)
  {
  }

  /** The user holding the presented token, for a request through this
      application's provider. */
  predicate TokenHolder(request: Request, store: Store, id: Id) {
    && TokenAuthenticator.Supports(request)
    && id < |store|
    && TokenAuthenticator.TOKEN_HEADER in request.headers
    && store[id].token == Some(request.headers[TokenAuthenticator.TOKEN_HEADER])
    && TokensDistinct(store)
  }

  /** An unexpired token lets the request through; the expiry slides to an
      hour past now and the token stays. A failing prolongation leaves the
      store as it was, and the request still goes through. */
  lemma TokenAccepted(request: Request, store: Store, id: Id, now: int, prolongFails: bool)
    requires TokenHolder(request, store, id)
    requires !PhpStrings.IsBlankOrZero(request.headers[TokenAuthenticator.TOKEN_HEADER])
    requires store[id].tokenValidTill.Some? && !DateTimeService.IsPast(store[id].tokenValidTill.value, now)
    ensures var step := TokenRequest(request, AppUserProvider, store, now, prolongFails);
      && step.outcome == Proceed
      && (prolongFails ==> step.store == store)
      && (!prolongFails ==> OnlySessionChanged(store, step.store, id))
      && (!prolongFails ==> step.store[id].token == store[id].token)
      && (!prolongFails ==> step.store[id].tokenValidTill == Some(now + 3600))
  {
    var t := request.headers[TokenAuthenticator.TOKEN_HEADER];
    FindUniqueHolder(store, id, t);
  }

  /** An expired token, or a holder with no expiry, answers 401 with the
      expiry message and leaves the store as it was. */
  lemma TokenExpired(request: Request, store: Store, id: Id, now: int, prolongFails: bool)
    requires TokenHolder(request, store, id)
    requires !PhpStrings.IsBlankOrZero(request.headers[TokenAuthenticator.TOKEN_HEADER])
    requires store[id].tokenValidTill.None? || DateTimeService.IsPast(store[id].tokenValidTill.value, now)
    ensures TokenRequest(request, AppUserProvider, store, now, prolongFails)
      == Step(Respond(Response(HTTP_UNAUTHORIZED, MessageBody("Token was expired. Try to login again"))), store)
  {
    var t := request.headers[TokenAuthenticator.TOKEN_HEADER];
    FindUniqueHolder(store, id, t);
  }

  /** A request through the token authenticator goes through only when the
      presented token is held by someone whose expiry is not past; otherwise
      it is answered 401 and the store is unchanged. `TokenProceedsExactly`
      gives the converse where it holds. */
  lemma TokenRequestVerdict(request: Request, store: Store, now: int, prolongFails: bool)
    requires TokenAuthenticator.Supports(request)
    ensures var step := TokenRequest(request, AppUserProvider, store, now, prolongFails);
      var t := TokenAuthenticator.GetCredentials(request);
      && (step.outcome == Proceed || (step.outcome.Respond? && step.outcome.response.status == HTTP_UNAUTHORIZED))
      && (step.outcome == Proceed ==>
            exists i :: 0 <= i < |store| && store[i].token == Some(t)
              && store[i].tokenValidTill.Some? && now <= store[i].tokenValidTill.value)
      && (step.outcome != Proceed ==> step.store == store)
  {
  }

  /** When every token is held at most once and the presented token passes
      the `!trim(...)` test, a request goes through exactly when someone holds
      the token with an expiry that is not past. Without those two conditions
      the converse fails: a held `"0"` is refused by the test, and a lookup
      that finds an expired holder first refuses a token another user holds
      unexpired. */
  lemma TokenProceedsExactly(request: Request, store: Store, now: int, prolongFails: bool)
    requires TokenAuthenticator.Supports(request)
    requires TokensDistinct(store)
    requires !PhpStrings.IsBlankOrZero(TokenAuthenticator.GetCredentials(request))
    ensures var t := TokenAuthenticator.GetCredentials(request);
      var proceeds := TokenRequest(request, AppUserProvider, store, now, prolongFails).outcome == Proceed;
      proceeds <==> exists i :: 0 <= i < |store| && store[i].token == Some(t)
                      && store[i].tokenValidTill.Some? && now <= store[i].tokenValidTill.value
  {
    var t := TokenAuthenticator.GetCredentials(request);
    if exists i :: 0 <= i < |store| && store[i].token == Some(t)
         && store[i].tokenValidTill.Some? && now <= store[i].tokenValidTill.value
    {
      var i :| 0 <= i < |store| && store[i].token == Some(t)
        && store[i].tokenValidTill.Some? && now <= store[i].tokenValidTill.value;
      FindUniqueHolder(store, i, t);
    }
  }

  /** The prolongation flag never decides whether a request goes through. */
  lemma ProlongFailureIsNonFatal(request: Request, provider: ProviderKind, store: Store, now: int)
    ensures TokenRequest(request, provider, store, now, true).outcome
         == TokenRequest(request, provider, store, now, false).outcome
  {
  }

  /** Sliding expiry: after a request that went through and prolonged, the
      same token goes through again at any instant up to an hour later. */
  lemma SlidingExpiry(request: Request, store: Store, id: Id, now: int, later: int, prolongFails: bool)
    requires TokenHolder(request, store, id)
    requires !PhpStrings.IsBlankOrZero(request.headers[TokenAuthenticator.TOKEN_HEADER])
    requires store[id].tokenValidTill.Some? && !DateTimeService.IsPast(store[id].tokenValidTill.value, now)
    requires now <= later <= now + DateTimeService.SECONDS_IN_HOUR
    ensures var first := TokenRequest(request, AppUserProvider, store, now, false);
      TokenRequest(request, AppUserProvider, first.store, later, prolongFails).outcome == Proceed
  {
    TokenAccepted(request, store, id, now, false);
    var first := TokenRequest(request, AppUserProvider, store, now, false);
    assert TokensDistinct(first.store) by {
      ProlongPreservesDistinct(store, id, now);
    }
    TokenAccepted(request, first.store, id, later, prolongFails);
  }

  /** Prolonging keeps tokens distinct, because tokens are untouched. */
  lemma ProlongPreservesDistinct(store: Store, id: Id, now: int)
    requires id < |store| && TokensDistinct(store)
    ensures TokensDistinct(UserTokenService.Prolong(store, id, now, false).value)
  {
    var after := UserTokenService.Prolong(store, id, now, false).value;
    assert forall i :: 0 <= i < |store| ==> after[i].token == store[i].token;
  }

  /** A login keeps the store well formed when the fresh token is held by
      nobody yet. */
  lemma LoginRequestPreservesWellFormed(request: Request, provider: ProviderKind, store: Store,
                                        isPasswordValid: LoginAuthenticator.PasswordCheck,
                                        newToken: UserTokenService.FreshToken, now: int, issueFails: bool)
    requires WellFormed(store)
    requires forall j :: 0 <= j < |store| ==> store[j].token != Some(newToken)
    ensures WellFormed(LoginRequest(request, provider, store, isPasswordValid, newToken, now, issueFails).store)
  {
    if LoginAuthenticator.Supports(request) {
      var credentials := LoginAuthenticator.GetCredentials(request);
      match LoginAuthenticator.GetUser(credentials, provider, store)
      case None =>
      case Some(id) =>
        if isPasswordValid(store[id], credentials.password) && !issueFails {
          UserTokenService.UpdatePreservesWellFormed(store, id, newToken, now, DateTimeService.SECONDS_IN_HOUR);
        }
    }
  }

  /** Every token request keeps the store well formed, whatever the provider,
      the clock or the prolongation outcome. */
  lemma TokenRequestPreservesWellFormed(request: Request, provider: ProviderKind, store: Store,
                                        now: int, prolongFails: bool)
    requires WellFormed(store)
    ensures WellFormed(TokenRequest(request, provider, store, now, prolongFails).store)
  {
    if TokenAuthenticator.Supports(request) {
      var credentials := TokenAuthenticator.GetCredentials(request);
      match TokenAuthenticator.GetUser(credentials, provider, store)
      case Failure(_) =>
      case Success(id) =>
        if !prolongFails {
          UserTokenService.ProlongPreservesWellFormed(store, id, now, DateTimeService.SECONDS_IN_HOUR);
        }
    }
  }
}
