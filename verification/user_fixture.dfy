/** Scenarios over the two users of src/DataFixtures/UserFixture.php: one whose
    token is valid for another hour and one whose token expired an hour ago.
    Both have the password "123456". The fixture encodes it once per user, so
    a salted encoder would store two different hashes; here both store the
    `hash` parameter, which is harmless because the encoder below ignores the
    stored hash and accepts exactly that password. */
module UserFixture {
  import opened Wrappers
  import opened UserRepository
  import opened UserProvider
  import opened Http
  import DateTimeService
  import UserTokenService
  import TokenAuthenticator
  import LoginAuthenticator
  import Guard
  import PhpStrings

  const VALID_EMAIL: string := "yurii.didenko.it@gmail.com"
  const EXPIRED_EMAIL: string := "expired@gmail.com"
  const VALID_TOKEN: string := "VALID_TOKEN"
  const EXPIRED_TOKEN: string := "EXPIRED_TOKEN"
  const PASSWORD: string := "123456"

  /** The fixture store as loaded at instant `now`. */
  function Fixture(hash: string, now: int): (r: Store)
    ensures WellFormed(r)
  {
    [ User(VALID_EMAIL, hash, Some(VALID_TOKEN), Some(now + DateTimeService.SECONDS_IN_HOUR)),
      User(EXPIRED_EMAIL, hash, Some(EXPIRED_TOKEN), Some(now - DateTimeService.SECONDS_IN_HOUR)) ]
  }

  /** The encoder's verdict for the fixture: the plain password "123456". */
  function Encoder(): LoginAuthenticator.PasswordCheck {
    (u: User, password: string) => password == PASSWORD
  }

  /** A request to a protected route carrying a token header. */
  function ApiRequest(token: string): Request {
    Request(Some("api_todos"), map[TokenAuthenticator.TOKEN_HEADER := token], map[])
  }

  /** A login request with the given form fields. */
  function LoginForm(email: string, password: string): Request {
    Request(Some(LOGIN_ROUTE), map[], map["email" := email, "password" := password])
  }

  /** The valid fixture token goes through; the expired one is refused. */
  lemma FixtureTokens(hash: string, now: int)
    ensures Guard.TokenRequest(ApiRequest(VALID_TOKEN), AppUserProvider, Fixture(hash, now), now, false).outcome
      == Guard.Proceed
    ensures Guard.TokenRequest(ApiRequest(EXPIRED_TOKEN), AppUserProvider, Fixture(hash, now), now, false).outcome
      == Guard.Respond(Response(HTTP_UNAUTHORIZED, MessageBody(TokenAuthenticator.TOKEN_EXPIRED)))
  {
    FixtureTokensNotBlank();
    Guard.TokenAccepted(ApiRequest(VALID_TOKEN), Fixture(hash, now), 0, now, false);
    Guard.TokenExpired(ApiRequest(EXPIRED_TOKEN), Fixture(hash, now), 1, now, false);
  }

  /** A wrong password for the valid user is refused with "Wrong Credentials". */
  lemma FixtureInvalidLogin(hash: string, newToken: UserTokenService.FreshToken, now: int)
    ensures Guard.LoginRequest(LoginForm(VALID_EMAIL, "1234564"), AppUserProvider, Fixture(hash, now),
                               Encoder(), newToken, now, false)
      == Guard.Step(Guard.Respond(Response(HTTP_UNAUTHORIZED, MessageBody("Wrong Credentials"))), Fixture(hash, now))
  {
    Guard.LoginWrongPassword(LoginForm(VALID_EMAIL, "1234564"), Fixture(hash, now), 0, Encoder(), newToken, now, false);
  }

  /** Log in, use the token half an hour later, then force the expiry an hour
      into the past: the same token is then refused as expired. */
  lemma LoginUseExpireScenario(hash: string, newToken: UserTokenService.FreshToken, now: int)
    ensures var login := Guard.LoginRequest(LoginForm(VALID_EMAIL, PASSWORD), AppUserProvider, Fixture(hash, now),
                                            Encoder(), newToken, now, false);
      && login.outcome == Guard.Respond(Response(HTTP_OK, TokenBody(Some(newToken))))
      && var use := Guard.TokenRequest(ApiRequest(newToken), AppUserProvider, login.store, now + 1800, false);
      && use.outcome == Guard.Proceed
      && var forced := UpdateTokenValidTill(use.store, 0, now + 1800 - DateTimeService.SECONDS_IN_HOUR, false).value;
      Guard.TokenRequest(ApiRequest(newToken), AppUserProvider, forced, now + 1800, false).outcome
        == Guard.Respond(Response(HTTP_UNAUTHORIZED, MessageBody(TokenAuthenticator.TOKEN_EXPIRED)))
  {
    var store := Fixture(hash, now);
    assert newToken != VALID_TOKEN && newToken != EXPIRED_TOKEN by {
      assert |newToken| == 32;
    }
    Guard.LoginSucceeds(LoginForm(VALID_EMAIL, PASSWORD), store, 0, Encoder(), newToken, now);
    var login := Guard.LoginRequest(LoginForm(VALID_EMAIL, PASSWORD), AppUserProvider, store, Encoder(), newToken, now, false);
    Guard.LoginRequestPreservesWellFormed(LoginForm(VALID_EMAIL, PASSWORD), AppUserProvider, store, Encoder(), newToken, now, false);
    Md5NotBlank(newToken);
    Guard.TokenAccepted(ApiRequest(newToken), login.store, 0, now + 1800, false);
    var use := Guard.TokenRequest(ApiRequest(newToken), AppUserProvider, login.store, now + 1800, false);
    Guard.ProlongPreservesDistinct(login.store, 0, now + 1800);
    var forced := UpdateTokenValidTill(use.store, 0, now + 1800 - DateTimeService.SECONDS_IN_HOUR, false).value;
    assert forall i :: 0 <= i < |forced| ==> forced[i].token == use.store[i].token;
    Guard.TokenExpired(ApiRequest(newToken), forced, 0, now + 1800, false);
  }

  /** The fixture tokens pass the credential test. */
  lemma FixtureTokensNotBlank()
    ensures !PhpStrings.IsBlankOrZero(VALID_TOKEN) && !PhpStrings.IsBlankOrZero(EXPIRED_TOKEN)
  {
    PhpStrings.UnpaddedAccepted(VALID_TOKEN);
    PhpStrings.UnpaddedAccepted(EXPIRED_TOKEN);
  }

  /** An md5 digest is neither blank nor `"0"`, so it passes the credential test. */
  lemma Md5NotBlank(t: UserTokenService.FreshToken)
    ensures !PhpStrings.IsBlankOrZero(t)
  {
    assert UserTokenService.IsLowerHexDigit(t[0]) && UserTokenService.IsLowerHexDigit(t[31]);
    PhpStrings.UnpaddedAccepted(t);
  }
}
