# Bearer-token session lifecycle of a Symfony REST API skeleton

This project models, in Dafny, the session logic of a small Symfony REST API:
email/password login that issues an opaque bearer token, and token
authentication on every other route, with "sliding" expiry (each accepted
request moves the expiry to one hour past now).

The model is a deterministic state machine over an in-memory user store:

- `DateTimeService`: the clock. `now` is an integer number of seconds, passed in.
  `IsPast` is the strict comparison `timestamp < now`.
- `UserRepository`: the `User` record (email, password hash, nullable token,
  nullable expiry), the store as a sequence of users, `findOneBy`, and the three
  writes `setToken`, `updateTokenValidTill` and `resetToken`. Every write takes a
  `fails` flag. A failing write reports a persistence error and changes nothing.
- `UserTokenService`: `update` stores a fresh token with expiry now + window.
  `prolong` moves only the expiry. The window defaults to one hour.
- `UserProvider`: lookup by email and by token, `refreshUser`, `supportsClass`.
- `TokenAuthenticator` and `LoginAuthenticator`: each callback of the two guard
  authenticators, as a total function that returns a `Result` instead of throwing.
- `Guard`: assumed glue. It composes the callbacks in the order the framework's
  guard layer calls them, so that whole requests can be stated and proved
  (login success and failure, token acceptance and expiry, sliding expiry,
  non-fatal prolongation, the store invariant).
- `PhpStrings`: PHP's `trim()` and string truthiness, which decide the
  `!trim($credentials)` test of the token authenticator.
- `UserFixture`: the two fixture users, and end-to-end scenarios over them.

The store invariant `WellFormed` says two things. Every user either has both a
token and an expiry or has neither. No token is held by two users. Login keeps
the invariant when the fresh token is new to the store. Every token request,
through any provider, and every logout keep it.

The message for an unknown or blank token follows the source:
`"Wrong credentials"`, with a lower-case "c"
(src/Security/TokenAuthenticator.php:107). The token authenticator's test
expects `"Wrong Credentials"` (tests/Functional/Security/TokenAuthenticatorTest.php:142),
which is the login authenticator's spelling. The two spellings differ.

## Model

| member | source | states |
|---|---|---|
| `DateTimeService.Now` | src/Service/DateTimeService.php:37-48 | `now()` always yields a timestamp: the primary reading when the date object was built, the `time()` fallback otherwise; it never fails (it stands alone: the other operations take its instant as their `now` parameter) |
| `DateTimeService.HourIsSixtyMinutes` | src/Service/DateTimeService.php:16-17 | a minute is 60 seconds and an hour is 60 minutes, 3600 seconds |
| `DateTimeService.IsPastIsStrict` | src/Service/DateTimeService.php:63-66 | the comparison is strict: a timestamp equal to now is not past, one second earlier is |
| `DateTimeService.HourAheadAndBehind` | tests/Unit/Service/DateTimeServiceTest.php:37-44 | an hour ahead of now is not past, an hour behind it is |
| `DateTimeService.IsPastMonotone` | src/Service/DateTimeService.php:65 | every timestamp no later than a past one is past too |
| `DateTimeService.IsPastStaysPast` | src/Service/DateTimeService.php:65 | a past timestamp stays past as the clock advances |
| `DateTimeService.WindowAheadNotPast` | src/Service/DateTimeService.php:65 | now plus a non-negative window is not past at that instant |
| `PhpStrings.LeadingRunEnd` | src/Security/TokenAuthenticator.php:103 | the scan from the left stops at the first character that is not a trim character: everything it passed is one, and the character it stops at (if any) is not |
| `PhpStrings.TrailingRunStart` | src/Security/TokenAuthenticator.php:103 | the scan from the right, bounded below, stops just after the last character that is not a trim character: everything it passed is one, and the character before the stop (if above the bound) is not |
| `PhpStrings.TrimLeft` | src/Security/TokenAuthenticator.php:103 | the result is a suffix of the input; every dropped character is a trim character, and the result does not start with one |
| `PhpStrings.TrimRight` | src/Security/TokenAuthenticator.php:103 | the result is a prefix of the input; every dropped character is a trim character, and the result does not end with one |
| `PhpStrings.Trim` | src/Security/TokenAuthenticator.php:103 | `trim()` returns the factor of the input left after removing its leading and trailing trim characters and nothing else: everything outside the factor is a trim character, the factor neither starts nor ends with one, and it is empty exactly when the whole input is trim characters |
| `PhpStrings.TrimIsBothSides` | src/Security/TokenAuthenticator.php:103 | `trim()` gives the same string as `ltrim()` followed by `rtrim()` |
| `PhpStrings.BlankOrZeroCharacterised` | src/Security/TokenAuthenticator.php:103 | for every input, `!trim($s)` holds exactly when the string is all trim characters, or a single `'0'` with only trim characters around it |
| `PhpStrings.TrimIdempotent` | src/Security/TokenAuthenticator.php:103 | trimming twice gives the same as trimming once |
| `PhpStrings.TrimKeepsUnpadded` | src/Security/TokenAuthenticator.php:103 | a string without leading or trailing trim characters is unchanged by `trim()` |
| `PhpStrings.UnpaddedAccepted` | src/Security/TokenAuthenticator.php:103 | an unpadded string other than `"0"` passes the `!trim(...)` test |
| `PhpStrings.EmptyAndZeroRejected` | src/Security/TokenAuthenticator.php:103 | `""` and `"0"` are rejected by `!trim(...)` |
| `PhpStrings.PaddedZeroRejected` | src/Security/TokenAuthenticator.php:103 | a `"0"` padded with blanks is rejected too, because the test is made after trimming |
| `UserRepository.FindFrom` | src/Security/UserProvider.php:45-50 | the first position at or after a start that meets a criterion, or none exactly when no later user meets it |
| `UserRepository.FindOneBy` | src/Security/UserProvider.php:33-38 | `findOneBy` returns the first user meeting the criterion, and null exactly when no user meets it |
| `UserRepository.FindUniqueHolder` | src/Security/UserProvider.php:45-50 | when a token is held by one user only, lookup by that token finds that user |
| `UserRepository.SetToken` | tests/Functional/Repository/UserRepositoryTest.php:47-59 | `setToken` writes both token and expiry of that user; email, password and all other users are unchanged; it fails exactly when the store write fails |
| `UserRepository.UpdateTokenValidTill` | tests/Functional/Repository/UserRepositoryTest.php:61-73 | `updateTokenValidTill` writes the expiry only and keeps the token and all other users; it fails exactly when the write fails |
| `UserRepository.ResetToken` | tests/Functional/Repository/UserRepositoryTest.php:75-90 | `resetToken` sets both token and expiry to null and changes nothing else |
| `UserRepository.SetTokenPreservesWellFormed` | tests/Functional/Repository/UserRepositoryTest.php:47-59 | writing a token that no other user holds keeps every session paired and every token unique |
| `UserRepository.ResetTokenPreservesWellFormed` | tests/Functional/Repository/UserRepositoryTest.php:75-90 | logging out keeps the store invariant |
| `UserRepository.UpdateTokenValidTillPreservesWellFormed` | tests/Functional/Repository/UserRepositoryTest.php:61-73 | moving the expiry of a user who holds a token keeps the store invariant |
| `UserRepository.UpdateTokenValidTillCanUnpair` | tests/Functional/Repository/UserRepositoryTest.php:61-73 | on a logged-out user, moving the expiry alone leaves an expiry without a token |
| `UserRepository.ResetTokenForgetsToken` | tests/Functional/Repository/UserRepositoryTest.php:75-90 | after logout, lookup by the old token finds nobody, given tokens are unique |
| `UserTokenService.Update` | src/Service/UserTokenService.php:42-49 | `update` stores the fresh token and expiry now + window for that user only; it fails exactly when the write fails |
| `UserTokenService.Prolong` | src/Service/UserTokenService.php:58-64 | `prolong` sets expiry now + window and leaves the token, email, password and other users unchanged |
| `UserTokenService.DefaultWindowIsOneHour` | src/Service/UserTokenService.php:42-58 | both operations default to a 3600-second window |
| `UserTokenService.UpdateReplacesToken` | tests/Functional/Service/UserTokenServiceTest.php:45-58 | given a fresh token other than the current one, the token after `update` differs from before and is non-empty |
| `UserTokenService.WrittenExpiryNotPast` | src/Service/UserTokenService.php:42-64 | an expiry written with a non-negative window is not past at the instant of writing |
| `UserTokenService.FailedWriteReportsPersistenceError` | src/Service/UserTokenService.php:42-64 | a failing store write surfaces as a persistence error from both operations |
| `UserTokenService.UpdatePreservesWellFormed` | src/Service/UserTokenService.php:42-49 | issuing a token nobody else holds keeps the store invariant |
| `UserTokenService.ProlongPreservesWellFormed` | src/Service/UserTokenService.php:58-64 | prolonging a token holder's session keeps the store invariant |
| `UserProvider.LoadUserByUsername` | src/Security/UserProvider.php:33-38 | returns a user with that email, and null exactly when no user has it |
| `UserProvider.LoadUserByToken` | src/Security/UserProvider.php:45-50 | returns a user holding that token, and null exactly when no user holds it |
| `UserProvider.RefreshUser` | src/Security/UserProvider.php:57-60 | returns its argument unchanged |
| `UserProvider.SupportsOnlyUserClass` | src/Security/UserProvider.php:67-70 | only the user entity class name is supported; the security user interface is not |
| `TokenAuthenticator.Start` | src/Security/TokenAuthenticator.php:66-72 | 401 with message "Authentication token required" |
| `TokenAuthenticator.GetCredentials` | src/Security/TokenAuthenticator.php:89-92 | the `X-AUTH-TOKEN` header value, or `""` when the header is absent |
| `TokenAuthenticator.GetUser` | src/Security/TokenAuthenticator.php:100-111 | succeeds exactly when the trimmed credential is truthy, the provider is this application's, and some user holds the credential; the user returned holds it; every failure is "Wrong credentials" |
| `TokenAuthenticator.CheckCredentials` | src/Security/TokenAuthenticator.php:119-127 | accepts, answering true, exactly when the expiry is set and not before now; otherwise fails with "Token was expired. Try to login again" |
| `TokenAuthenticator.OnAuthenticationFailure` | src/Security/TokenAuthenticator.php:135-144 | 401 with the exception's message key |
| `TokenAuthenticator.OnAuthenticationSuccess` | src/Security/TokenAuthenticator.php:153-165 | always answers null; on a successful prolong the expiry becomes now + 3600 with the token and everything else kept, and on a failing prolong the store is as before |
| `TokenAuthenticator.SupportsRememberMe` | src/Security/TokenAuthenticator.php:170-173 | remember-me is unsupported |
| `TokenAuthenticator.ZeroTokenRefused` | src/Security/TokenAuthenticator.php:102-107 | the credentials `"0"` and `""` are refused whatever the store holds |
| `TokenAuthenticator.ExpiryBoundary` | src/Security/TokenAuthenticator.php:122 | an expiry equal to now is accepted; one second later it is expired |
| `LoginAuthenticator.Start` | src/Security/LoginAuthenticator.php:64-67 | 401 with message "Wrong Credentials" |
| `LoginAuthenticator.GetCredentials` | src/Security/LoginAuthenticator.php:84-90 | `email` and `password` from the form body, each `""` when absent |
| `LoginAuthenticator.GetUser` | src/Security/LoginAuthenticator.php:98-105 | null for a foreign provider; otherwise a user with that email, null exactly when none has it |
| `LoginAuthenticator.CheckCredentials` | src/Security/LoginAuthenticator.php:113-125 | a wrong password fails with "Wrong Credentials"; a failed issuance fails with "Something went wrong. Try again later"; otherwise the user holds the fresh token with expiry now + 3600 and nothing else changed |
| `LoginAuthenticator.OnAuthenticationFailure` | src/Security/LoginAuthenticator.php:133-142 | 401 with the exception's message key |
| `LoginAuthenticator.OnAuthenticationSuccess` | src/Security/LoginAuthenticator.php:151-159 | 200 with the authenticated user's token |
| `LoginAuthenticator.SupportsRememberMe` | src/Security/LoginAuthenticator.php:164-167 | remember-me is unsupported |
| `Guard.SupportsAreComplementary` | src/Security/TokenAuthenticator.php:79-82 | the token authenticator applies exactly to the requests the login authenticator does not |
| `Guard.LoginSucceeds` | src/Security/LoginAuthenticator.php:113-159 | a correct password answers 200 with the fresh token; that token is stored with expiry now + 3600 and is not past; only that user's session changed; lookup by the token finds the user |
| `Guard.LoginWrongPassword` | tests/Functional/Security/LoginAuthenticatorTest.php:60-73 | a wrong password answers 401 "Wrong Credentials" and the store is unchanged |
| `Guard.LoginIssuanceFails` | src/Security/LoginAuthenticator.php:118-122 | a failed issuance answers 401 with the generic message and the store is unchanged |
| `Guard.LoginAnswers` | src/Security/LoginAuthenticator.php:133-159 | every login answer is 200 with a token or 401 with a message, and a 401 leaves the store unchanged |
| `Guard.TokenAccepted` | src/Security/TokenAuthenticator.php:153-165 | given tokens are unique and the token is not blank or `"0"`, an unexpired token lets the request through with the expiry slid to now + 3600 and the token kept; with a failing prolong the request still goes through and the store is unchanged |
| `Guard.TokenExpired` | src/Security/TokenAuthenticator.php:119-127 | an expired or expiry-less holder is answered 401 "Token was expired. Try to login again" with the store unchanged |
| `Guard.TokenRequestVerdict` | src/Security/TokenAuthenticator.php:100-127 | a token request goes through only if someone holds the token with an expiry not before now; otherwise it is answered 401 with the store unchanged |
| `Guard.TokenProceedsExactly` | src/Security/TokenAuthenticator.php:100-127 | given tokens are unique and the token is not blank or `"0"`, a token request goes through if and only if someone holds the token with an expiry not before now |
| `Guard.ProlongFailureIsNonFatal` | src/Security/TokenAuthenticator.php:155-159 | whether the prolong fails never changes the outcome of a token request |
| `Guard.SlidingExpiry` | src/Security/TokenAuthenticator.php:153-165 | after an accepted request, the same token is accepted again at any instant up to an hour later |
| `Guard.ProlongPreservesDistinct` | src/Service/UserTokenService.php:58-64 | prolonging never makes two users share a token |
| `Guard.LoginRequestPreservesWellFormed` | src/Security/LoginAuthenticator.php:113-125 | a login through any provider keeps the store invariant when the fresh token is held by nobody yet |
| `Guard.TokenRequestPreservesWellFormed` | src/Security/TokenAuthenticator.php:100-165 | every token request, through any provider, at any instant, with or without a prolong failure, keeps the store invariant |
| `UserFixture.Fixture` | src/DataFixtures/UserFixture.php:33-54 | the fixture store satisfies the store invariant |
| `UserFixture.FixtureTokens` | tests/Functional/Security/TokenAuthenticatorTest.php:40-73 | the valid fixture token goes through; the expired one is answered 401 with the expiry message |
| `UserFixture.FixtureInvalidLogin` | tests/Functional/Security/LoginAuthenticatorTest.php:60-73 | logging in with the wrong password "1234564" is answered 401 "Wrong Credentials" with the store unchanged |
| `UserFixture.LoginUseExpireScenario` | src/Security/LoginAuthenticator.php:113-159 | log in and receive the fresh token; it goes through half an hour later; once its expiry is forced an hour into the past it is answered 401 as expired |
| `UserFixture.Md5NotBlank` | src/Service/UserTokenService.php:72 | an md5 digest always passes the blank-or-zero credential test |

## Left out

- Token generation (`md5` of the time, `random_bytes` and `random_int`): randomness and hashing are not modelled. The fresh token is a parameter shaped like an md5 digest. That it differs from every stored token is a hypothesis of the lemmas that need it, because distinctness is only probabilistic.
- The real clock and date objects (`DateTime`, `DateTimeImmutable`, `modify('+ N seconds')`, `nowDateTime()`): time is integer seconds supplied by the caller. One instant serves a whole request, although the source reads the clock separately for the expiry check and for the prolongation.
- UserTokenService.Update: the window is an integer added to now. The source formats it into the string `'+ N seconds'` for `modify`, so a negative window gives `'+ -5 seconds'`, which is not modelled. Every caller passes a non-negative window.
- UserTokenService.Prolong: the same gap as `Update`: a negative window formatted into `modify` is not modelled, and the window is added to now as an integer.
- 64-bit integer range: `now + window` uses unbounded integers, so overflow of PHP's `int` for huge windows is not modelled.
- The repository and entity classes: they are not part of this model. The store is a sequence of records. `findOneBy` returns the first match, because the database does not promise an order. The unique index on email is not modelled.
- Store failure: a `fails` flag. A write either applies fully or changes nothing. Any exception from `update` counts as a failure, including a failing `random_bytes`.
- Password hashing: the encoder is a function parameter `(User, string) -> bool`.
- HTTP objects: header names are matched exactly. Symfony's case-insensitive normalisation of header names is not modelled. JSON encoding is reduced to the `Body` datatype.
- `strtr` with non-empty message data: every exception these authenticators raise has empty data, so the message is the key itself.
- Logging (`logger->info` and `logger->warning`): side effects only, with no effect on results.
- Framework orchestration: the `Guard` module is assumed glue. It does not model the user checker, the token storage or the session. It assumes the framework's "Username could not be found." message when the login `getUser` returns null.
- The 405 for GET on `/api/login`: it comes from routing configuration, not from this code.
- The to-do controller: every action is an unimplemented stub.
- Concurrency: requests are processed one at a time. Last-write-wins between concurrent requests is not modelled.
