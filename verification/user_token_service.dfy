/** The token issuer of src/Service/UserTokenService.php. Token generation
    (an md5 digest of the time and random data) is not computed: the freshly
    generated token is a parameter of `Update`, constrained only to the shape
    of an md5 digest. Store failures, and any other exception raised while
    issuing, are the `fails` flag. */
module UserTokenService {
  import opened Wrappers
  import opened UserRepository
  import DateTimeService

  /** The default validity window of both operations: one hour. */
  const DEFAULT_VALID_TILL: int := DateTimeService.SECONDS_IN_HOUR

  predicate IsLowerHexDigit(c: char) {
    ('0' <= c <= '9') || ('a' <= c <= 'f')
  }

  /** What `md5()` returns: 32 lower-case hexadecimal digits. */
  predicate IsMd5Digest(s: string) {
    |s| == 32 && forall i :: 0 <= i < |s| ==> IsLowerHexDigit(s[i])
  }

  /** A freshly generated token. */
  type FreshToken = s: string | IsMd5Digest(s)
    witness "00000000000000000000000000000000"

  /** `update($user, $validTillInSeconds)`: stores a fresh token with expiry
      now plus the window. */
  function Update(store: Store, id: Id, newToken: FreshToken, now: int, fails: bool,
                  validTillInSeconds: int := DEFAULT_VALID_TILL): (r: Result<Store, StoreError>)
    requires id < |store|
    ensures r.Failure? <==> fails
    ensures r.Success? ==> OnlySessionChanged(store, r.value, id)
    ensures r.Success? ==> r.value[id].token == Some(newToken)
    ensures r.Success? ==> r.value[id].tokenValidTill == Some(now + validTillInSeconds)
  {
    SetToken(store, id, newToken, now + validTillInSeconds, fails)
  }

  /** `prolong($user, $validTillInSeconds)`: moves the expiry to now plus the
      window and keeps the token. */
  function Prolong(store: Store, id: Id, now: int, fails: bool,
                   validTillInSeconds: int := DEFAULT_VALID_TILL): (r: Result<Store, StoreError>)
    requires id < |store|
    ensures r.Failure? <==> fails
    ensures r.Success? ==> OnlySessionChanged(store, r.value, id)
    ensures r.Success? ==> r.value[id].token == store[id].token
    ensures r.Success? ==> r.value[id].tokenValidTill == Some(now + validTillInSeconds)
  {
    UpdateTokenValidTill(store, id, now + validTillInSeconds, fails)
  }

  /** Both operations default to a one-hour window. */
  lemma DefaultWindowIsOneHour(store: Store, id: Id, newToken: FreshToken, now: int)
    requires id < |store|
    ensures DEFAULT_VALID_TILL == 3600
    ensures Update(store, id, newToken, now, false).value[id].tokenValidTill == Some(now + 3600)
    ensures Prolong(store, id, now, false).value[id].tokenValidTill == Some(now + 3600)
  {
  }

  /** `update` replaces the token: given a fresh token other than the current
      one, the stored token changes and is not empty. */
  lemma UpdateReplacesToken(store: Store, id: Id, newToken: FreshToken, now: int, window: int)
    requires id < |store| && store[id].token != Some(newToken)
    ensures var after := Update(store, id, newToken, now, false, window).value;
      && after[id].token != store[id].token
      && after[id].token.Some? && |after[id].token.value| > 0
  {
  }

  /** The expiry written by `update` or `prolong` with a non-negative window is
      not past at the instant it was written. */
  lemma WrittenExpiryNotPast(store: Store, id: Id, newToken: FreshToken, now: int, window: int)
    requires id < |store| && window >= 0
    ensures !DateTimeService.IsPast(Update(store, id, newToken, now, false, window).value[id].tokenValidTill.value, now)
    ensures !DateTimeService.IsPast(Prolong(store, id, now, false, window).value[id].tokenValidTill.value, now)
  {
  }

  /** A failed write changes nothing: the caller keeps the store it had. */
  lemma FailedWriteReportsPersistenceError(store: Store, id: Id, newToken: FreshToken, now: int, window: int)
    requires id < |store|
    ensures Update(store, id, newToken, now, true, window) == Failure(PersistenceError)
    ensures Prolong(store, id, now, true, window) == Failure(PersistenceError)
  {
  }

  /** Issuing a token nobody else holds keeps the store well formed. */
  lemma UpdatePreservesWellFormed(store: Store, id: Id, newToken: FreshToken, now: int, window: int)
    requires id < |store| && WellFormed(store)
    requires forall j :: 0 <= j < |store| && j != id ==> store[j].token != Some(newToken)
    ensures WellFormed(Update(store, id, newToken, now, false, window).value)
  {
    SetTokenPreservesWellFormed(store, id, newToken, now + window);
  }

  /** Prolonging the session of a token holder keeps the store well formed. */
  lemma ProlongPreservesWellFormed(store: Store, id: Id, now: int, window: int)
    requires id < |store| && WellFormed(store) && store[id].token.Some?
    ensures WellFormed(Prolong(store, id, now, false, window).value)
  {
    UpdateTokenValidTillPreservesWellFormed(store, id, now + window);
  }
}
