/** The user entity and the store operations the core consumes. The entity
    class and the repository class are not part of this model; their
    behaviour is rebuilt from what the repository tests observe: `setToken`
    writes token and expiry, `updateTokenValidTill` writes the expiry only,
    `resetToken` clears both. Each write either applies fully or, when the
    `fails` flag is set, changes nothing and reports a persistence error. */
module UserRepository {
  import opened Wrappers

  /** A user record. `token` and `tokenValidTill` are nullable; the expiry is
      a timestamp in seconds. The password is the stored hash, opaque here. */
  datatype User = User(
    email: string,
    password: string,
    token: Option<string>,
    tokenValidTill: Option<int>)

  /** The user table, in the order the store scans it. */
  type Store = seq<User>

  /** A managed entity: the position of its record in the store. */
  type Id = nat

  datatype StoreError = PersistenceError

  /** A `findOneBy` criterion. */
  datatype Criterion = ByEmail(email: string) | ByToken(token: string)

  predicate Matches(u: User, c: Criterion) {
    match c
    case ByEmail(e) => u.email == e
    case ByToken(t) => u.token == Some(t)
  }

  /** A user is either logged out (no token, no expiry) or holds both. */
  predicate SessionPaired(u: User) {
    u.token.Some? <==> u.tokenValidTill.Some?
  }

  /** No two users hold the same token. */
  predicate TokensDistinct(store: Store) {
    forall i, j :: 0 <= i < j < |store| && store[i].token.Some? ==> store[i].token != store[j].token
  }

  /** The store invariant: every session paired, every token held once. */
  predicate WellFormed(store: Store) {
    && (forall i :: 0 <= i < |store| ==> SessionPaired(store[i]))
    && TokensDistinct(store)
  }

  /** `after` differs from `before` at most in the session fields of user `id`. */
  predicate OnlySessionChanged(before: Store, after: Store, id: Id)
    requires id < |before|
  {
    && |after| == |before|
    && after[id].email == before[id].email
    && after[id].password == before[id].password
    && forall i :: 0 <= i < |before| && i != id ==> after[i] == before[i]
  }

  /** The first user at or after position `from` that meets the criterion. */
  function FindFrom(store: Store, c: Criterion, from: nat): (r: Option<Id>)
    requires from <= |store|
    ensures r.Some? ==> from <= r.value < |store| && Matches(store[r.value], c)
    ensures r.Some? ==> forall j :: from <= j < r.value ==> !Matches(store[j], c)
    ensures r.None? <==> forall j :: from <= j < |store| ==> !Matches(store[j], c)
    decreases |store| - from
  {
    if from == |store| then None
    else if Matches(store[from], c) then Some(from)
    else FindFrom(store, c, from + 1)
  }

  /** `findOneBy`: the first user meeting the criterion, or null. */
  function FindOneBy(store: Store, c: Criterion): (r: Option<Id>)
    ensures r.Some? ==> r.value < |store| && Matches(store[r.value], c)
    ensures r.Some? ==> forall j :: 0 <= j < r.value ==> !Matches(store[j], c)
    ensures r.None? <==> forall j :: 0 <= j < |store| ==> !Matches(store[j], c)
  {
    FindFrom(store, c, 0)
  }

  /** When no other user holds a token, looking it up finds its holder. */
  lemma FindUniqueHolder(store: Store, id: Id, t: string)
    requires id < |store| && store[id].token == Some(t)
    requires forall j :: 0 <= j < |store| && j != id ==> store[j].token != Some(t)
    ensures FindOneBy(store, ByToken(t)) == Some(id)
  {
  }

  /** `setToken($user, $token, $validTill)`. */
  function SetToken(store: Store, id: Id, token: string, validTill: int, fails: bool): (r: Result<Store, StoreError>)
    requires id < |store|
    ensures r.Failure? <==> fails
    ensures r.Success? ==> OnlySessionChanged(store, r.value, id)
    ensures r.Success? ==> r.value[id].token == Some(token) && r.value[id].tokenValidTill == Some(validTill)
  {
    if fails then Failure(PersistenceError)
    else Success(store[id := store[id].(token := Some(token), tokenValidTill := Some(validTill))])
  }

  /** `updateTokenValidTill($user, $validTill)`. */
  function UpdateTokenValidTill(store: Store, id: Id, validTill: int, fails: bool): (r: Result<Store, StoreError>)
    requires id < |store|
    ensures r.Failure? <==> fails
    ensures r.Success? ==> OnlySessionChanged(store, r.value, id)
    ensures r.Success? ==> r.value[id].token == store[id].token && r.value[id].tokenValidTill == Some(validTill)
  {
    if fails then Failure(PersistenceError)
    else Success(store[id := store[id].(tokenValidTill := Some(validTill))])
  }

  /** `resetToken($user)`: logs the user out. */
  function ResetToken(store: Store, id: Id, fails: bool): (r: Result<Store, StoreError>)
    requires id < |store|
    ensures r.Failure? <==> fails
    ensures r.Success? ==> OnlySessionChanged(store, r.value, id)
    ensures r.Success? ==> r.value[id].token.None? && r.value[id].tokenValidTill.None?
  {
    if fails then Failure(PersistenceError)
    else Success(store[id := store[id].(token := None, tokenValidTill := None)])
  }

  /** Writing a token no other user holds keeps the store well formed. */
  lemma SetTokenPreservesWellFormed(store: Store, id: Id, token: string, validTill: int)
    requires id < |store| && WellFormed(store)
    requires forall j :: 0 <= j < |store| && j != id ==> store[j].token != Some(token)
    ensures SetToken(store, id, token, validTill, false).Success?
    ensures WellFormed(SetToken(store, id, token, validTill, false).value)
  {
    var s' := SetToken(store, id, token, validTill, false).value;
    forall i, j | 0 <= i < j < |s'| && s'[i].token.Some?
      ensures s'[i].token != s'[j].token
    {
      if i != id && j != id {
        assert s'[i] == store[i] && s'[j] == store[j];
      }
    }
  }

  /** Logging a user out keeps the store well formed. */
  lemma ResetTokenPreservesWellFormed(store: Store, id: Id)
    requires id < |store| && WellFormed(store)
    ensures WellFormed(ResetToken(store, id, false).value)
  {
    var s' := ResetToken(store, id, false).value;
    forall i, j | 0 <= i < j < |s'| && s'[i].token.Some?
      ensures s'[i].token != s'[j].token
    {
      assert i != id;
      if j != id {
        assert s'[i] == store[i] && s'[j] == store[j];
      }
    }
  }

  /** Moving the expiry of a user who holds a token keeps the store well formed. */
  lemma UpdateTokenValidTillPreservesWellFormed(store: Store, id: Id, validTill: int)
    requires id < |store| && WellFormed(store) && store[id].token.Some?
    ensures WellFormed(UpdateTokenValidTill(store, id, validTill, false).value)
  {
    var s' := UpdateTokenValidTill(store, id, validTill, false).value;
    forall i, j | 0 <= i < j < |s'| && s'[i].token.Some?
      ensures s'[i].token != s'[j].token
    {
      assert s'[i].token == store[i].token && s'[j].token == store[j].token;
    }
  }

  /** Moving the expiry of a logged-out user leaves it with an expiry but no
      token: `updateTokenValidTill` alone does not keep sessions paired. */
  lemma UpdateTokenValidTillCanUnpair(store: Store, id: Id, validTill: int)
    requires id < |store| && store[id].token.None?
    ensures !SessionPaired(UpdateTokenValidTill(store, id, validTill, false).value[id])
  {
  }

  /** After a logout, the old token finds nobody when tokens were held once. */
  lemma ResetTokenForgetsToken(store: Store, id: Id, t: string)
    requires id < |store| && TokensDistinct(store) && store[id].token == Some(t)
    ensures FindOneBy(ResetToken(store, id, false).value, ByToken(t)).None?
  {
    var s' := ResetToken(store, id, false).value;
    forall j | 0 <= j < |s'|
      ensures !Matches(s'[j], ByToken(t))
    {
      if j < id {
        assert store[j].token != store[id].token;
      } else if j > id {
        assert store[id].token != store[j].token;
      }
    }
  }
}
