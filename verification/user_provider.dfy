/** The user provider of src/Security/UserProvider.php: read-only lookups over
    the store. The lookups return a user's position rather than a copy of the
    record and take the store as an argument without returning one, so they
    cannot change it. */
module UserProvider {
  import opened Wrappers
  import opened UserRepository

  /** The provider an authenticator is handed: this application's provider,
      or some other implementation of the framework's provider interface
      (the `instanceof UserProvider` test). */
  datatype ProviderKind = AppUserProvider | ForeignProvider

  /** The fully qualified class names the provider is asked about. */
  const USER_CLASS: string := "App\\Entity\\User"
  const USER_INTERFACE_CLASS: string := "Symfony\\Component\\Security\\Core\\User\\UserInterface"

  /** `loadUserByUsername($email)`: a user with that email, or null when none has it. */
  function LoadUserByUsername(store: Store, email: string): (r: Option<Id>)
    ensures r.Some? ==> r.value < |store| && store[r.value].email == email
    ensures r.None? <==> forall i :: 0 <= i < |store| ==> store[i].email != email
  {
    FindOneBy(store, ByEmail(email))
  }

  /** `loadUserByToken($token)`: a user holding that token, or null when none does. */
  function LoadUserByToken(store: Store, token: string): (r: Option<Id>)
    ensures r.Some? ==> r.value < |store| && store[r.value].token == Some(token)
    ensures r.None? <==> forall i :: 0 <= i < |store| ==> store[i].token != Some(token)
  {
    FindOneBy(store, ByToken(token))
  }

  /** `refreshUser($user)`: the very same user, not reloaded. */
  function RefreshUser(user: User): (r: User)
    ensures r == user
  {
    user
  }

  /** `supportsClass($class)`. */
  predicate SupportsClass(className: string) {
    className == USER_CLASS
  }

  /** Only the user entity class is supported; the security interface is not. */
  lemma SupportsOnlyUserClass(className: string)
    ensures SupportsClass(className) <==> className == USER_CLASS
    ensures SupportsClass(USER_CLASS) && !SupportsClass(USER_INTERFACE_CLASS)
  {
  }
}
