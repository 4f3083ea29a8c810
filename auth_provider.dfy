/** The session store: who is signed in, whether a sign-in is in progress,
    the browser storage entry that keeps the identity across reloads, and
    the navigations the store asks the router for. The credentials are not
    checked against anything; a login only needs both fields filled in. */
module AuthProvider {
  import opened Strings

  datatype User = User(id: string, email: string, name: string)

  /** What an awaited login or registration comes to. */
  datatype Outcome = SignedIn(user: User) | Rejected(message: string)

  /** What an awaited call was rejected with: an `Error` object carrying a
      message, or any other thrown value. */
  datatype Rejection = ErrorObject(message: string) | OtherValue

  const StorageKey := "user"
  const FixedId := "1"
  const InvalidCredentials := "Invalid credentials"
  const AfterSignIn := "/dashboard"
  const AfterSignOut := "/"

  /** The outcome of `login(email, password)` once its delay has elapsed:
      both strings non-empty (JavaScript truthiness) gives an identity named
      after the part of the address before the first "@". */
  function LoginOutcome(email: string, password: string): (r: Outcome)
    ensures r.Rejected? <==> email == "" || password == ""
    ensures r.Rejected? ==> r.message == InvalidCredentials
    ensures r.SignedIn? ==> r.user.id == FixedId && r.user.email == email
    ensures r.SignedIn? ==> r.user.name <= email && '@' !in r.user.name
    ensures r.SignedIn? && |r.user.name| < |email| ==> email[|r.user.name|] == '@'
  {
    if email != "" && password != "" then SignedIn(User(FixedId, email, BeforeFirst(email, '@')))
    else Rejected(InvalidCredentials)
  }

  /** An address without "@" becomes the name as a whole, and the name of
      "jane@example.com" is "jane". */
  lemma LoginNameExamples()
    ensures LoginOutcome("jane", "pw") == SignedIn(User("1", "jane", "jane"))
    ensures LoginOutcome("jane@example.com", "pw") == SignedIn(User("1", "jane@example.com", "jane"))
    ensures LoginOutcome("jane@example.com", "") == Rejected(InvalidCredentials)
  {
    JaneName();
  }

  /** The part of "jane@example.com" before its '@'. */
  lemma JaneName()
    ensures BeforeFirst("jane@example.com", '@') == "jane"
  {
    var s := "jane@example.com";
    BeforeFirstIsPrefix(s, '@', 4);
    assert s[..4] == "jane";
  }

  /** `useAuth()`: the provider's context, or the error thrown outside a
      provider. */
  datatype ContextLookup<T> = Provided(context: T) | Thrown(message: string)

  const OutsideProvider := "useAuth must be used within an AuthProvider"

  function UseAuth<T>(context: Option<T>): (r: ContextLookup<T>)
  {
    if context.None? then Thrown(OutsideProvider) else Provided(context.value)
  }

  /** The value a provider hands its consumers. */
  datatype AuthContext = AuthContext(user: Option<User>, isLoading: bool)

  /** One mounted `AuthProvider`. Browser storage is a map from key to the
      stored identity; the router is the list of requested paths. */
  class Session {
    var user: Option<User>
    var isLoading: bool
    var storage: map<string, User>
    var navigations: seq<string>

    /** Whenever someone is signed in, the stored entry is that identity. */
    ghost predicate Valid()
      reads this
    {
      user.Some? ==> StorageKey in storage && storage[StorageKey] == user.value
    }

    /** The context value the provider renders with. */
    function Context(): (r: AuthContext)
      reads this
    {
      AuthContext(user, isLoading)
    }

    /** Mounting: nobody signed in, loading until the stored entry is read. */
    constructor (storage: map<string, User>)
      ensures Valid()
      ensures user == None && isLoading && this.storage == storage && navigations == []
    {
      user := None;
      isLoading := true;
      this.storage := storage;
      navigations := [];
    }

    /** The mount effect: adopt the stored identity if there is one, and stop
        loading either way. */
    method Restore()
      requires Valid()
      modifies this
      ensures Valid() && !isLoading
      ensures user == if StorageKey in storage then Some(storage[StorageKey]) else old(user)
      ensures storage == old(storage) && navigations == old(navigations)
    {
      if StorageKey in storage {
        user := Some(storage[StorageKey]);
      }
      isLoading := false;
    }

    /** Entry to `login` or `register`: loading from here until it settles. */
    method BeginCall()
      requires Valid()
      modifies this`isLoading
      ensures Valid() && isLoading
    {
      isLoading := true;
    }

    /** Records the signed-in identity, stores it and heads for the
        dashboard. */
    method SignIn(u: User)
      modifies this`user, this`storage, this`navigations
      ensures Valid()
      ensures user == Some(u) && storage == old(storage)[StorageKey := u]
      ensures navigations == old(navigations) + [AfterSignIn]
    {
      storage := storage[StorageKey := u];
      user := Some(u);
      navigations := navigations + [AfterSignIn];
    }

    /** `login` settles: on success the identity is signed in, stored and the
        dashboard requested; otherwise "Invalid credentials" is rethrown and
        nothing but the loading flag changes. */
    method FinishLogin(email: string, password: string) returns (error: Option<string>)
      requires Valid()
      modifies this
      ensures Valid() && !isLoading
      ensures error.Some? <==> email == "" || password == ""
      ensures error.Some? ==> error.value == InvalidCredentials
      ensures error.Some? ==> user == old(user) && storage == old(storage) && navigations == old(navigations)
      ensures error.None? ==>
        && user == Some(LoginOutcome(email, password).user)
        && storage == old(storage)[StorageKey := LoginOutcome(email, password).user]
        && navigations == old(navigations) + [AfterSignIn]
    {
      var outcome := LoginOutcome(email, password);
      if outcome.SignedIn? {
        SignIn(outcome.user);
        error := None;
      } else {
        error := Some(outcome.message);
      }
      isLoading := false;
    }

    /** `register` settles: no input is checked and the password is never
        passed on, so it always signs in with the given name and address. */
    method FinishRegister(name: string, email: string)
      requires Valid()
      modifies this
      ensures Valid() && !isLoading
      ensures user == Some(User(FixedId, email, name))
      ensures storage == old(storage)[StorageKey := User(FixedId, email, name)]
      ensures navigations == old(navigations) + [AfterSignIn]
    {
      SignIn(User(FixedId, email, name));
      isLoading := false;
    }

    /** `logout`: the stored entry and the identity go, and the home page is
        requested. */
    method Logout()
      requires Valid()
      modifies this
      ensures Valid()
      ensures user == None && storage == old(storage) - {StorageKey}
      ensures navigations == old(navigations) + [AfterSignOut]
      ensures isLoading == old(isLoading)
    {
      storage := storage - {StorageKey};
      user := None;
      navigations := navigations + [AfterSignOut];
    }
  }

  /** A component under a mounted provider gets that provider's current user
      and loading flag and never the error, and the user it sees is the one
      kept in storage; outside any provider the hook throws its fixed
      message. */
  lemma UseAuthSeesSession(s: Session)
    requires s.Valid()
    ensures UseAuth(Some(s.Context())).Provided?
    ensures UseAuth(Some(s.Context())).context.user == s.user
    ensures UseAuth(Some(s.Context())).context.isLoading == s.isLoading
    ensures s.user.Some? ==> StorageKey in s.storage && s.storage[StorageKey] == UseAuth(Some(s.Context())).context.user.value
    ensures UseAuth<AuthContext>(None) == Thrown(OutsideProvider)
  {
  }

  /** A reload after a login restores the same identity; after a logout it
      restores nobody. */
  method ReloadScenario(email: string, password: string)
    requires email != "" && password != ""
  {
    var first := new Session(map[]);
    first.Restore();
    assert first.user == None;
    var error := first.FinishLogin(email, password);
    assert error == None;
    var reloaded := new Session(first.storage);
    reloaded.Restore();
    assert reloaded.user == first.user == Some(User(FixedId, email, BeforeFirst(email, '@')));
    first.Logout();
    var again := new Session(first.storage);
    again.Restore();
    assert again.user == None && first.navigations == [AfterSignIn, AfterSignOut];
  }
}
