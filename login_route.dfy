/** POST /api/auth/login: find a user by username and password and answer
    with that user minus the password. */
module LoginRoute {

  import opened Types
  import opened Http
  import opened Seqs
  import opened Store
  import UsersRoute

  /** The parsed request body; an absent field is None. */
  datatype Credentials = Credentials(username: Option<string>, password: Option<string>)

  /** The store's reading of `where: { username, password }`: a filter whose
      value is undefined is dropped, so an absent field matches every user. */
  predicate StoreFilterMatches(u: User, c: Credentials) {
    (c.username.None? || u.username == c.username.value) &&
    (c.password.None? || u.password == c.password.value)
  }

  function StoreFilter(c: Credentials): User -> bool {
    (u: User) => StoreFilterMatches(u, c)
  }

  /** The handler as written: the first user the filter lets through, 401 when
      there is none. */
  function LoginAsWritten(users: seq<User>, c: Credentials): (r: Response<PublicUser>)
    ensures r.Err? <==> forall i :: 0 <= i < |users| ==> !StoreFilterMatches(users[i], c)
    ensures r.Err? ==> r.status == UNAUTHORIZED && r.error == "Invalid credentials"
    ensures r.Ok? ==>
      exists i ::
        0 <= i < |users| && StoreFilterMatches(users[i], c) &&
        (forall j :: 0 <= j < i ==> !StoreFilterMatches(users[j], c)) && r.body == WithoutPassword(users[i])
  {
    match FindFirst(users, StoreFilter(c))
    case None => Err(UNAUTHORIZED, "Invalid credentials")
    case Some(i) => Ok(WithoutPassword(users[i]))
  }

  /** A body with neither field logs in as the first stored user. */
  lemma EmptyBodyLogsInAsFirstUser(users: seq<User>)
    requires users != []
    ensures LoginAsWritten(users, Credentials(None, None)) == Ok(WithoutPassword(users[0]))
  {
    assert StoreFilter(Credentials(None, None))(users[0]);
  }

  /** Both fields given and both equal to the user's. */
  predicate Matches(u: User, c: Credentials) {
    c.username.Some? && c.password.Some? &&
    u.username == c.username.value && u.password == c.password.value
  }

  function Matching(c: Credentials): User -> bool {
    (u: User) => Matches(u, c)
  }

  /** The intended handler: a user is found only by both credentials. */
  function Login(users: seq<User>, c: Credentials): (r: Response<PublicUser>)
    ensures r.Err? ==> r.status == UNAUTHORIZED && r.error == "Invalid credentials"
    ensures r.Ok? ==> exists i :: 0 <= i < |users| && Matches(users[i], c) &&
                                  r.body == WithoutPassword(users[i])
    ensures r.Err? <==> forall i :: 0 <= i < |users| ==> !Matches(users[i], c)
  {
    match FindFirst(users, Matching(c))
    case None => Err(UNAUTHORIZED, "Invalid credentials")
    case Some(i) =>
      assert Matching(c)(users[i]);
      Ok(WithoutPassword(users[i]))
  }

  /** With both fields present the two readings agree. */
  lemma LoginAgreesWhenBothGiven(users: seq<User>, c: Credentials)
    requires c.username.Some? && c.password.Some?
    ensures Login(users, c) == LoginAsWritten(users, c)
  {
    FindFirstAgree(users, StoreFilter(c), Matching(c));
  }

  /** Under unique usernames, a successful login answers with exactly the
      entry the user listing shows for the user with that username. */
  lemma LoginAnswersTheListedUser(users: seq<User>, c: Credentials, i: nat)
    requires UniqueBy(users, UsernameKey)
    requires i < |users| && Matches(users[i], c)
    ensures Login(users, c) == Ok(UsersRoute.List(users)[i])
  {
    var found := FindFirst(users, Matching(c));
    assert Matching(c)(users[i]);
    assert Matching(c)(users[found.value]);
    assert users[found.value].username == users[i].username;
  }
}
