/** POST /api/auth/register: insert a user under a username not yet taken. */
module RegisterRoute {

  import opened Types
  import opened Http
  import opened Seqs
  import opened Store

  /** The parsed request body. An absent field is None; an absent or empty
      role is None. */
  datatype RegisterBody = RegisterBody(
    username: Option<string>,
    password: Option<string>,
    name: Option<string>,
    role: Option<UserRole>,
    avatar: Option<string>)

  predicate HasUsername(users: seq<User>, name: string) {
    exists i :: 0 <= i < |users| && users[i].username == name
  }

  predicate HasUserId(users: seq<User>, id: string) {
    exists i :: 0 <= i < |users| && users[i].id == id
  }

  /** `userData.role || 'user'`. */
  function RoleOrDefault(role: Option<UserRole>): (r: UserRole)
    ensures role.None? ==> r == RegularUser
    ensures role.Some? ==> r == role.value
  {
    match role
    case None => RegularUser
    case Some(x) => x
  }

  /** The row the create writes for a body whose required fields are present. */
  function NewUser(body: RegisterBody, id: string): (u: User)
    requires body.username.Some? && body.password.Some? && body.name.Some?
    ensures u.id == id && u.username == body.username.value && u.password == body.password.value
    ensures u.name == body.name.value && u.avatar == body.avatar
    ensures u.role == RoleOrDefault(body.role)
  {
    User(id, body.username.value, body.password.value, body.name.value,
         RoleOrDefault(body.role), body.avatar)
  }

  lemma FindUsername(users: seq<User>, name: string)
    ensures FindFirst(users, UserNamed(name)).Some? <==> HasUsername(users, name)
  {
    if HasUsername(users, name) {
      var i :| 0 <= i < |users| && users[i].username == name;
      assert UserNamed(name)(users[i]);
    }
    var found := FindFirst(users, UserNamed(name));
    if found.Some? {
      assert UserNamed(name)(users[found.value]);
    }
  }

  /** Appending a user whose id and username are both unused keeps both unique. */
  lemma AppendFreshUser(users: seq<User>, u: User)
    requires UniqueBy(users, UserKey) && UniqueBy(users, UsernameKey)
    requires !HasUserId(users, u.id) && !HasUsername(users, u.username)
    ensures UniqueBy(users + [u], UserKey) && UniqueBy(users + [u], UsernameKey)
  {
    var r := users + [u];
    forall i, j | 0 <= i < j < |r|
      ensures UserKey(r[i]) != UserKey(r[j]) && UsernameKey(r[i]) != UsernameKey(r[j])
    {
      assert r[i] == users[i];
      if j < |users| {
        assert r[j] == users[j];
      }
    }
  }

  /** Registers a user. `newId` is the id the store generates. The username
      lookup needs a username, and the create needs a username, a password
      and a name; without them, or on an id clash, the store raises an error
      that is answered 500. */
  method Register(store: Store, body: RegisterBody, newId: string) returns (r: Response<PublicUser>)
    requires store.Valid()
    modifies store
    ensures store.Valid()
    ensures store.pockets == old(store.pockets) && store.transactions == old(store.transactions)
    ensures store.plans == old(store.plans)
    ensures body.username.None? ==> r == Err(INTERNAL_ERROR, "Internal server error")
    ensures body.username.Some? && HasUsername(old(store.users), body.username.value) ==>
      r == Err(BAD_REQUEST, "Username already exists")
    ensures r.Ok? <==>
      body.username.Some? && body.password.Some? && body.name.Some? &&
      !HasUsername(old(store.users), body.username.value) && !HasUserId(old(store.users), newId)
    ensures r.Ok? ==> store.users == old(store.users) + [NewUser(body, newId)]
    ensures r.Ok? ==> r.body == WithoutPassword(NewUser(body, newId))
    ensures r.Err? ==> store.users == old(store.users)
    ensures r.Err? && r.status == BAD_REQUEST ==>
      body.username.Some? && HasUsername(old(store.users), body.username.value)
    ensures r.Err? && r.status != BAD_REQUEST ==>
      r.status == INTERNAL_ERROR && r.error == "Internal server error"
  {
    if body.username.None? {
      return Err(INTERNAL_ERROR, "Internal server error");
    }
    var username := body.username.value;
    FindUsername(store.users, username);
    var existing := FindFirst(store.users, UserNamed(username));
    if existing.Some? {
      return Err(BAD_REQUEST, "Username already exists");
    }
    if body.password.None? || body.name.None? {
      return Err(INTERNAL_ERROR, "Internal server error");
    }
    var clash := exists i :: 0 <= i < |store.users| && store.users[i].id == newId;
    if clash {
      return Err(INTERNAL_ERROR, "Internal server error");
    }
    var created := NewUser(body, newId);
    AppendFreshUser(store.users, created);
    store.users := store.users + [created];
    r := Ok(WithoutPassword(created));
  }

  /** After a successful registration exactly one more user exists, every
      earlier user is unchanged and the new one holds the given fields. */
  lemma RegisterAddsOneUser(users: seq<User>, body: RegisterBody, newId: string)
    requires body.username.Some? && body.password.Some? && body.name.Some?
    requires UniqueBy(users, UserKey) && UniqueBy(users, UsernameKey)
    requires !HasUsername(users, body.username.value) && !HasUserId(users, newId)
    ensures var after := users + [NewUser(body, newId)];
      |after| == |users| + 1 &&
      (forall i :: 0 <= i < |users| ==> after[i] == users[i]) &&
      HasUsername(after, body.username.value) &&
      UniqueBy(after, UsernameKey) &&
      (forall i :: 0 <= i < |after| && after[i].username == body.username.value ==> i == |users|)
  {
    var after := users + [NewUser(body, newId)];
    AppendFreshUser(users, NewUser(body, newId));
    assert after[|users|].username == body.username.value;
  }
}
