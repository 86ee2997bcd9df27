/** GET /api/users: every stored user, without the password. */
module UsersRoute {

  import opened Types
  import opened Seqs
  import opened Store

  /** `users.map(({ password, ...user }) => user)`. */
  function List(users: seq<User>): (r: seq<PublicUser>)
    ensures |r| == |users|
    ensures forall i :: 0 <= i < |users| ==>
      r[i].id == users[i].id && r[i].username == users[i].username &&
      r[i].name == users[i].name && r[i].role == users[i].role && r[i].avatar == users[i].avatar
  {
    if users == [] then [] else [WithoutPassword(users[0])] + List(users[1..])
  }

  function PublicIdKey(p: PublicUser): string { p.id }
  function PublicUsernameKey(p: PublicUser): string { p.username }

  /** The listing keeps the table's unique ids and usernames. */
  lemma ListKeepsUniqueness(users: seq<User>)
    requires UniqueBy(users, UserKey) && UniqueBy(users, UsernameKey)
    ensures UniqueBy(List(users), PublicIdKey) && UniqueBy(List(users), PublicUsernameKey)
  {
    var r := List(users);
    forall i, j | 0 <= i < j < |r|
      ensures PublicIdKey(r[i]) != PublicIdKey(r[j]) && PublicUsernameKey(r[i]) != PublicUsernameKey(r[j])
    {
      assert UserKey(users[i]) != UserKey(users[j]);
      assert UsernameKey(users[i]) != UsernameKey(users[j]);
    }
  }

  /** Appending a user appends its public view: listing follows the table. */
  lemma {:induction false} ListAppend(users: seq<User>, u: User)
    ensures List(users + [u]) == List(users) + [WithoutPassword(u)]
  {
    if users != [] {
      assert (users + [u])[1..] == users[1..] + [u];
      ListAppend(users[1..], u);
    }
  }
}
