/** The second user module (lib/db/users.js). It reads and writes the same users file as
    lib/users.js, with its own lookups and its own creation; it has no update or delete. */
module DbUsers {
  import opened Wrappers
  import opened Seqs
  import opened Users

  /** `findUserById` of this module: the first user with that id. */
  function FindUserById(list: seq<User>, id: Id): (r: Option<User>)
    ensures r.Some? ==> r.value.id == id && r.value in list
    ensures r.Some? ==> exists i :: 0 <= i < |list| && list[i] == r.value
                                   && forall j :: 0 <= j < i ==> list[j].id != id
    ensures r.Some? <==> exists i :: 0 <= i < |list| && list[i].id == id
  {
    var i := FirstIndex(list, (u: User) => u.id == id);
    if i < |list| then Some(list[i]) else None
  }

  /** `findUserByUsername` of this module: the first user with exactly that username. */
  function FindUserByUsername(list: seq<User>, username: string): (r: Option<User>)
    ensures r.Some? ==> r.value.username == username && r.value in list
    ensures r.Some? ==> exists i :: 0 <= i < |list| && list[i] == r.value
                                   && forall j :: 0 <= j < i ==> list[j].username != username
    ensures r.Some? <==> exists i :: 0 <= i < |list| && list[i].username == username
  {
    var i := FirstIndex(list, (u: User) => u.username == username);
    if i < |list| then Some(list[i]) else None
  }

  /** The two modules' lookups agree on every file content. */
  lemma LookupsAgree(list: seq<User>, id: Id, username: string)
    ensures FindUserById(list, id) == Users.FindUserById(list, id)
    ensures FindUserByUsername(list, username) == Users.FindUserByUsername(list, username)
  {
    FirstIndexAgree(list, (u: User) => u.username == username, (u: User) => UsernameOf(u) == username);
  }

  /** `createUser` of this module, on the shared users file: it has the same effect on the file and
      the same result as the one in lib/users.js. */
  method CreateUser(store: UserStore, data: UserInput, id: Id, hash: string -> string)
    returns (r: Result<PublicUser, UserError>)
    requires forall k :: 0 <= k < |store.users| ==> store.users[k].id != id
    modifies store
    ensures UsernameTaken(old(store.users), data.username) ==>
      r == Failure(DuplicateUsername) && store.users == old(store.users)
    ensures !UsernameTaken(old(store.users), data.username) ==>
      store.users == old(store.users) + [NewUser(data, id, hash)] && r == Success(WithoutPassword(NewUser(data, id, hash)))
    ensures UniqueUsernames(old(store.users)) ==> UniqueUsernames(store.users)
  {
    var users := store.users;
    if exists i :: 0 <= i < |users| && users[i].username == data.username {
      return Failure(DuplicateUsername);
    }
    var newUser := User(id, data.username, hash(data.password), data.name, data.isAdmin.GetOr(false));
    if UniqueUsernames(users) {
      CreateKeepsUnique(users, data, id, hash);
    }
    store.users := users + [newUser];
    r := Success(PublicUser(newUser.id, newUser.username, newUser.name, newUser.isAdmin));
  }
}
