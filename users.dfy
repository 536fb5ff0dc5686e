/** The user store (lib/users.js): usernames are unique, compared exactly. Passwords are stored
    hashed; the hash function enters as a parameter, and the record handed back never carries it. */
module Users {
  import opened Wrappers
  import opened Seqs

  type Id = string

  /** A stored user; `password` holds the hash. */
  datatype User = User(id: Id, username: string, password: string, name: string, isAdmin: bool)

  /** A user as the store hands it back: every field but the password. */
  datatype PublicUser = PublicUser(id: Id, username: string, name: string, isAdmin: bool)

  datatype UserInput = UserInput(username: string, password: string, name: string, isAdmin: Option<bool>)

  /** An update request: a present field replaces the stored one; a password replaces it only when
      it is not empty, and then by its hash. */
  datatype UserPatch = UserPatch(
    username: Option<string>, password: Option<string>, name: Option<string>, isAdmin: Option<bool>)

  /** 'Username já existe' */
  datatype UserError = DuplicateUsername

  function IdOf(u: User): Id {
    u.id
  }

  function UsernameOf(u: User): string {
    u.username
  }

  predicate UniqueUsernames(list: seq<User>) {
    DistinctKeys(list, UsernameOf)
  }

  predicate UsernameTaken(list: seq<User>, username: string) {
    KeyTaken(list, UsernameOf, username)
  }

  /** The record without its password. */
  function WithoutPassword(u: User): PublicUser {
    PublicUser(u.id, u.username, u.name, u.isAdmin)
  }

  /** What the store hands back does not depend on the stored hash. */
  lemma WithoutPasswordHidesHash(u: User, otherHash: string)
    ensures WithoutPassword(u.(password := otherHash)) == WithoutPassword(u)
    ensures WithoutPassword(u).id == u.id && WithoutPassword(u).username == u.username
  {
  }

  /** `findUserById`: the first user with that id. */
  function FindUserById(list: seq<User>, id: Id): (r: Option<User>)
    ensures r.Some? <==> exists i :: 0 <= i < |list| && list[i].id == id
    ensures r.Some? ==> r.value.id == id && r.value in list
    ensures r.Some? ==> exists i :: 0 <= i < |list| && list[i] == r.value
                                   && forall j :: 0 <= j < i ==> list[j].id != id
  {
    var i := FirstIndex(list, (u: User) => u.id == id);
    if i < |list| then Some(list[i]) else None
  }

  /** `findUserByUsername`: the first user with exactly that username; letter case matters. */
  function FindUserByUsername(list: seq<User>, username: string): (r: Option<User>)
    ensures r.Some? <==> UsernameTaken(list, username)
    ensures r.Some? ==> r.value.username == username && r.value in list
    ensures r.Some? ==> exists i :: 0 <= i < |list| && list[i] == r.value
                                   && forall j :: 0 <= j < i ==> list[j].username != username
  {
    var i := FirstIndex(list, (u: User) => UsernameOf(u) == username);
    if i < |list| then Some(list[i]) else None
  }

  /** With unique usernames, the lookup finds the one user with that username. */
  lemma FindByUsernameUnique(list: seq<User>, username: string, k: nat)
    requires UniqueUsernames(list) && k < |list| && list[k].username == username
    ensures FindUserByUsername(list, username) == Some(list[k])
  {
    FirstIndexUnique(list, UsernameOf, username, k);
  }

  /** The record `createUser` stores: the password hashed, `isAdmin` false unless given true. */
  function NewUser(data: UserInput, id: Id, hash: string -> string): User {
    User(id, data.username, hash(data.password), data.name, data.isAdmin.GetOr(false))
  }

  lemma CreateKeepsUnique(list: seq<User>, data: UserInput, id: Id, hash: string -> string)
    requires UniqueUsernames(list) && !UsernameTaken(list, data.username)
    ensures UniqueUsernames(list + [NewUser(data, id, hash)])
  {
    AppendKeepsDistinct(list, UsernameOf, NewUser(data, id, hash));
  }

  /** `updateUser` refuses a change of username to one another user already has. */
  predicate UpdateRejected(list: seq<User>, i: nat, patch: UserPatch)
    requires i < |list|
  {
    patch.username.Some? && patch.username.value != "" && patch.username.value != list[i].username
    && UsernameTaken(list, patch.username.value)
  }

  /** The record an accepted update stores. */
  function Merge(u: User, patch: UserPatch, hash: string -> string): User {
    User(
      u.id,
      patch.username.GetOr(u.username),
      if patch.password.Some? && patch.password.value != "" then hash(patch.password.value) else u.password,
      patch.name.GetOr(u.name),
      patch.isAdmin.GetOr(u.isAdmin))
  }

  /** An accepted update keeps the usernames unique, unless it sets an empty username, which skips
      the check and is stored. */
  lemma UpdateKeepsUnique(list: seq<User>, i: nat, patch: UserPatch, hash: string -> string)
    requires UniqueUsernames(list) && i < |list| && !UpdateRejected(list, i, patch)
    requires patch.username != Some("")
    ensures UniqueUsernames(list[i := Merge(list[i], patch, hash)])
  {
    ReplaceKeepsDistinct(list, UsernameOf, i, Merge(list[i], patch, hash));
  }

  function WithoutId(list: seq<User>, id: Id): seq<User> {
    Filter(list, (u: User) => u.id != id)
  }

  /** The users file, shared by this store and the one in lib/db/users.js. */
  class UserStore {
    var users: seq<User>

    constructor (initial: seq<User>)
      ensures users == initial
    {
      users := initial;
    }

    /** `createUser`; `id` is the fresh id, `hash` the password hash function. */
    method CreateUser(data: UserInput, id: Id, hash: string -> string) returns (r: Result<PublicUser, UserError>)
      requires forall k :: 0 <= k < |users| ==> users[k].id != id
      modifies this
      ensures UsernameTaken(old(users), data.username) ==> r == Failure(DuplicateUsername) && users == old(users)
      ensures !UsernameTaken(old(users), data.username) ==>
        users == old(users) + [NewUser(data, id, hash)] && r == Success(WithoutPassword(NewUser(data, id, hash)))
      ensures UniqueUsernames(old(users)) ==> UniqueUsernames(users)
      ensures DistinctKeys(old(users), IdOf) ==> DistinctKeys(users, IdOf)
    {
      if UsernameTaken(users, data.username) {
        return Failure(DuplicateUsername);
      }
      var user := NewUser(data, id, hash);
      if UniqueUsernames(users) {
        CreateKeepsUnique(users, data, id, hash);
      }
      if DistinctKeys(users, IdOf) {
        AppendKeepsDistinct(users, IdOf, user);
      }
      users := users + [user];
      r := Success(WithoutPassword(user));
    }

    /** `updateUser`: Success(None) is the `null` of an unknown id. */
    method UpdateUser(id: Id, patch: UserPatch, hash: string -> string) returns (r: Result<Option<PublicUser>, UserError>)
      modifies this
      ensures var i := FirstIndex(old(users), (u: User) => u.id == id);
        if i == |old(users)| then r == Success(None) && users == old(users)
        else if UpdateRejected(old(users), i, patch) then r == Failure(DuplicateUsername) && users == old(users)
        else
          var u := Merge(old(users)[i], patch, hash);
          users == old(users)[i := u] && r == Success(Some(WithoutPassword(u)))
      ensures UniqueUsernames(old(users)) && patch.username != Some("") ==> UniqueUsernames(users)
      ensures DistinctKeys(old(users), IdOf) ==> DistinctKeys(users, IdOf)
    {
      var i := FirstIndex(users, (u: User) => u.id == id);
      if i == |users| {
        return Success(None);
      }
      if patch.username.Some? && patch.username.value != "" && patch.username.value != users[i].username {
        if UsernameTaken(users, patch.username.value) {
          return Failure(DuplicateUsername);
        }
      }
      var updated := Merge(users[i], patch, hash);
      if UniqueUsernames(users) && patch.username != Some("") {
        UpdateKeepsUnique(users, i, patch, hash);
      }
      if DistinctKeys(users, IdOf) {
        ReplaceKeepsDistinct(users, IdOf, i, updated);
      }
      users := users[i := updated];
      r := Success(Some(WithoutPassword(updated)));
    }

    /** `deleteUser`: true, and every user with the id gone, when there was one. */
    method DeleteUser(id: Id) returns (deleted: bool)
      modifies this
      ensures deleted <==> exists i :: 0 <= i < |old(users)| && old(users)[i].id == id
      ensures users == WithoutId(old(users), id)
      ensures UniqueUsernames(old(users)) ==> UniqueUsernames(users)
    {
      var filtered := WithoutId(users, id);
      FilterKeepsAll(users, (u: User) => u.id != id);
      if |filtered| == |users| {
        FilterIdentity(users, (u: User) => u.id != id);
        return false;
      }
      if UniqueUsernames(users) {
        FilterKeepsDistinct(users, UsernameOf, (u: User) => u.id != id);
      }
      users := filtered;
      return true;
    }
  }
}
