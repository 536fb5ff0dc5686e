/** The client store (lib/db/clients.js): clients whose names are unique ignoring case. */
module Clients {
  import opened Wrappers
  import opened Text
  import opened Seqs

  type Id = string

  datatype Client = Client(id: Id, name: string, contactPerson: string, phone: string, email: string, address: string)

  /** A creation request; an empty text stands for a missing field, which is stored as empty. */
  datatype ClientInput = ClientInput(name: string, contactPerson: string, phone: string, email: string, address: string)

  /** An update request: a present field replaces the stored one, whatever its value. */
  datatype ClientPatch = ClientPatch(name: Option<string>, contactPerson: Option<string>, phone: Option<string>, email: Option<string>, address: Option<string>)

  /** 'Nome de cliente já existe' */
  datatype ClientError = DuplicateName

  function IdOf(r: Client): Id {
    r.id
  }

  /** The name as `toLowerCase` compares it. */
  function NameKey(r: Client): string {
    Lower(r.name)
  }

  /** No two clients share a name, ignoring case. */
  predicate UniqueNames(list: seq<Client>) {
    DistinctKeys(list, NameKey)
  }

  /** Some client already has this name, ignoring case. */
  predicate NameTaken(list: seq<Client>, name: string) {
    KeyTaken(list, NameKey, Lower(name))
  }

  /** `findClientById`: the first client with that id. */
  function FindClientById(list: seq<Client>, id: Id): (r: Option<Client>)
    ensures r.Some? <==> exists i :: 0 <= i < |list| && list[i].id == id
    ensures r.Some? ==> r.value.id == id && r.value in list
    ensures r.Some? ==> exists i :: 0 <= i < |list| && list[i] == r.value
                                   && forall j :: 0 <= j < i ==> list[j].id != id
  {
    var i := FirstIndex(list, (x: Client) => x.id == id);
    if i < |list| then Some(list[i]) else None
  }

  /** `findClientByName`: the first client whose name matches ignoring case. */
  function FindClientByName(list: seq<Client>, name: string): (r: Option<Client>)
    ensures r.Some? <==> NameTaken(list, name)
    ensures r.Some? ==> r.value in list && Lower(r.value.name) == Lower(name)
    ensures r.Some? ==> exists i :: 0 <= i < |list| && list[i] == r.value
                                   && forall j :: 0 <= j < i ==> Lower(list[j].name) != Lower(name)
  {
    var i := FirstIndex(list, (x: Client) => NameKey(x) == Lower(name));
    if i < |list| then Some(list[i]) else None
  }

  /** With unique names, a name lookup finds the one client with that name, in any letter case. */
  lemma FindByNameUnique(list: seq<Client>, name: string, k: nat)
    requires UniqueNames(list) && k < |list| && Lower(list[k].name) == Lower(name)
    ensures FindClientByName(list, name) == Some(list[k])
  {
    FirstIndexUnique(list, NameKey, Lower(name), k);
  }

  /** The record `createClient` stores under the fresh id. */
  function NewClient(data: ClientInput, id: Id): Client {
    Client(id, data.name, data.contactPerson, data.phone, data.email, data.address)
  }

  /** A creation is accepted exactly when no client has the name ignoring case, and then keeps the
      names unique. */
  lemma CreateKeepsUnique(list: seq<Client>, data: ClientInput, id: Id)
    requires UniqueNames(list) && !NameTaken(list, data.name)
    ensures UniqueNames(list + [NewClient(data, id)])
  {
    AppendKeepsDistinct(list, NameKey, NewClient(data, id));
  }

  /** `updateClient` refuses a rename (one that changes more than letter case) to a name some
      client already has. */
  predicate UpdateRejected(list: seq<Client>, i: nat, patch: ClientPatch)
    requires i < |list|
  {
    patch.name.Some? && patch.name.value != "" && Lower(patch.name.value) != Lower(list[i].name)
    && NameTaken(list, patch.name.value)
  }

  /** The record an accepted update stores: present fields override, the id stays. */
  function Merge(r: Client, patch: ClientPatch): Client {
    Client(r.id, patch.name.GetOr(r.name), patch.contactPerson.GetOr(r.contactPerson), patch.phone.GetOr(r.phone), patch.email.GetOr(r.email), patch.address.GetOr(r.address))
  }

  /** An accepted update keeps the names unique, unless it sets an empty name, which skips the
      check and is stored. */
  lemma UpdateKeepsUnique(list: seq<Client>, i: nat, patch: ClientPatch)
    requires UniqueNames(list) && i < |list| && !UpdateRejected(list, i, patch)
    requires patch.name != Some("")
    ensures UniqueNames(list[i := Merge(list[i], patch)])
  {
    ReplaceKeepsDistinct(list, NameKey, i, Merge(list[i], patch));
  }

  /** `deleteClient`'s filtered copy: every client with that id removed. */
  function WithoutId(list: seq<Client>, id: Id): seq<Client> {
    Filter(list, (x: Client) => x.id != id)
  }

  class ClientStore {
    var clients: seq<Client>

    constructor (initial: seq<Client>)
      ensures clients == initial
    {
      clients := initial;
    }

    /** `createClient`; `id` is the fresh id the id generator hands out. */
    method CreateClient(data: ClientInput, id: Id) returns (r: Result<Client, ClientError>)
      requires forall k :: 0 <= k < |clients| ==> clients[k].id != id
      modifies this
      ensures NameTaken(old(clients), data.name) ==> r == Failure(DuplicateName) && clients == old(clients)
      ensures !NameTaken(old(clients), data.name) ==>
        r == Success(NewClient(data, id)) && clients == old(clients) + [r.value]
      ensures UniqueNames(old(clients)) ==> UniqueNames(clients)
      ensures DistinctKeys(old(clients), IdOf) ==> DistinctKeys(clients, IdOf)
    {
      if NameTaken(clients, data.name) {
        return Failure(DuplicateName);
      }
      var client := NewClient(data, id);
      if UniqueNames(clients) {
        CreateKeepsUnique(clients, data, id);
      }
      if DistinctKeys(clients, IdOf) {
        AppendKeepsDistinct(clients, IdOf, client);
      }
      clients := clients + [client];
      r := Success(client);
    }

    /** `updateClient`: Success(None) is the `null` of an unknown id. */
    method UpdateClient(id: Id, patch: ClientPatch) returns (r: Result<Option<Client>, ClientError>)
      modifies this
      ensures var i := FirstIndex(old(clients), (x: Client) => x.id == id);
        if i == |old(clients)| then r == Success(None) && clients == old(clients)
        else if UpdateRejected(old(clients), i, patch) then r == Failure(DuplicateName) && clients == old(clients)
        else
          var u := Merge(old(clients)[i], patch);
          r == Success(Some(u)) && clients == old(clients)[i := u]
      ensures UniqueNames(old(clients)) && patch.name != Some("") ==> UniqueNames(clients)
      ensures DistinctKeys(old(clients), IdOf) ==> DistinctKeys(clients, IdOf)
    {
      var i := FirstIndex(clients, (x: Client) => x.id == id);
      if i == |clients| {
        return Success(None);
      }
      if UpdateRejected(clients, i, patch) {
        return Failure(DuplicateName);
      }
      var u := Merge(clients[i], patch);
      if UniqueNames(clients) && patch.name != Some("") {
        UpdateKeepsUnique(clients, i, patch);
      }
      if DistinctKeys(clients, IdOf) {
        ReplaceKeepsDistinct(clients, IdOf, i, u);
      }
      clients := clients[i := u];
      r := Success(Some(u));
    }

    /** `deleteClient`: true, and every client with the id gone, when there was one. */
    method DeleteClient(id: Id) returns (deleted: bool)
      modifies this
      ensures deleted <==> exists i :: 0 <= i < |old(clients)| && old(clients)[i].id == id
      ensures clients == WithoutId(old(clients), id)
      ensures UniqueNames(old(clients)) ==> UniqueNames(clients)
    {
      var filtered := WithoutId(clients, id);
      FilterKeepsAll(clients, (x: Client) => x.id != id);
      if |filtered| == |clients| {
        FilterIdentity(clients, (x: Client) => x.id != id);
        return false;
      }
      if UniqueNames(clients) {
        FilterKeepsDistinct(clients, NameKey, (x: Client) => x.id != id);
      }
      clients := filtered;
      return true;
    }
  }
}
