/** The location store (lib/locations.js): each location belongs to a client, and a client's
    locations have names that are unique ignoring case. */
module Locations {
  import opened Wrappers
  import opened Text
  import opened Seqs

  type Id = string

  datatype Location = Location(id: Id, name: string, address: string, clientId: Id, description: string)

  /** A creation request; an empty text stands for a missing field. */
  datatype LocationInput = LocationInput(name: string, address: string, clientId: Id, description: string)

  /** An update request: a present field replaces the stored one, whatever its value. */
  datatype LocationPatch = LocationPatch(
    name: Option<string>, address: Option<string>, clientId: Option<Id>, description: Option<string>)

  /** 'Cliente não encontrado' and 'Já existe um local com este nome para o cliente selecionado'. */
  datatype LocationError = ClientNotFound | DuplicateName

  function IdOf(l: Location): Id {
    l.id
  }

  /** What must not repeat: the name as `toLowerCase` compares it, within one client. */
  function NameKey(l: Location): (string, Id) {
    (Lower(l.name), l.clientId)
  }

  predicate UniqueNamesPerClient(list: seq<Location>) {
    DistinctKeys(list, NameKey)
  }

  /** The client already has a location with this name, ignoring case. */
  predicate NameTaken(list: seq<Location>, name: string, clientId: Id) {
    KeyTaken(list, NameKey, (Lower(name), clientId))
  }

  /** `findLocationById`: the first location with that id. */
  function FindLocationById(list: seq<Location>, id: Id): (r: Option<Location>)
    ensures r.Some? <==> exists i :: 0 <= i < |list| && list[i].id == id
    ensures r.Some? ==> r.value.id == id && r.value in list
    ensures r.Some? ==> exists i :: 0 <= i < |list| && list[i] == r.value
                                   && forall j :: 0 <= j < i ==> list[j].id != id
  {
    var i := FirstIndex(list, (x: Location) => x.id == id);
    if i < |list| then Some(list[i]) else None
  }

  /** `findLocationsByClientId`. */
  function FindLocationsByClientId(list: seq<Location>, clientId: Id): (r: seq<Location>)
    ensures forall l :: l in r <==> l in list && l.clientId == clientId
  {
    Filter(list, (x: Location) => x.clientId == clientId)
  }

  /** `createLocation`'s checks, in order: the client must exist, then the name must be new for it. */
  function CreateError(clients: set<Id>, list: seq<Location>, data: LocationInput): Option<LocationError> {
    if data.clientId !in clients then Some(ClientNotFound)
    else if NameTaken(list, data.name, data.clientId) then Some(DuplicateName)
    else None
  }

  function NewLocation(data: LocationInput, id: Id): Location {
    Location(id, data.name, data.address, data.clientId, data.description)
  }

  /** An accepted creation refers to an existing client and keeps the names unique per client; the
      same name under another client is accepted. */
  lemma CreateKeepsUnique(clients: set<Id>, list: seq<Location>, data: LocationInput, id: Id)
    requires UniqueNamesPerClient(list) && CreateError(clients, list, data).None?
    ensures NewLocation(data, id).clientId in clients
    ensures UniqueNamesPerClient(list + [NewLocation(data, id)])
  {
    AppendKeepsDistinct(list, NameKey, NewLocation(data, id));
  }

  /** The client the update's name check is made against: the given one, or the current one. */
  function TargetClient(current: Location, patch: LocationPatch): Id {
    if patch.clientId.Some? && patch.clientId.value != "" then patch.clientId.value else current.clientId
  }

  /** `updateLocation`'s checks, in order: a changed client must exist; a name that changes more
      than letter case must be new for the target client. */
  function UpdateError(clients: set<Id>, list: seq<Location>, i: nat, patch: LocationPatch): Option<LocationError>
    requires i < |list|
  {
    var current := list[i];
    if patch.clientId.Some? && patch.clientId.value != "" && patch.clientId.value != current.clientId
       && patch.clientId.value !in clients
    then Some(ClientNotFound)
    else if patch.name.Some? && patch.name.value != "" && Lower(patch.name.value) != Lower(current.name)
            && NameTaken(list, patch.name.value, TargetClient(current, patch))
    then Some(DuplicateName)
    else None
  }

  function Merge(l: Location, patch: LocationPatch): Location {
    Location(l.id, patch.name.GetOr(l.name), patch.address.GetOr(l.address),
             patch.clientId.GetOr(l.clientId), patch.description.GetOr(l.description))
  }

  /** An accepted update keeps the names unique per client when it renames, or when it keeps the
      client; empty texts for name or client skip the checks and are stored. */
  lemma UpdateKeepsUnique(clients: set<Id>, list: seq<Location>, i: nat, patch: LocationPatch)
    requires UniqueNamesPerClient(list) && i < |list| && UpdateError(clients, list, i, patch).None?
    requires patch.name != Some("") && patch.clientId != Some("")
    requires patch.clientId.Some? && patch.clientId.value != list[i].clientId
             ==> patch.name.Some? && Lower(patch.name.value) != Lower(list[i].name)
    ensures UniqueNamesPerClient(list[i := Merge(list[i], patch)])
  {
    ReplaceKeepsDistinct(list, NameKey, i, Merge(list[i], patch));
  }

  /** Moving a location to another client without renaming it skips the name check: a client can
      end up with two locations of the same name. */
  lemma MoveCanDuplicate()
    ensures var list := [Location("1", "Sede", "", "a", ""), Location("2", "sede", "", "b", "")];
      var patch := LocationPatch(None, None, Some("a"), None);
      && UniqueNamesPerClient(list)
      && UpdateError({"a", "b"}, list, 1, patch).None?
      && !UniqueNamesPerClient(list[1 := Merge(list[1], patch)])
  {
    var list := [Location("1", "Sede", "", "a", ""), Location("2", "sede", "", "b", "")];
    var moved := list[1 := Merge(list[1], LocationPatch(None, None, Some("a"), None))];
    assert Lower("Sede") == "sede" by {
      assert LowerChar('S') == 's';
    }
    assert NameKey(moved[0]) == NameKey(moved[1]);
  }

  function WithoutId(list: seq<Location>, id: Id): seq<Location> {
    Filter(list, (x: Location) => x.id != id)
  }

  class LocationStore {
    var locations: seq<Location>

    constructor (initial: seq<Location>)
      ensures locations == initial
    {
      locations := initial;
    }

    /** `createLocation`; `clients` are the ids of the existing clients, `id` the fresh id. */
    method CreateLocation(clients: set<Id>, data: LocationInput, id: Id) returns (r: Result<Location, LocationError>)
      requires forall k :: 0 <= k < |locations| ==> locations[k].id != id
      modifies this
      ensures CreateError(clients, old(locations), data).Some? ==>
        r == Failure(CreateError(clients, old(locations), data).value) && locations == old(locations)
      ensures CreateError(clients, old(locations), data).None? ==>
        r == Success(NewLocation(data, id)) && locations == old(locations) + [r.value]
      ensures UniqueNamesPerClient(old(locations)) ==> UniqueNamesPerClient(locations)
      ensures DistinctKeys(old(locations), IdOf) ==> DistinctKeys(locations, IdOf)
    {
      if data.clientId !in clients {
        return Failure(ClientNotFound);
      }
      if NameTaken(locations, data.name, data.clientId) {
        return Failure(DuplicateName);
      }
      var location := NewLocation(data, id);
      if UniqueNamesPerClient(locations) {
        CreateKeepsUnique(clients, locations, data, id);
      }
      if DistinctKeys(locations, IdOf) {
        AppendKeepsDistinct(locations, IdOf, location);
      }
      locations := locations + [location];
      r := Success(location);
    }

    /** `updateLocation`: Success(None) is the `null` of an unknown id. */
    method UpdateLocation(clients: set<Id>, id: Id, patch: LocationPatch) returns (r: Result<Option<Location>, LocationError>)
      modifies this
      ensures var i := FirstIndex(old(locations), (x: Location) => x.id == id);
        if i == |old(locations)| then r == Success(None) && locations == old(locations)
        else if UpdateError(clients, old(locations), i, patch).Some? then
          r == Failure(UpdateError(clients, old(locations), i, patch).value) && locations == old(locations)
        else
          var u := Merge(old(locations)[i], patch);
          r == Success(Some(u)) && locations == old(locations)[i := u]
      ensures DistinctKeys(old(locations), IdOf) ==> DistinctKeys(locations, IdOf)
    {
      var i := FirstIndex(locations, (x: Location) => x.id == id);
      if i == |locations| {
        return Success(None);
      }
      var current := locations[i];
      if patch.clientId.Some? && patch.clientId.value != "" && patch.clientId.value != current.clientId
         && patch.clientId.value !in clients {
        return Failure(ClientNotFound);
      }
      var clientId := TargetClient(current, patch);
      if patch.name.Some? && patch.name.value != "" && Lower(patch.name.value) != Lower(current.name)
         && NameTaken(locations, patch.name.value, clientId) {
        return Failure(DuplicateName);
      }
      var u := Merge(current, patch);
      if DistinctKeys(locations, IdOf) {
        ReplaceKeepsDistinct(locations, IdOf, i, u);
      }
      locations := locations[i := u];
      r := Success(Some(u));
    }

    /** `deleteLocation`: true, and every location with the id gone, when there was one. */
    method DeleteLocation(id: Id) returns (deleted: bool)
      modifies this
      ensures deleted <==> exists i :: 0 <= i < |old(locations)| && old(locations)[i].id == id
      ensures locations == WithoutId(old(locations), id)
      ensures UniqueNamesPerClient(old(locations)) ==> UniqueNamesPerClient(locations)
    {
      var filtered := WithoutId(locations, id);
      FilterKeepsAll(locations, (x: Location) => x.id != id);
      if |filtered| == |locations| {
        FilterIdentity(locations, (x: Location) => x.id != id);
        return false;
      }
      if UniqueNamesPerClient(locations) {
        FilterKeepsDistinct(locations, NameKey, (x: Location) => x.id != id);
      }
      locations := filtered;
      return true;
    }
  }
}
