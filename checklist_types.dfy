/** The checklist type store (lib/checklistTypes.js): checklist types whose names are unique ignoring case. */
module ChecklistTypes {
  import opened Wrappers
  import opened Text
  import opened Seqs

  type Id = string

  datatype ChecklistType = ChecklistType(id: Id, name: string, description: string)

  /** A creation request; an empty text stands for a missing field, which is stored as empty. */
  datatype ChecklistTypeInput = ChecklistTypeInput(name: string, description: string)

  /** An update request: a present field replaces the stored one, whatever its value. */
  datatype ChecklistTypePatch = ChecklistTypePatch(name: Option<string>, description: Option<string>)

  /** 'Nome de tipo de checklist já existe' */
  datatype ChecklistTypeError = DuplicateName

  function IdOf(r: ChecklistType): Id {
    r.id
  }

  /** The name as `toLowerCase` compares it. */
  function NameKey(r: ChecklistType): string {
    Lower(r.name)
  }

  /** No two checklist types share a name, ignoring case. */
  predicate UniqueNames(list: seq<ChecklistType>) {
    DistinctKeys(list, NameKey)
  }

  /** Some checklist type already has this name, ignoring case. */
  predicate NameTaken(list: seq<ChecklistType>, name: string) {
    KeyTaken(list, NameKey, Lower(name))
  }

  /** `findChecklistTypeById`: the first checklist type with that id. */
  function FindChecklistTypeById(list: seq<ChecklistType>, id: Id): (r: Option<ChecklistType>)
    ensures r.Some? <==> exists i :: 0 <= i < |list| && list[i].id == id
    ensures r.Some? ==> r.value.id == id && r.value in list
    ensures r.Some? ==> exists i :: 0 <= i < |list| && list[i] == r.value
                                   && forall j :: 0 <= j < i ==> list[j].id != id
  {
    var i := FirstIndex(list, (x: ChecklistType) => x.id == id);
    if i < |list| then Some(list[i]) else None
  }

  /** `findChecklistTypeByName`: the first checklist type whose name matches ignoring case. */
  function FindChecklistTypeByName(list: seq<ChecklistType>, name: string): (r: Option<ChecklistType>)
    ensures r.Some? <==> NameTaken(list, name)
    ensures r.Some? ==> r.value in list && Lower(r.value.name) == Lower(name)
    ensures r.Some? ==> exists i :: 0 <= i < |list| && list[i] == r.value
                                   && forall j :: 0 <= j < i ==> Lower(list[j].name) != Lower(name)
  {
    var i := FirstIndex(list, (x: ChecklistType) => NameKey(x) == Lower(name));
    if i < |list| then Some(list[i]) else None
  }

  /** With unique names, a name lookup finds the one checklist type with that name, in any letter case. */
  lemma FindByNameUnique(list: seq<ChecklistType>, name: string, k: nat)
    requires UniqueNames(list) && k < |list| && Lower(list[k].name) == Lower(name)
    ensures FindChecklistTypeByName(list, name) == Some(list[k])
  {
    FirstIndexUnique(list, NameKey, Lower(name), k);
  }

  /** The record `createChecklistType` stores under the fresh id. */
  function NewChecklistType(data: ChecklistTypeInput, id: Id): ChecklistType {
    ChecklistType(id, data.name, data.description)
  }

  /** A creation is accepted exactly when no checklist type has the name ignoring case, and then keeps the
      names unique. */
  lemma CreateKeepsUnique(list: seq<ChecklistType>, data: ChecklistTypeInput, id: Id)
    requires UniqueNames(list) && !NameTaken(list, data.name)
    ensures UniqueNames(list + [NewChecklistType(data, id)])
  {
    AppendKeepsDistinct(list, NameKey, NewChecklistType(data, id));
  }

  /** `updateChecklistType` refuses a rename (one that changes more than letter case) to a name some
      checklist type already has. */
  predicate UpdateRejected(list: seq<ChecklistType>, i: nat, patch: ChecklistTypePatch)
    requires i < |list|
  {
    patch.name.Some? && patch.name.value != "" && Lower(patch.name.value) != Lower(list[i].name)
    && NameTaken(list, patch.name.value)
  }

  /** The record an accepted update stores: present fields override, the id stays. */
  function Merge(r: ChecklistType, patch: ChecklistTypePatch): ChecklistType {
    ChecklistType(r.id, patch.name.GetOr(r.name), patch.description.GetOr(r.description))
  }

  /** An accepted update keeps the names unique, unless it sets an empty name, which skips the
      check and is stored. */
  lemma UpdateKeepsUnique(list: seq<ChecklistType>, i: nat, patch: ChecklistTypePatch)
    requires UniqueNames(list) && i < |list| && !UpdateRejected(list, i, patch)
    requires patch.name != Some("")
    ensures UniqueNames(list[i := Merge(list[i], patch)])
  {
    ReplaceKeepsDistinct(list, NameKey, i, Merge(list[i], patch));
  }

  /** `deleteChecklistType`'s filtered copy: every checklist type with that id removed. */
  function WithoutId(list: seq<ChecklistType>, id: Id): seq<ChecklistType> {
    Filter(list, (x: ChecklistType) => x.id != id)
  }

  class ChecklistTypeStore {
    var checklistTypes: seq<ChecklistType>

    constructor (initial: seq<ChecklistType>)
      ensures checklistTypes == initial
    {
      checklistTypes := initial;
    }

    /** `createChecklistType`; `id` is the fresh id the id generator hands out. */
    method CreateChecklistType(data: ChecklistTypeInput, id: Id) returns (r: Result<ChecklistType, ChecklistTypeError>)
      requires forall k :: 0 <= k < |checklistTypes| ==> checklistTypes[k].id != id
      modifies this
      ensures NameTaken(old(checklistTypes), data.name) ==> r == Failure(DuplicateName) && checklistTypes == old(checklistTypes)
      ensures !NameTaken(old(checklistTypes), data.name) ==>
        r == Success(NewChecklistType(data, id)) && checklistTypes == old(checklistTypes) + [r.value]
      ensures UniqueNames(old(checklistTypes)) ==> UniqueNames(checklistTypes)
      ensures DistinctKeys(old(checklistTypes), IdOf) ==> DistinctKeys(checklistTypes, IdOf)
    {
      if NameTaken(checklistTypes, data.name) {
        return Failure(DuplicateName);
      }
      var checklistType := NewChecklistType(data, id);
      if UniqueNames(checklistTypes) {
        CreateKeepsUnique(checklistTypes, data, id);
      }
      if DistinctKeys(checklistTypes, IdOf) {
        AppendKeepsDistinct(checklistTypes, IdOf, checklistType);
      }
      checklistTypes := checklistTypes + [checklistType];
      r := Success(checklistType);
    }

    /** `updateChecklistType`: Success(None) is the `null` of an unknown id. */
    method UpdateChecklistType(id: Id, patch: ChecklistTypePatch) returns (r: Result<Option<ChecklistType>, ChecklistTypeError>)
      modifies this
      ensures var i := FirstIndex(old(checklistTypes), (x: ChecklistType) => x.id == id);
        if i == |old(checklistTypes)| then r == Success(None) && checklistTypes == old(checklistTypes)
        else if UpdateRejected(old(checklistTypes), i, patch) then r == Failure(DuplicateName) && checklistTypes == old(checklistTypes)
        else
          var u := Merge(old(checklistTypes)[i], patch);
          r == Success(Some(u)) && checklistTypes == old(checklistTypes)[i := u]
      ensures UniqueNames(old(checklistTypes)) && patch.name != Some("") ==> UniqueNames(checklistTypes)
      ensures DistinctKeys(old(checklistTypes), IdOf) ==> DistinctKeys(checklistTypes, IdOf)
    {
      var i := FirstIndex(checklistTypes, (x: ChecklistType) => x.id == id);
      if i == |checklistTypes| {
        return Success(None);
      }
      if UpdateRejected(checklistTypes, i, patch) {
        return Failure(DuplicateName);
      }
      var u := Merge(checklistTypes[i], patch);
      if UniqueNames(checklistTypes) && patch.name != Some("") {
        UpdateKeepsUnique(checklistTypes, i, patch);
      }
      if DistinctKeys(checklistTypes, IdOf) {
        ReplaceKeepsDistinct(checklistTypes, IdOf, i, u);
      }
      checklistTypes := checklistTypes[i := u];
      r := Success(Some(u));
    }

    /** `deleteChecklistType`: true, and every checklist type with the id gone, when there was one. */
    method DeleteChecklistType(id: Id) returns (deleted: bool)
      modifies this
      ensures deleted <==> exists i :: 0 <= i < |old(checklistTypes)| && old(checklistTypes)[i].id == id
      ensures checklistTypes == WithoutId(old(checklistTypes), id)
      ensures UniqueNames(old(checklistTypes)) ==> UniqueNames(checklistTypes)
    {
      var filtered := WithoutId(checklistTypes, id);
      FilterKeepsAll(checklistTypes, (x: ChecklistType) => x.id != id);
      if |filtered| == |checklistTypes| {
        FilterIdentity(checklistTypes, (x: ChecklistType) => x.id != id);
        return false;
      }
      if UniqueNames(checklistTypes) {
        FilterKeepsDistinct(checklistTypes, NameKey, (x: ChecklistType) => x.id != id);
      }
      checklistTypes := filtered;
      return true;
    }
  }
}
