/** The checklist catalog: the list of checklist definitions an administrator maintains
    (lib/checklists.js). The list is the content of the catalog's file; every operation reads it,
    validates, and writes back a list that differs in at most one place. */
module Checklists {
  import opened Wrappers
  import opened Seqs

  type Id = string

  datatype Item = Item(id: Id, description: string, requirePhoto: bool)

  /** A stored checklist definition. `assignedTo` is None for JSON null, an unassigned checklist
      that any technician may run; `qrCodePath` is None for null; `validity` and `time` are the
      empty text when the record has none. */
  datatype Checklist = Checklist(
    id: Id,
    title: string,
    description: string,
    clientId: Id,
    locationId: Id,
    typeId: Id,
    assignedTo: Option<Id>,
    periodicity: string,
    customDays: seq<int>,
    requirePhotos: bool,
    items: seq<Item>,
    active: bool,
    qrCodePath: Option<string>,
    validity: string,
    time: string)

  /** The ids that exist in the client, location, checklist-type and user stores. */
  datatype References = References(clients: set<Id>, locations: set<Id>, types: set<Id>, users: set<Id>)

  /** An item as a request sends it: an id only when it is an existing item. */
  datatype ItemInput = ItemInput(id: Option<Id>, description: string, requirePhoto: Option<bool>)

  /** The body of a creation request. An empty text stands for a missing or falsy field. */
  datatype ChecklistInput = ChecklistInput(
    title: string,
    description: string,
    clientId: Id,
    locationId: Id,
    typeId: Id,
    assignedTo: Id,
    periodicity: string,
    customDays: Option<seq<int>>,
    requirePhotos: Option<bool>,
    items: Option<seq<ItemInput>>,
    validity: string,
    time: string)

  /** The body of an update request: a field is present (Some) or absent (None); a present field
      replaces the stored one, whatever its value. */
  datatype ChecklistPatch = ChecklistPatch(
    title: Option<string>,
    description: Option<string>,
    clientId: Option<Id>,
    locationId: Option<Id>,
    typeId: Option<Id>,
    assignedTo: Option<Option<Id>>,
    periodicity: Option<string>,
    customDays: Option<seq<int>>,
    requirePhotos: Option<bool>,
    items: Option<seq<ItemInput>>,
    active: Option<bool>,
    qrCodePath: Option<Option<string>>,
    validity: Option<string>,
    time: Option<string>)

  /** The errors the catalog throws, in the order its validations run. */
  datatype ChecklistError =
    | ClientNotFound | LocationNotFound | TypeNotFound | UserNotFound
    | NoItems | InvalidPeriodicity | CustomWithoutDays

  /** The periodicities a checklist may be created or updated with; `loose` is not among them. */
  const Periodicities: seq<string> :=
    ["daily", "weekly", "monthly", "quarterly", "semiannual", "annual", "custom"]

  /** A present field whose value is a non-empty text (JavaScript truthiness). */
  predicate Given(f: Option<string>) {
    f.Some? && f.value != ""
  }

  /** What every definition the catalog accepts satisfies. */
  predicate WellFormed(c: Checklist) {
    && c.periodicity in Periodicities
    && |c.items| > 0
    && (c.periodicity == "custom" ==> |c.customDays| > 0)
  }

  function IdOf(c: Checklist): Id {
    c.id
  }

  /** The checklist ids are pairwise distinct. */
  predicate UniqueIds(list: seq<Checklist>) {
    DistinctKeys(list, IdOf)
  }

  // ---------------------------------------------------------------- queries

  /** `findChecklistById`: the first checklist with that id. */
  function FindChecklistById(list: seq<Checklist>, id: Id): (r: Option<Checklist>)
    ensures r.Some? <==> exists i :: 0 <= i < |list| && list[i].id == id
    ensures r.Some? ==> r.value.id == id && r.value in list
    ensures r.Some? ==> exists i :: 0 <= i < |list| && list[i] == r.value
                                   && forall j :: 0 <= j < i ==> list[j].id != id
  {
    var i := FirstIndex(list, (c: Checklist) => c.id == id);
    if i < |list| then Some(list[i]) else None
  }

  function FindChecklistsByClientId(list: seq<Checklist>, clientId: Id): seq<Checklist> {
    Filter(list, (c: Checklist) => c.clientId == clientId)
  }

  function FindChecklistsByLocationId(list: seq<Checklist>, locationId: Id): seq<Checklist> {
    Filter(list, (c: Checklist) => c.locationId == locationId)
  }

  /** A technician sees the checklists assigned to them and the unassigned ones. */
  predicate AssignedOrLoose(c: Checklist, userId: Id) {
    c.assignedTo == Some(userId) || c.assignedTo == None
  }

  function FindChecklistsByUserId(list: seq<Checklist>, userId: Id): seq<Checklist> {
    Filter(list, (c: Checklist) => AssignedOrLoose(c, userId))
  }

  /** The three query filters keep exactly the matching records, and keep them in catalog order. */
  lemma FindersSelectExactly(list: seq<Checklist>, more: seq<Checklist>, clientId: Id, locationId: Id, userId: Id)
    ensures forall c :: c in FindChecklistsByClientId(list, clientId) <==> c in list && c.clientId == clientId
    ensures forall c :: c in FindChecklistsByLocationId(list, locationId) <==> c in list && c.locationId == locationId
    ensures forall c :: c in FindChecklistsByUserId(list, userId)
                    <==> c in list && (c.assignedTo == Some(userId) || c.assignedTo == None)
    ensures FindChecklistsByUserId(list + more, userId)
         == FindChecklistsByUserId(list, userId) + FindChecklistsByUserId(more, userId)
    ensures FindChecklistsByClientId(list + more, clientId)
         == FindChecklistsByClientId(list, clientId) + FindChecklistsByClientId(more, clientId)
    ensures FindChecklistsByLocationId(list + more, locationId)
         == FindChecklistsByLocationId(list, locationId) + FindChecklistsByLocationId(more, locationId)
  {
    FilterConcat(list, more, (c: Checklist) => AssignedOrLoose(c, userId));
    FilterConcat(list, more, (c: Checklist) => c.clientId == clientId);
    FilterConcat(list, more, (c: Checklist) => c.locationId == locationId);
  }

  // ---------------------------------------------------------------- creation

  /** The first validation of `createChecklist` that fails, if any. A reference is checked only when
      it is given; the periodicity must be one of the seven listed values. */
  function CreateError(refs: References, data: ChecklistInput): (r: Option<ChecklistError>)
    ensures data.periodicity == "loose" ==> r.Some?
    ensures r.None? <==>
      && (data.clientId == "" || data.clientId in refs.clients)
      && (data.locationId == "" || data.locationId in refs.locations)
      && (data.typeId == "" || data.typeId in refs.types)
      && (data.assignedTo == "" || data.assignedTo in refs.users)
      && data.items.Some? && |data.items.value| > 0
      && data.periodicity in Periodicities
      && (data.periodicity == "custom" ==> data.customDays.Some? && |data.customDays.value| > 0)
  {
    if data.clientId != "" && data.clientId !in refs.clients then Some(ClientNotFound)
    else if data.locationId != "" && data.locationId !in refs.locations then Some(LocationNotFound)
    else if data.typeId != "" && data.typeId !in refs.types then Some(TypeNotFound)
    else if data.assignedTo != "" && data.assignedTo !in refs.users then Some(UserNotFound)
    else if data.items.None? || |data.items.value| == 0 then Some(NoItems)
    else if data.periodicity !in Periodicities then Some(InvalidPeriodicity)
    else if data.periodicity == "custom" && (data.customDays.None? || |data.customDays.value| == 0)
    then Some(CustomWithoutDays)
    else None
  }

  /** The items of a new checklist, each with the next fresh id. */
  function NewItems(items: seq<ItemInput>, ids: seq<Id>): seq<Item>
    requires |ids| >= |items|
  {
    seq(|items|, i requires 0 <= i < |items| =>
      Item(ids[i], items[i].description, items[i].requirePhoto.GetOr(false)))
  }

  /** The record `createChecklist` stores: `ids[0]` is the checklist's fresh id, the rest the items'. */
  function NewChecklist(data: ChecklistInput, ids: seq<Id>): Checklist
    requires data.items.Some? && |ids| == |data.items.value| + 1
  {
    Checklist(
      ids[0], data.title, data.description, data.clientId, data.locationId, data.typeId,
      if data.assignedTo == "" then None else Some(data.assignedTo),
      data.periodicity, data.customDays.GetOr([]), data.requirePhotos.GetOr(false),
      NewItems(data.items.value, ids[1..]), true, None, "", "")
  }

  /** A `loose` checklist cannot be created, whatever else the request holds. */
  lemma CreateRejectsLoose(refs: References, data: ChecklistInput)
    requires data.periodicity == "loose"
    ensures CreateError(refs, data).Some?
  {
    assert "loose" !in Periodicities;
  }

  /** Every record `createChecklist` accepts is well formed, refers to existing records, is active,
      has no QR code yet and does not keep the validity or time it was sent. */
  lemma CreatedChecklist(refs: References, data: ChecklistInput, ids: seq<Id>)
    requires CreateError(refs, data).None?
    requires data.items.Some? && |ids| == |data.items.value| + 1
    ensures var c := NewChecklist(data, ids);
      && WellFormed(c)
      && c.id == ids[0] && c.active && c.qrCodePath.None?
      && (c.assignedTo.None? <==> data.assignedTo == "")
      && (c.clientId == "" || c.clientId in refs.clients)
      && (c.locationId == "" || c.locationId in refs.locations)
      && (c.typeId == "" || c.typeId in refs.types)
      && (c.assignedTo.Some? ==> c.assignedTo.value in refs.users)
      && c.validity == "" && c.time == ""
      && |c.items| == |data.items.value|
      && forall i :: 0 <= i < |c.items| ==>
           c.items[i].id == ids[i + 1] && c.items[i].description == data.items.value[i].description
           && (data.items.value[i].requirePhoto.None? ==> !c.items[i].requirePhoto)
  {
  }

  // ---------------------------------------------------------------- update

  /** The first validation of `updateChecklist` that fails, if any: each runs only when its field is
      present (and, for a text, not empty). */
  function UpdateError(refs: References, patch: ChecklistPatch): (r: Option<ChecklistError>)
    ensures r.None? <==>
      && (Given(patch.clientId) ==> patch.clientId.value in refs.clients)
      && (Given(patch.locationId) ==> patch.locationId.value in refs.locations)
      && (Given(patch.typeId) ==> patch.typeId.value in refs.types)
      && (patch.assignedTo.Some? && Given(patch.assignedTo.value) ==> patch.assignedTo.value.value in refs.users)
      && (patch.items.Some? ==> |patch.items.value| > 0)
      && (Given(patch.periodicity) ==> patch.periodicity.value in Periodicities)
      && (patch.periodicity == Some("custom") ==> patch.customDays.Some? && |patch.customDays.value| > 0)
  {
    if Given(patch.clientId) && patch.clientId.value !in refs.clients then Some(ClientNotFound)
    else if Given(patch.locationId) && patch.locationId.value !in refs.locations then Some(LocationNotFound)
    else if Given(patch.typeId) && patch.typeId.value !in refs.types then Some(TypeNotFound)
    else if patch.assignedTo.Some? && Given(patch.assignedTo.value) && patch.assignedTo.value.value !in refs.users
    then Some(UserNotFound)
    else if patch.items.Some? && |patch.items.value| == 0 then Some(NoItems)
    else if Given(patch.periodicity) && patch.periodicity.value !in Periodicities then Some(InvalidPeriodicity)
    else if patch.periodicity == Some("custom") && (patch.customDays.None? || |patch.customDays.value| == 0)
    then Some(CustomWithoutDays)
    else None
  }

  /** Whether a request item keeps its own id (a non-empty one) or takes a fresh one. */
  predicate KeepsId(item: ItemInput) {
    Given(item.id)
  }

  /** How many items of a request need a fresh id. */
  function NewItemCount(items: seq<ItemInput>): (n: nat)
    ensures n <= |items|
  {
    if items == [] then 0
    else NewItemCount(items[..|items| - 1]) + (if KeepsId(items[|items| - 1]) then 0 else 1)
  }

  /** The items an update stores: an item that carries an id keeps it; the others take the fresh ids
      in order. */
  function StampItems(items: seq<ItemInput>, newIds: seq<Id>): (r: seq<Item>)
    requires |newIds| >= NewItemCount(items)
    ensures |r| == |items|
    ensures forall i :: 0 <= i < |items| ==>
      && r[i].description == items[i].description
      && r[i].requirePhoto == items[i].requirePhoto.GetOr(false)
      && (KeepsId(items[i]) ==> r[i].id == items[i].id.value)
      && (!KeepsId(items[i]) ==> NewItemCount(items[..i]) < |newIds| && r[i].id == newIds[NewItemCount(items[..i])])
  {
    if items == [] then []
    else
      var init := items[..|items| - 1];
      var last := items[|items| - 1];
      assert forall i :: 0 <= i < |init| ==> items[..i] == init[..i];
      assert items[..|items| - 1] == init;
      StampItems(init, newIds)
        + [Item(if KeepsId(last) then last.id.value else newIds[NewItemCount(init)],
                last.description, last.requirePhoto.GetOr(false))]
  }

  /** The record an update stores: present fields override, the items are replaced only when given. */
  function Merge(c: Checklist, patch: ChecklistPatch, items: seq<Item>): (r: Checklist)
    ensures r.id == c.id && r.items == items
    ensures (patch.title.Some? ==> r.title == patch.title.value) && (patch.title.None? ==> r.title == c.title)
    ensures (patch.description.Some? ==> r.description == patch.description.value) && (patch.description.None? ==> r.description == c.description)
    ensures (patch.clientId.Some? ==> r.clientId == patch.clientId.value) && (patch.clientId.None? ==> r.clientId == c.clientId)
    ensures (patch.locationId.Some? ==> r.locationId == patch.locationId.value) && (patch.locationId.None? ==> r.locationId == c.locationId)
    ensures (patch.typeId.Some? ==> r.typeId == patch.typeId.value) && (patch.typeId.None? ==> r.typeId == c.typeId)
    ensures (patch.assignedTo.Some? ==> r.assignedTo == patch.assignedTo.value) && (patch.assignedTo.None? ==> r.assignedTo == c.assignedTo)
    ensures (patch.periodicity.Some? ==> r.periodicity == patch.periodicity.value) && (patch.periodicity.None? ==> r.periodicity == c.periodicity)
    ensures (patch.customDays.Some? ==> r.customDays == patch.customDays.value) && (patch.customDays.None? ==> r.customDays == c.customDays)
    ensures (patch.requirePhotos.Some? ==> r.requirePhotos == patch.requirePhotos.value) && (patch.requirePhotos.None? ==> r.requirePhotos == c.requirePhotos)
    ensures (patch.active.Some? ==> r.active == patch.active.value) && (patch.active.None? ==> r.active == c.active)
    ensures (patch.qrCodePath.Some? ==> r.qrCodePath == patch.qrCodePath.value) && (patch.qrCodePath.None? ==> r.qrCodePath == c.qrCodePath)
    ensures (patch.validity.Some? ==> r.validity == patch.validity.value) && (patch.validity.None? ==> r.validity == c.validity)
    ensures (patch.time.Some? ==> r.time == patch.time.value) && (patch.time.None? ==> r.time == c.time)
  {
    Checklist(
      c.id,
      patch.title.GetOr(c.title),
      patch.description.GetOr(c.description),
      patch.clientId.GetOr(c.clientId),
      patch.locationId.GetOr(c.locationId),
      patch.typeId.GetOr(c.typeId),
      patch.assignedTo.GetOr(c.assignedTo),
      patch.periodicity.GetOr(c.periodicity),
      patch.customDays.GetOr(c.customDays),
      patch.requirePhotos.GetOr(c.requirePhotos),
      items,
      patch.active.GetOr(c.active),
      patch.qrCodePath.GetOr(c.qrCodePath),
      patch.validity.GetOr(c.validity),
      patch.time.GetOr(c.time))
  }

  /** The record `updateChecklist` writes for a valid patch. */
  function Updated(c: Checklist, patch: ChecklistPatch, newIds: seq<Id>): (r: Checklist)
    requires patch.items.Some? ==> |newIds| >= NewItemCount(patch.items.value)
    ensures r == Merge(c, patch, r.items)
    ensures patch.items.None? ==> r.items == c.items
    ensures patch.items.Some? ==> |r.items| == |patch.items.value|
    ensures patch.items.Some? ==> forall i :: 0 <= i < |r.items| && KeepsId(patch.items.value[i]) ==>
      r.items[i].id == patch.items.value[i].id.value
  {
    Merge(c, patch, if patch.items.Some? then StampItems(patch.items.value, newIds) else c.items)
  }

  /** An accepted update keeps a definition well formed unless the patch empties the periodicity
      (an empty text skips the check but still overwrites) or clears the days of a stored `custom`
      checklist without restating its periodicity. */
  lemma UpdateKeepsWellFormed(refs: References, c: Checklist, patch: ChecklistPatch, newIds: seq<Id>)
    requires WellFormed(c) && UpdateError(refs, patch).None?
    requires patch.items.Some? ==> |newIds| >= NewItemCount(patch.items.value)
    requires patch.periodicity != Some("")
    requires patch.customDays == Some([]) ==> patch.periodicity.Some?
    ensures WellFormed(Updated(c, patch, newIds))
    ensures Updated(c, patch, newIds).id == c.id
  {
  }

  /** The two gaps are real: each patch below passes validation and leaves a malformed record. */
  lemma UpdateGaps(refs: References, c: Checklist, newIds: seq<Id>)
    requires WellFormed(c) && c.periodicity == "custom"
    ensures var clear := ChecklistPatch(None, None, None, None, None, None, None, Some([]), None, None,
                                        None, None, None, None);
      UpdateError(refs, clear).None? && !WellFormed(Updated(c, clear, newIds))
    ensures var blank := ChecklistPatch(None, None, None, None, None, None, Some(""), None, None, None,
                                        None, None, None, None);
      UpdateError(refs, blank).None? && !WellFormed(Updated(c, blank, newIds))
  {
    assert "" !in Periodicities;
  }

  /** The ids an update gives to items are the ids they carry or distinct newIds ones. */
  lemma StampedIdsDistinct(items: seq<ItemInput>, newIds: seq<Id>, i: nat, j: nat)
    requires |newIds| >= NewItemCount(items)
    requires forall a, b :: 0 <= a < b < |newIds| ==> newIds[a] != newIds[b]
    requires i < j < |items| && !KeepsId(items[i]) && !KeepsId(items[j])
    ensures StampItems(items, newIds)[i].id != StampItems(items, newIds)[j].id
  {
    NewItemCountGrows(items, i, j);
  }

  lemma {:induction false} NewItemCountGrows(items: seq<ItemInput>, i: nat, j: nat)
    requires i < j <= |items| && !KeepsId(items[i])
    ensures NewItemCount(items[..i]) < NewItemCount(items[..j])
  {
    assert items[..j][..j - 1] == items[..j - 1];
    if j == i + 1 {
      assert items[..j][j - 1] == items[i];
    } else {
      NewItemCountGrows(items, i, j - 1);
    }
  }

  // ---------------------------------------------------------------- delete and toggle

  /** `deleteChecklist`'s filtered copy: every record with that id removed. */
  function WithoutId(list: seq<Checklist>, id: Id): seq<Checklist> {
    Filter(list, (c: Checklist) => c.id != id)
  }

  /** The filtered copy is shorter exactly when some record had the id; it keeps every other record. */
  lemma DeleteRemovesExactly(list: seq<Checklist>, id: Id)
    ensures |WithoutId(list, id)| < |list| <==> exists i :: 0 <= i < |list| && list[i].id == id
    ensures forall c :: c in WithoutId(list, id) <==> c in list && c.id != id
  {
    FilterKeepsAll(list, (c: Checklist) => c.id != id);
  }

  /** `toggleChecklistStatus`: the first record with the id has `active` negated. */
  function Toggled(list: seq<Checklist>, i: nat): (r: seq<Checklist>)
    requires i < |list|
    ensures |r| == |list|
    ensures r[i] == list[i].(active := !list[i].active)
    ensures forall k :: 0 <= k < |list| && k != i ==> r[k] == list[k]
  {
    list[i := list[i].(active := !list[i].active)]
  }

  // ---------------------------------------------------------------- the store

  class ChecklistStore {
    var checklists: seq<Checklist>

    constructor (initial: seq<Checklist>)
      ensures checklists == initial
    {
      checklists := initial;
    }

    /** `createChecklist`. `ids` are the fresh ids the id generator hands out, the checklist's first. */
    method CreateChecklist(refs: References, data: ChecklistInput, ids: seq<Id>)
      returns (r: Result<Checklist, ChecklistError>)
      requires data.items.Some? ==> |ids| == |data.items.value| + 1
      requires forall k, i :: 0 <= k < |checklists| && 0 <= i < |ids| ==> checklists[k].id != ids[i]
      modifies this
      ensures CreateError(refs, data).Some? ==>
        r == Failure(CreateError(refs, data).value) && checklists == old(checklists)
      ensures CreateError(refs, data).None? ==>
        r == Success(NewChecklist(data, ids)) && checklists == old(checklists) + [r.value]
      ensures UniqueIds(old(checklists)) ==> UniqueIds(checklists)
    {
      if data.clientId != "" && data.clientId !in refs.clients { return Failure(ClientNotFound); }
      if data.locationId != "" && data.locationId !in refs.locations { return Failure(LocationNotFound); }
      if data.typeId != "" && data.typeId !in refs.types { return Failure(TypeNotFound); }
      if data.assignedTo != "" && data.assignedTo !in refs.users { return Failure(UserNotFound); }
      if data.items.None? || |data.items.value| == 0 { return Failure(NoItems); }
      if data.periodicity !in Periodicities { return Failure(InvalidPeriodicity); }
      if data.periodicity == "custom" && (data.customDays.None? || |data.customDays.value| == 0) {
        return Failure(CustomWithoutDays);
      }
      var c := NewChecklist(data, ids);
      if UniqueIds(checklists) {
        AppendKeepsDistinct(checklists, IdOf, c);
      }
      checklists := checklists + [c];
      r := Success(c);
    }

    /** `updateChecklist`: Success(None) is the `null` of an unknown id. `newIds` are the ids the id
        generator hands out for items sent without one. */
    method UpdateChecklist(refs: References, id: Id, patch: ChecklistPatch, newIds: seq<Id>)
      returns (r: Result<Option<Checklist>, ChecklistError>)
      requires patch.items.Some? ==> |newIds| >= NewItemCount(patch.items.value)
      modifies this
      ensures var i := FirstIndex(old(checklists), (c: Checklist) => c.id == id);
        if i == |old(checklists)| then r == Success(None) && checklists == old(checklists)
        else if UpdateError(refs, patch).Some? then
          r == Failure(UpdateError(refs, patch).value) && checklists == old(checklists)
        else
          var u := Updated(old(checklists)[i], patch, newIds);
          r == Success(Some(u)) && checklists == old(checklists)[i := u]
      ensures UniqueIds(old(checklists)) ==> UniqueIds(checklists)
    {
      var i := FirstIndex(checklists, (c: Checklist) => c.id == id);
      if i == |checklists| { return Success(None); }
      var e := UpdateError(refs, patch);
      if e.Some? { return Failure(e.value); }
      var updatedItems := checklists[i].items;
      if patch.items.Some? {
        updatedItems := StampItems(patch.items.value, newIds);
      }
      var u := Merge(checklists[i], patch, updatedItems);
      if UniqueIds(checklists) {
        ReplaceKeepsDistinct(checklists, IdOf, i, u);
      }
      checklists := checklists[i := u];
      r := Success(Some(u));
    }

    /** `deleteChecklist`: true, and every record with the id gone, when there was one. */
    method DeleteChecklist(id: Id) returns (deleted: bool)
      modifies this
      ensures deleted <==> exists i :: 0 <= i < |old(checklists)| && old(checklists)[i].id == id
      ensures checklists == WithoutId(old(checklists), id)
      ensures UniqueIds(old(checklists)) ==> UniqueIds(checklists)
    {
      var filtered := WithoutId(checklists, id);
      DeleteRemovesExactly(checklists, id);
      if |filtered| == |checklists| {
        FilterKeepsAll(checklists, (c: Checklist) => c.id != id);
        assert filtered == checklists by {
          FilterIdentity(checklists, (c: Checklist) => c.id != id);
        }
        return false;
      }
      if UniqueIds(checklists) {
        FilterKeepsDistinct(checklists, IdOf, (c: Checklist) => c.id != id);
      }
      checklists := filtered;
      return true;
    }

    /** `toggleChecklistStatus`: None for an unknown id, otherwise the first match with `active` negated. */
    method ToggleChecklistStatus(id: Id) returns (r: Option<Checklist>)
      modifies this
      ensures var i := FirstIndex(old(checklists), (c: Checklist) => c.id == id);
        if i == |old(checklists)| then r == None && checklists == old(checklists)
        else checklists == Toggled(old(checklists), i) && r == Some(checklists[i])
      ensures UniqueIds(old(checklists)) ==> UniqueIds(checklists)
    {
      var i := FirstIndex(checklists, (c: Checklist) => c.id == id);
      if i == |checklists| { return None; }
      if UniqueIds(checklists) {
        ReplaceKeepsDistinct(checklists, IdOf, i, checklists[i].(active := !checklists[i].active));
      }
      checklists := Toggled(checklists, i);
      r := Some(checklists[i]);
    }
  }
}
