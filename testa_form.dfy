/** The second checklist administration page (pages/admin/testa-checklists.js): the same form with
    no validity or time field, its own reducers, lighter checks before a save, and the lookups that
    turn ids into names in the table. Ids are compared as text. */
module TestChecklistForm {
  import opened Wrappers
  import opened Text
  import opened Seqs
  import opened Checklists
  import Admin = AdminChecklistForm
  import Clients
  import Locations
  import ChecklistTypes
  import Users

  /** The form state of this page. */
  datatype TestFormData = TestFormData(
    id: Id, title: string, description: string, clientId: Id, locationId: Id, typeId: Id,
    assignedTo: Id, periodicity: string, customDays: seq<int>, requirePhotos: bool,
    items: seq<Admin.FormItem>, active: bool)

  /** The periodicity choices of this page: the ones the catalog accepts, without `loose`. */
  const PeriodicityOptions: seq<string> := ["daily", "weekly", "monthly", "quarterly", "semiannual", "annual", "custom"]

  /** The value of each weekday checkbox, Sunday first. */
  const WeekDays: seq<int> := [0, 1, 2, 3, 4, 5, 6]

  /** Every choice offered is one the catalog accepts, and each weekday box carries its own number. */
  lemma OptionsAccepted()
    ensures forall o :: o in PeriodicityOptions ==> o in Periodicities
    ensures "loose" !in PeriodicityOptions
    ensures forall i :: 0 <= i < |WeekDays| ==> WeekDays[i] == i
  {
  }

  /** `handleCustomDayChange`: checking appends a day that is not there yet, unchecking removes every
      occurrence; the order of the other days is kept (see UncheckKeepsOrder). */
  function ToggleCustomDay(days: seq<int>, day: int, checked: bool): (r: seq<int>)
    ensures checked && day in days ==> r == days
    ensures checked && day !in days ==> r == days + [day]
    ensures !checked ==> multiset(r) == multiset(days)[day := 0]
  {
    if checked then
      if day in days then days else days + [day]
    else
      Admin.FilterOutDay(days, day);
      Filter(days, Admin.NotDay(day))
  }

  /** Unchecking keeps the other days in their order: it works element by element over the list,
      dropping exactly the occurrences of the day. */
  lemma UncheckKeepsOrder(a: seq<int>, b: seq<int>, day: int, x: int)
    ensures ToggleCustomDay(a + b, day, false) == ToggleCustomDay(a, day, false) + ToggleCustomDay(b, day, false)
    ensures ToggleCustomDay([x], day, false) == if x == day then [] else [x]
  {
    FilterConcat(a, b, Admin.NotDay(day));
  }

  /** A list without repeated days keeps that property. */
  lemma ToggleKeepsDaysDistinct(days: seq<int>, day: int, checked: bool)
    requires DistinctKeys(days, (d: int) => d)
    ensures DistinctKeys(ToggleCustomDay(days, day, checked), (d: int) => d)
  {
    if checked && day !in days {
      AppendKeepsDistinct(days, (d: int) => d, day);
    } else if !checked {
      FilterKeepsDistinct(days, (d: int) => d, Admin.NotDay(day));
    }
  }

  /** Both pages select the same days; the administration page also sorts them. */
  lemma SameDaysAsAdminPage(days: seq<int>, day: int, checked: bool)
    ensures multiset(Admin.ToggleCustomDay(days, day, checked)) == multiset(ToggleCustomDay(days, day, checked))
    ensures Admin.Sorted(Admin.ToggleCustomDay(days, day, checked))
  {
  }

  /** `handleRemoveItem`: refused while one item or none is left; otherwise `splice(index, 1)`. */
  function RemoveItem(items: seq<Admin.FormItem>, index: nat): (r: Result<seq<Admin.FormItem>, string>)
    ensures r == Admin.RemoveItem(items, index)
  {
    if |items| <= 1 then Failure("O checklist deve ter pelo menos um item")
    else if index < |items| then Success(items[..index] + items[index + 1..])
    else Success(items)
  }

  /** `handleEdit`: the stored items are taken as they are, even when there are none. */
  function EditForm(c: Checklist): TestFormData {
    TestFormData(
      c.id, c.title, c.description, c.clientId, c.locationId, c.typeId,
      if c.assignedTo.Some? then c.assignedTo.value else "",
      c.periodicity, c.customDays, c.requirePhotos,
      seq(|c.items|, i requires 0 <= i < |c.items| => Admin.ToFormItem(c.items[i])),
      c.active)
  }

  /** The checks before a save: required fields, described items, days for `custom`; nothing about
      validity or time. */
  function SubmitError(f: TestFormData): Option<Admin.FormError> {
    if f.title == "" || f.clientId == "" || f.locationId == "" || f.typeId == "" || f.periodicity == "" then
      Some(Admin.MissingRequired)
    else if |f.items| == 0 || exists i :: 0 <= i < |f.items| && IsBlank(f.items[i].description) then
      Some(Admin.ItemWithoutDescription)
    else if f.periodicity == "custom" && |f.customDays| == 0 then Some(Admin.NoCustomDays)
    else None
  }

  /** The same form on the administration page, with a validity and a time filled in. */
  function WithSchedule(f: TestFormData, validity: string, time: string): Admin.FormData {
    Admin.FormData(
      f.id, f.title, f.description, f.clientId, f.locationId, f.typeId, f.assignedTo, f.periodicity,
      f.customDays, f.requirePhotos, f.items, f.active, validity, time)
  }

  /** This page refuses a form exactly when the administration page refuses it for a reason other
      than a missing validity or time, and with the same reason. */
  lemma LighterThanAdminPage(f: TestFormData, validity: string, time: string)
    ensures var e := Admin.SubmitError(WithSchedule(f, validity, time));
      SubmitError(f) == (if e == Some(Admin.MissingValidity) || e == Some(Admin.MissingTime) then None else e)
  {
  }

  /** A checklist stored with no items opens with no item rows, and this page then refuses to save
      it until one is added. */
  lemma EmptyChecklistBlocksSave(c: Checklist)
    requires c.items == [] && c.title != "" && c.clientId != "" && c.locationId != "" && c.typeId != ""
    requires c.periodicity != ""
    ensures EditForm(c).items == []
    ensures SubmitError(EditForm(c)) == Some(Admin.ItemWithoutDescription)
    ensures |Admin.EditForm(c).items| == 1
  {
  }

  // ---------------------------------------------------------------- names in the table

  function ClientWithId(id: Id): Clients.Client -> bool { (c: Clients.Client) => c.id == id }
  function LocationWithId(id: Id): Locations.Location -> bool { (l: Locations.Location) => l.id == id }
  function TypeWithId(id: Id): ChecklistTypes.ChecklistType -> bool { (t: ChecklistTypes.ChecklistType) => t.id == id }
  function UserWithId(id: Id): Users.PublicUser -> bool { (u: Users.PublicUser) => u.id == id }

  /** `getClientName`: the name of the first client with the id, or a fixed text. */
  function ClientName(clients: seq<Clients.Client>, id: Id): (r: string)
    ensures forall k :: (0 <= k < |clients| && clients[k].id == id && (forall j :: 0 <= j < k ==> clients[j].id != id)
      ==> r == clients[k].name)
    ensures (forall k :: 0 <= k < |clients| ==> clients[k].id != id) ==> r == "Cliente não encontrado"
  {
    var i := FirstIndex(clients, ClientWithId(id));
    if i < |clients| then clients[i].name else "Cliente não encontrado"
  }

  /** `getLocationName`. */
  function LocationName(locations: seq<Locations.Location>, id: Id): (r: string)
    ensures forall k :: (0 <= k < |locations| && locations[k].id == id && (forall j :: 0 <= j < k ==> locations[j].id != id)
      ==> r == locations[k].name)
    ensures (forall k :: 0 <= k < |locations| ==> locations[k].id != id) ==> r == "Local não encontrado"
  {
    var i := FirstIndex(locations, LocationWithId(id));
    if i < |locations| then locations[i].name else "Local não encontrado"
  }

  /** `getChecklistTypeName`. */
  function TypeName(types: seq<ChecklistTypes.ChecklistType>, id: Id): (r: string)
    ensures forall k :: (0 <= k < |types| && types[k].id == id && (forall j :: 0 <= j < k ==> types[j].id != id)
      ==> r == types[k].name)
    ensures (forall k :: 0 <= k < |types| ==> types[k].id != id) ==> r == "Tipo não encontrado"
  {
    var i := FirstIndex(types, TypeWithId(id));
    if i < |types| then types[i].name else "Tipo não encontrado"
  }

  /** `getUserName`: "N/A" for an empty id, else the first user's name or a fixed text. */
  function UserName(users: seq<Users.PublicUser>, id: Id): (r: string)
    ensures id == "" ==> r == "N/A"
    ensures id != "" ==> forall k :: (0 <= k < |users| && users[k].id == id && (forall j :: 0 <= j < k ==> users[j].id != id)
      ==> r == users[k].name)
    ensures id != "" && (forall k :: 0 <= k < |users| ==> users[k].id != id) ==> r == "Usuário não encontrado"
  {
    var i := FirstIndex(users, UserWithId(id));
    if id == "" then "N/A"
    else if i < |users| then users[i].name
    else "Usuário não encontrado"
  }

  /** Over a client list with distinct ids, as the client store keeps it, the table shows the name of
      the one client that has the id. */
  lemma StoredClientName(clients: seq<Clients.Client>, i: nat)
    requires DistinctKeys(clients, Clients.IdOf)
    requires i < |clients|
    ensures ClientName(clients, clients[i].id) == clients[i].name
  {
    forall j | 0 <= j < i ensures clients[j].id != clients[i].id {
      assert Clients.IdOf(clients[j]) != Clients.IdOf(clients[i]);
    }
  }
}
