/** The checklist form of the administration page (pages/admin/checklists.js): the reducers that
    edit the form state, the form a stored checklist opens as, and the checks run before a save. */
module AdminChecklistForm {
  import opened Wrappers
  import opened Text
  import opened Seqs
  import opened Calendar
  import opened Checklists
  import ChecklistsApi

  /** One item row of the form; an item loaded from a stored checklist keeps its id. */
  datatype FormItem = FormItem(id: Option<Id>, description: string, requirePhoto: bool)

  /** The form state ("" for an empty text field). */
  datatype FormData = FormData(
    id: Id, title: string, description: string, clientId: Id, locationId: Id, typeId: Id,
    assignedTo: Id, periodicity: string, customDays: seq<int>, requirePhotos: bool,
    items: seq<FormItem>, active: bool, validity: string, time: string)

  /** The first check `handleSubmit` finds failing. */
  datatype FormError = MissingRequired | ItemWithoutDescription | NoCustomDays | MissingValidity | MissingTime

  /** One edit of an item row. */
  datatype ItemEdit = SetDescription(description: string) | SetRequirePhoto(requirePhoto: bool)

  const BlankItem: FormItem := FormItem(None, "", false)

  /** The periodicity choices the page offers, `loose` among them. */
  const PeriodicityOptions: seq<string> :=
    ["loose", "daily", "weekly", "monthly", "quarterly", "semiannual", "annual", "custom"]

  /** The value each weekday checkbox carries, Sunday first: every day from Monday to Saturday
      carries 1. */
  const WeekDays: seq<int> := [0, 1, 1, 1, 1, 1, 1]

  // ---------------------------------------------------------------- custom days

  predicate Sorted(s: seq<int>) {
    forall i, j :: 0 <= i < j < |s| ==> s[i] <= s[j]
  }

  function Insert(x: int, s: seq<int>): (r: seq<int>)
    requires Sorted(s)
    ensures Sorted(r) && multiset(r) == multiset(s) + multiset{x}
    ensures r[0] == (if s == [] || x <= s[0] then x else s[0])
  {
    if s == [] then [x]
    else if x <= s[0] then [x] + s
    else
      var rest := Insert(x, s[1..]);
      assert s == [s[0]] + s[1..];
      assert s[0] <= rest[0];
      [s[0]] + rest
  }

  /** `sort((a, b) => a - b)`: ascending, the same days as before. */
  function SortDays(s: seq<int>): (r: seq<int>)
    ensures Sorted(r) && multiset(r) == multiset(s)
  {
    if s == [] then []
    else
      assert s == [s[0]] + s[1..];
      Insert(s[0], SortDays(s[1..]))
  }

  function NotDay(day: int): int -> bool {
    (d: int) => d != day
  }

  /** Dropping every occurrence of a day removes exactly that day from the multiset of days. */
  lemma {:induction false} FilterOutDay(s: seq<int>, day: int)
    ensures multiset(Filter(s, NotDay(day))) == multiset(s)[day := 0]
  {
    if s != [] {
      var rest := s[1..];
      FilterOutDay(rest, day);
      assert s == [s[0]] + rest;
      assert multiset(s) == multiset{s[0]} + multiset(rest);
      if s[0] == day {
        assert Filter(s, NotDay(day)) == Filter(rest, NotDay(day));
      } else {
        assert Filter(s, NotDay(day)) == [s[0]] + Filter(rest, NotDay(day));
      }
    }
  }

  /** `handleCustomDayChange`: checking a day adds it unless it is already there, unchecking removes
      every occurrence, and the result is sorted. */
  function ToggleCustomDay(days: seq<int>, day: int, checked: bool): (r: seq<int>)
    ensures Sorted(r)
    ensures checked ==> multiset(r) == multiset(days) + (if day in days then multiset{} else multiset{day})
    ensures !checked ==> multiset(r) == multiset(days)[day := 0]
  {
    if checked then
      SortDays(if day in days then days else days + [day])
    else
      FilterOutDay(days, day);
      SortDays(Filter(days, NotDay(day)))
  }

  /** Checking a day puts it in the list, unchecking takes it out, and no other day is affected. */
  lemma ToggleMembership(days: seq<int>, day: int, checked: bool, other: int)
    requires other != day
    ensures (day in ToggleCustomDay(days, day, checked)) == checked
    ensures (other in ToggleCustomDay(days, day, checked)) == (other in days)
  {
    var r := ToggleCustomDay(days, day, checked);
    assert day in r <==> day in multiset(r);
    assert other in r <==> other in multiset(r);
  }

  /** Toggling a day from a set of allowed values keeps every day within that set. */
  lemma ToggleStaysWithin(days: seq<int>, day: int, checked: bool, allowed: set<int>)
    requires day in allowed
    requires forall d :: d in days ==> d in allowed
    ensures forall d :: d in ToggleCustomDay(days, day, checked) ==> d in allowed
  {
    var r := ToggleCustomDay(days, day, checked);
    forall d | d in r ensures d in allowed {
      assert d in multiset(r);
      if d != day {
        assert d in multiset(days);
      }
    }
  }

  /** Custom days picked through the weekday boxes are only ever 0 and 1. */
  lemma CustomDaysStayBinary(days: seq<int>, box: nat, checked: bool)
    requires box < |WeekDays|
    requires forall d :: d in days ==> d == 0 || d == 1
    ensures forall d :: d in ToggleCustomDay(days, WeekDays[box], checked) ==> d == 0 || d == 1
  {
    assert WeekDays[box] in {0, 1};
    ToggleStaysWithin(days, WeekDays[box], checked, {0, 1});
  }

  /** Ticking Tuesday and then unticking Saturday leaves no day selected. */
  lemma WeekdayBoxesCollide()
    ensures ToggleCustomDay(ToggleCustomDay([], WeekDays[2], true), WeekDays[6], false) == []
  {
    var once := ToggleCustomDay([], WeekDays[2], true);
    assert multiset(once) == multiset{1};
    var twice := ToggleCustomDay(once, WeekDays[6], false);
    assert multiset(twice) == multiset{};
  }

  // ---------------------------------------------------------------- items

  /** `handleAddItem`: one blank row at the end. */
  function AddItem(items: seq<FormItem>): (r: seq<FormItem>)
    ensures |r| == |items| + 1 && r[..|items|] == items && r[|items|] == BlankItem
  {
    items + [BlankItem]
  }

  /** `filter((_, i) => i !== index)`. */
  function WithoutIndex<T>(s: seq<T>, index: nat): (r: seq<T>)
    ensures index < |s| ==> r == s[..index] + s[index + 1..]
    ensures index >= |s| ==> r == s
  {
    if s == [] then []
    else
      var init := s[..|s| - 1];
      var rest := WithoutIndex(init, index);
      if index == |s| - 1 then
        assert init == s[..index];
        rest
      else
        assert index < |init| ==> init[..index] == s[..index] && init[index + 1..] + [s[|s| - 1]] == s[index + 1..];
        rest + [s[|s| - 1]]
  }

  /** `handleRemoveItem`: refused while one item or none is left (the items stay as they are and the
      message is shown); otherwise exactly the row at `index` goes. */
  function RemoveItem(items: seq<FormItem>, index: nat): (r: Result<seq<FormItem>, string>)
    ensures r.Failure? <==> |items| <= 1
    ensures r.Success? ==> |r.value| == (if index < |items| then |items| - 1 else |items|)
    ensures r.Success? && index < |items| ==>
      (forall k :: 0 <= k < index ==> r.value[k] == items[k])
      && (forall k :: index <= k < |r.value| ==> r.value[k] == items[k + 1])
  {
    if |items| <= 1 then Failure("O checklist deve ter pelo menos um item")
    else Success(WithoutIndex(items, index))
  }

  /** Removing the row just added gives back the rows there were. */
  lemma RemoveUndoesAdd(items: seq<FormItem>)
    requires items != []
    ensures RemoveItem(AddItem(items), |items|) == Success(items)
  {
    assert AddItem(items)[..|items|] == items;
  }

  /** `handleItemChange`: the edited field of the row at `index` takes the value; the row's other
      field and every other row stay. */
  function ChangeItem(items: seq<FormItem>, index: nat, edit: ItemEdit): (r: seq<FormItem>)
    requires index < |items|
    ensures |r| == |items| && r[index].id == items[index].id
    ensures forall k :: 0 <= k < |items| && k != index ==> r[k] == items[k]
    ensures edit.SetDescription? ==> r[index].description == edit.description && r[index].requirePhoto == items[index].requirePhoto
    ensures edit.SetRequirePhoto? ==> r[index].requirePhoto == edit.requirePhoto && r[index].description == items[index].description
  {
    var item := items[index];
    items[index := match edit
      case SetDescription(d) => item.(description := d)
      case SetRequirePhoto(p) => item.(requirePhoto := p)]
  }

  // ---------------------------------------------------------------- opening a checklist

  function ToFormItem(item: Item): FormItem {
    FormItem(Some(item.id), item.description, item.requirePhoto)
  }

  /** `handleEdit`: the form a stored checklist opens as. */
  function EditForm(c: Checklist): FormData {
    FormData(
      c.id, c.title, c.description, c.clientId, c.locationId, c.typeId,
      if c.assignedTo.Some? then c.assignedTo.value else "",
      c.periodicity, c.customDays, c.requirePhotos,
      if |c.items| > 0 then seq(|c.items|, i requires 0 <= i < |c.items| => ToFormItem(c.items[i])) else [BlankItem],
      c.active,
      if c.validity != "" then BeforeFirst(c.validity, 'T') else "",
      c.time)
  }

  /** The opened form always has an item row, keeps every stored item with its id, shows an
      unassigned checklist as "" and keeps only the date of the validity. */
  lemma EditFormShape(c: Checklist)
    ensures var f := EditForm(c);
      |f.items| >= 1
      && (|c.items| > 0 ==> |f.items| == |c.items| && forall i :: 0 <= i < |c.items| ==> f.items[i].id == Some(c.items[i].id))
      && (c.assignedTo.None? ==> f.assignedTo == "")
      && 'T' !in f.validity && f.validity <= c.validity
  {
  }

  /** A validity stored as `toISOString` text opens as its date alone, which reads back as midnight
      of that date, so a save of the opened form would send that day's midnight as the validity. */
  lemma EditKeepsDateOnly(c: Checklist, date: Civil, hours: nat, minutes: nat, seconds: nat, millis: nat)
    requires 0 <= date.year <= 9999 && 1 <= date.month <= 12 && 1 <= date.day <= 31
    requires hours <= 23 && minutes <= 59 && seconds <= 59 && millis <= 999
    requires c.validity == FormatIso(date, hours, minutes, seconds, millis)
    ensures EditForm(c).validity == FormatDate(date)
    ensures ParseInstant(EditForm(c).validity) == Some(DaysFromCivil(date.year, date.month, date.day) * MsPerDay)
  {
    var d := FormatDate(date);
    DateFields(date);
    assert forall j :: 0 <= j < 10 ==> c.validity[j] == d[j];
    assert forall j :: 0 <= j < 10 ==> d[j] != 'T' by {
      assert AllDigits(d[0..4]) && AllDigits(d[5..7]) && AllDigits(d[8..10]);
      forall j | 0 <= j < 10 ensures d[j] != 'T' {
        if j < 4 { assert d[0..4][j] == d[j]; }
        else if 5 <= j < 7 { assert d[5..7][j - 5] == d[j]; }
        else if 8 <= j { assert d[8..10][j - 8] == d[j]; }
      }
    }
    assert c.validity[10] == 'T';
    assert IndexOf(c.validity, 'T') == 10;
    assert c.validity[..10] == d;
    ParseFormatDate(date);
  }

  // ---------------------------------------------------------------- saving

  /** `handleSubmit`'s checks, in order; a failing one stops the save before any request. */
  function SubmitError(f: FormData): Option<FormError> {
    if f.title == "" || f.clientId == "" || f.locationId == "" || f.typeId == "" || f.periodicity == "" then
      Some(MissingRequired)
    else if |f.items| == 0 || exists i :: 0 <= i < |f.items| && IsBlank(f.items[i].description) then
      Some(ItemWithoutDescription)
    else if f.periodicity == "custom" && |f.customDays| == 0 then Some(NoCustomDays)
    else if f.periodicity != "loose" && f.validity == "" then Some(MissingValidity)
    else if f.periodicity != "loose" && f.time == "" then Some(MissingTime)
    else None
  }

  /** A form is let through exactly when every check passes; a refusal names the first failing one. */
  lemma SubmitAcceptsExactly(f: FormData)
    ensures SubmitError(f).None? <==>
      && f.title != "" && f.clientId != "" && f.locationId != "" && f.typeId != "" && f.periodicity != ""
      && |f.items| > 0 && (forall i :: 0 <= i < |f.items| ==> !IsBlank(f.items[i].description))
      && (f.periodicity == "custom" ==> |f.customDays| > 0)
      && (f.periodicity != "loose" ==> f.validity != "" && f.time != "")
    ensures SubmitError(f) == Some(MissingValidity) ==> f.periodicity != "loose" && f.validity == "" && |f.items| > 0
    ensures SubmitError(f) == Some(MissingTime) ==> f.periodicity != "loose" && f.validity != "" && f.time == ""
  {
  }

  function ToItemInput(item: FormItem): ItemInput {
    ItemInput(item.id, item.description, Some(item.requirePhoto))
  }

  /** The request body a form is sent as; `validityIso` is the `toISOString` text of the chosen date
      (or "" when none was chosen). */
  function Body(f: FormData, validityIso: string): ChecklistInput {
    ChecklistInput(
      f.title, f.description, f.clientId, f.locationId, f.typeId, f.assignedTo, f.periodicity,
      Some(f.customDays), Some(f.requirePhotos),
      Some(seq(|f.items|, i requires 0 <= i < |f.items| => ToItemInput(f.items[i]))),
      validityIso, f.time)
  }

  /** A form the page lets through has a title, references, a periodicity and described items, and
      unless it is `loose` a validity and a time: the only place these two are required. Its body
      passes the server's required-field gate, and the server can refuse it only for a missing
      reference or for its periodicity, never for its items or its custom days. */
  lemma AcceptedFormPassesServer(f: FormData, validityIso: string, refs: References)
    requires SubmitError(f).None?
    ensures f.title != "" && |f.items| > 0 && forall i :: 0 <= i < |f.items| ==> !IsBlank(f.items[i].description)
    ensures f.periodicity != "loose" ==> f.validity != "" && f.time != ""
    ensures ChecklistsApi.HasRequiredFields(Body(f, validityIso))
    ensures CreateError(refs, Body(f, validityIso)) !in {Some(NoItems), Some(CustomWithoutDays)}
  {
  }

  /** The page offers `loose`, which the server's catalog never accepts on creation. */
  lemma LooseOptionRefused(f: FormData, validityIso: string, refs: References)
    requires f.periodicity == PeriodicityOptions[0]
    ensures CreateError(refs, Body(f, validityIso)).Some?
  {
    CreateRejectsLoose(refs, Body(f, validityIso));
  }
}
