/** The administrator's day plan (pages/admin/executados.js): which checklists a chosen date and
    technician bring up, and how each row is shown. Dates are read with the same ISO parser the
    evaluator uses; the local calendar is the UTC one. */
module DayPlan {
  import opened Wrappers
  import opened Seqs
  import opened Calendar
  import opened Checklists

  /** A checklist as the listing hands it over, with the optional extra fields the page reads
      ("" and false stand for absent). */
  datatype PlanInput = PlanInput(checklist: Checklist, scheduledDate: string, executed: bool, executedAt: string)

  /** A row of the plan. */
  datatype PlanRow = PlanRow(checklist: Checklist, executed: bool, executedAt: Option<string>, scheduledDate: string)

  /** The CSS class of a row. */
  datatype RowClass = ExecutedRow | PendingRow

  /** Whether a checklist of `periodicity` belongs on the plan of `target` (an invalid date is None),
      judged against today. */
  function ShouldExecuteToday(periodicity: string, target: Option<int>, now: int): (r: bool)
    ensures periodicity == "daily" ==> r
    ensures periodicity == "loose" ==> !r
    ensures periodicity !in {"daily", "weekly", "monthly", "loose"} ==> r
    ensures target.None? ==> (r <==> periodicity !in {"weekly", "monthly", "loose"})
    ensures periodicity == "weekly" && r ==> Weekday(DayOf(target.value)) == Weekday(DayOf(now))
  {
    match periodicity
    case "daily" => true
    case "weekly" => target.Some? && Weekday(DayOf(target.value)) == Weekday(DayOf(now))
    case "monthly" => target.Some? && CivilFromDays(DayOf(target.value)).day == CivilFromDays(DayOf(now)).day
    case "loose" => false
    case _ => true
  }

  /** Two days share a weekday exactly when they are a whole number of weeks apart. */
  lemma SameWeekdayIff(a: int, b: int)
    ensures Weekday(a) == Weekday(b) <==> (a - b) % 7 == 0
  {
    var qa, qb := (a + 4) / 7, (b + 4) / 7;
    assert a + 4 == 7 * qa + Weekday(a);
    assert b + 4 == 7 * qb + Weekday(b);
    assert a - b == 7 * (qa - qb) + (Weekday(a) - Weekday(b));
    if (a - b) % 7 == 0 {
      var q := (a - b) / 7;
      assert a - b == 7 * q;
      assert Weekday(a) - Weekday(b) == 7 * (q - qa + qb);
    }
  }

  /** A weekly checklist is planned on the dates a whole number of weeks from today, a monthly one
      on the dates sharing today's day of the month, a daily one on every date, a loose one on none, and a periodicity the switch does not list on every date. */
  lemma PlannedDates(periodicity: string, target: int, now: int)
    ensures periodicity == "weekly" ==>
      (ShouldExecuteToday(periodicity, Some(target), now) <==> (DayOf(target) - DayOf(now)) % 7 == 0)
    ensures periodicity == "monthly" ==>
      (ShouldExecuteToday(periodicity, Some(target), now) <==> CivilFromDays(DayOf(target)).day == CivilFromDays(DayOf(now)).day)
    ensures periodicity == "daily" ==> ShouldExecuteToday(periodicity, Some(target), now)
    ensures periodicity == "loose" ==> !ShouldExecuteToday(periodicity, Some(target), now)
    ensures periodicity !in {"daily", "weekly", "monthly", "loose"} ==> ShouldExecuteToday(periodicity, Some(target), now)
  {
    SameWeekdayIff(DayOf(target), DayOf(now));
  }

  /** Every checklist except a loose one is planned for today, and an invalid date plans only daily
      checklists and the unlisted periodicities. */
  lemma TodayAndInvalidDate(periodicity: string, target: int, now: int)
    requires DayOf(target) == DayOf(now)
    ensures ShouldExecuteToday(periodicity, Some(target), now) <==> periodicity != "loose"
    ensures ShouldExecuteToday(periodicity, None, now) <==> periodicity !in {"weekly", "monthly", "loose"}
  {
  }

  /** `toDateString` of two dates agree: both invalid, or both on the same day. */
  predicate SameDateString(a: Option<int>, b: Option<int>) {
    (a.None? && b.None?) || (a.Some? && b.Some? && DayOf(a.value) == DayOf(b.value))
  }

  /** The date filter: a checklist with its own date is kept when it falls on the selected date,
      any other one when its periodicity plans it for that date. */
  function OnDate(selectedDate: string, now: int): PlanInput -> bool {
    (x: PlanInput) =>
      if x.scheduledDate != "" then SameDateString(ParseInstant(x.scheduledDate), ParseInstant(selectedDate))
      else ShouldExecuteToday(x.checklist.periodicity, ParseInstant(selectedDate), now)
  }

  function AssignedTo(technicianId: string): PlanInput -> bool {
    (x: PlanInput) => x.checklist.assignedTo == Some(technicianId)
  }

  /** Today falls in a year `toISOString` writes with four digits. */
  predicate FourDigitYear(now: int) {
    0 <= CivilFromDays(DayOf(now)).year <= 9999
  }

  /** The date the rows carry: the selected one, or today's `YYYY-MM-DD`. */
  function RowDate(selectedDate: string, now: int): string
    requires selectedDate != "" || FourDigitYear(now)
  {
    if selectedDate != "" then selectedDate else FormatDate(CivilFromDays(DayOf(now)))
  }

  function Decorate(x: PlanInput, selectedDate: string, now: int): PlanRow
    requires selectedDate != "" || FourDigitYear(now)
  {
    PlanRow(x.checklist, x.executed, if x.executedAt != "" then Some(x.executedAt) else None, RowDate(selectedDate, now))
  }

  /** The inputs that survive the date filter (when a date is selected) and then the technician
      filter (when a technician is selected). */
  function Kept(data: seq<PlanInput>, selectedDate: string, technicianId: string, now: int): seq<PlanInput> {
    var byDate := if selectedDate != "" then Filter(data, OnDate(selectedDate, now)) else data;
    if technicianId != "" then Filter(byDate, AssignedTo(technicianId)) else byDate
  }

  /** The plan `fetchChecklists` stores. */
  function Plan(data: seq<PlanInput>, selectedDate: string, technicianId: string, now: int): (r: seq<PlanRow>)
    requires selectedDate != "" || FourDigitYear(now)
    ensures var kept := Kept(data, selectedDate, technicianId, now);
      |r| == |kept| && forall i :: 0 <= i < |r| ==>
        && r[i].checklist == kept[i].checklist
        && r[i].executed == kept[i].executed
        && (kept[i].executedAt == "" ==> r[i].executedAt.None?)
        && (kept[i].executedAt != "" ==> r[i].executedAt == Some(kept[i].executedAt))
        && (selectedDate != "" ==> r[i].scheduledDate == selectedDate)
        && (technicianId != "" ==> r[i].checklist.assignedTo == Some(technicianId))
  {
    var kept := Kept(data, selectedDate, technicianId, now);
    seq(|kept|, i requires 0 <= i < |kept| => Decorate(kept[i], selectedDate, now))
  }

  /** An input is kept exactly when it passes each selected filter; the filters keep the listing's
      order. */
  lemma KeptExactly(data: seq<PlanInput>, more: seq<PlanInput>, selectedDate: string, technicianId: string, now: int)
    ensures forall x :: (x in Kept(data, selectedDate, technicianId, now) <==>
      x in data && (selectedDate == "" || OnDate(selectedDate, now)(x))
        && (technicianId == "" || x.checklist.assignedTo == Some(technicianId)))
    ensures Kept(data + more, selectedDate, technicianId, now)
      == Kept(data, selectedDate, technicianId, now) + Kept(more, selectedDate, technicianId, now)
  {
    if selectedDate != "" {
      FilterConcat(data, more, OnDate(selectedDate, now));
    }
    var a := if selectedDate != "" then Filter(data, OnDate(selectedDate, now)) else data;
    var b := if selectedDate != "" then Filter(more, OnDate(selectedDate, now)) else more;
    if technicianId != "" {
      FilterConcat(a, b, AssignedTo(technicianId));
    }
  }

  /** A checklist with its own date appears on the plan of a valid selected date exactly when both
      fall on the same day, whatever its periodicity. */
  lemma ScheduledDateDecides(x: PlanInput, selectedDate: string, now: int)
    requires x.scheduledDate != "" && ParseInstant(selectedDate).Some?
    ensures OnDate(selectedDate, now)(x) <==>
      (ParseInstant(x.scheduledDate).Some? && DayOf(ParseInstant(x.scheduledDate).value) == DayOf(ParseInstant(selectedDate).value))
  {
  }

  /** Every row keeps its checklist, has `executed` false unless the input said so, no `executedAt`
      unless one was given, and the selected date (or today's) as its date. */
  lemma RowsDecorated(data: seq<PlanInput>, selectedDate: string, technicianId: string, now: int, i: nat)
    requires selectedDate != "" || FourDigitYear(now)
    requires i < |Plan(data, selectedDate, technicianId, now)|
    ensures var row := Plan(data, selectedDate, technicianId, now)[i];
      var x := Kept(data, selectedDate, technicianId, now)[i];
      row.checklist == x.checklist && row.executed == x.executed
      && (row.executedAt.None? <==> x.executedAt == "")
      && (x.executedAt != "" ==> row.executedAt == Some(x.executedAt))
      && (selectedDate != "" ==> row.scheduledDate == selectedDate)
      && (selectedDate == "" ==> var today := CivilFromDays(DayOf(now));
            FieldAt(row.scheduledDate, 0, 4) == today.year && FieldAt(row.scheduledDate, 5, 7) == today.month
            && FieldAt(row.scheduledDate, 8, 10) == today.day)
  {
    if selectedDate == "" {
      DateFields(CivilFromDays(DayOf(now)));
    }
  }

  /** `getRowClassName`: executed rows are grey, the others green. */
  function RowClassOf(row: PlanRow): (k: RowClass)
    ensures k == ExecutedRow <==> row.executed
  {
    if row.executed then ExecutedRow else PendingRow
  }

  /** `formatTime`: an empty time shows as "N/A", any other text as itself. */
  function FormatTimeText(time: string): (r: string)
    ensures time == "" ==> r == "N/A"
    ensures time != "" ==> r == time
  {
    if time == "" then "N/A" else time
  }
}
