/** When a checklist is due for a technician (pages/api/checklists/index.js:18-86), and the list of
    pending checklists a technician is shown (pages/api/checklists/index.js:127-145). */
module Due {
  import opened Wrappers
  import opened Seqs
  import opened Calendar
  import opened Checklists
  import opened Executions

  /** The validity is set, reads as a valid date, and lies strictly before `now`. */
  predicate Expired(c: Checklist, now: int) {
    c.validity != "" && ParseInstant(c.validity).Some? && ParseInstant(c.validity).value < now
  }

  /** The technician's records of this checklist. */
  function UserExecutions(c: Checklist, userId: string, log: seq<Execution>): seq<Execution> {
    Filter(log, (e: Execution) => e.checklistId == c.id && e.userId == userId)
  }

  /** The instant of the most recent record: the first one after sorting by `completedAt`, latest first. */
  function Latest(execs: seq<Execution>): (t: int)
    requires execs != []
    ensures exists i :: 0 <= i < |execs| && execs[i].completedAt == t
    ensures forall i :: 0 <= i < |execs| ==> execs[i].completedAt <= t
  {
    if |execs| == 1 then execs[0].completedAt
    else
      var rest := Latest(execs[1..]);
      assert forall i :: 1 <= i < |execs| ==> execs[i] == execs[1..][i - 1];
      if execs[0].completedAt >= rest then execs[0].completedAt else rest
  }

  /** The time-of-day rule: the threshold is `time` today; the checklist is due again once `now` has
      passed the threshold and the last run came before it. Without a time, or with one that does not
      read as a valid date, it is not due. */
  predicate DueByTime(c: Checklist, last: int, now: int) {
    c.time != "" && ParseTime(c.time).Some?
    && var threshold := StartOfDay(now) + ParseTime(c.time).value;
       now > threshold && last < threshold
  }

  /** `last` and `now` fall in the same day (daily), the same Sunday-to-Saturday week (weekly), or
      the same month of the same year (monthly). */
  predicate SamePeriod(periodicity: string, last: int, now: int) {
    if periodicity == "daily" then DayOf(last) == DayOf(now)
    else if periodicity == "weekly" then WeekStart(DayOf(last)) == WeekStart(DayOf(now))
    else SameMonth(DayOf(last), DayOf(now))
  }

  /** `isChecklistDue` at the instant `now`. */
  predicate IsChecklistDue(c: Checklist, userId: string, log: seq<Execution>, now: int)
    ensures Expired(c, now) ==> !IsChecklistDue(c, userId, log, now)
    ensures !Expired(c, now) && UserExecutions(c, userId, log) == [] ==> IsChecklistDue(c, userId, log, now)
    ensures c.periodicity == "loose" && IsChecklistDue(c, userId, log, now) ==> UserExecutions(c, userId, log) == []
  {
    if Expired(c, now) then false
    else
      var mine := UserExecutions(c, userId, log);
      if mine == [] then true
      else
        var last := Latest(mine);
        if c.periodicity == "loose" then false
        else if c.periodicity == "daily" || c.periodicity == "weekly" || c.periodicity == "monthly" then
          !SamePeriod(c.periodicity, last, now) || DueByTime(c, last, now)
        else true
  }

  /** The most recent instant is the only one that is both in the list and not below any. */
  lemma LatestIs(execs: seq<Execution>, t: int)
    requires exists i :: 0 <= i < |execs| && execs[i].completedAt == t
    requires forall i :: 0 <= i < |execs| ==> execs[i].completedAt <= t
    ensures Latest(execs) == t
  {
  }

  lemma LatestSymmetric(x: seq<Execution>, y: seq<Execution>)
    requires x + y != []
    ensures Latest(x + y) == Latest(y + x)
  {
    var t := Latest(x + y);
    var i :| 0 <= i < |x + y| && (x + y)[i].completedAt == t;
    if i < |x| {
      assert (y + x)[|y| + i] == (x + y)[i];
    } else {
      assert (y + x)[i - |x|] == (x + y)[i];
    }
    forall j | 0 <= j < |y + x| ensures (y + x)[j].completedAt <= t {
      if j < |y| {
        assert (y + x)[j] == (x + y)[|x| + j];
      } else {
        assert (y + x)[j] == (x + y)[j - |y|];
      }
    }
    LatestIs(y + x, t);
  }

  // ---------------------------------------------------------------- properties of the rule

  /** An expired checklist is never due; a validity given as a date alone expires right after the
      midnight (UTC) that starts that date, so the checklist is still due-able at that exact instant
      and no later. */
  lemma ValidityDate(c: Checklist, userId: string, log: seq<Execution>, now: int, d: Civil)
    requires 0 <= d.year <= 9999 && 1 <= d.month <= 12 && 1 <= d.day <= 31
    requires c.validity == FormatDate(d)
    ensures Expired(c, now) <==> now > DaysFromCivil(d.year, d.month, d.day) * MsPerDay
    ensures now > DaysFromCivil(d.year, d.month, d.day) * MsPerDay ==> !IsChecklistDue(c, userId, log, now)
  {
    ParseFormatDate(d);
  }

  /** A checklist the technician has never run is due until it expires. */
  lemma NeverRunIsDue(c: Checklist, userId: string, log: seq<Execution>, now: int)
    requires !HasExecuted(log, c.id, userId)
    ensures IsChecklistDue(c, userId, log, now) <==> !Expired(c, now)
  {
    FilterEmpty(log, (e: Execution) => e.checklistId == c.id && e.userId == userId);
  }

  /** Records of other checklists or other technicians do not change the answer, wherever they are
      in the log. */
  lemma UnrelatedRecordsIgnored(c: Checklist, userId: string, log: seq<Execution>, other: seq<Execution>, now: int)
    requires !HasExecuted(other, c.id, userId)
    ensures IsChecklistDue(c, userId, log + other, now) == IsChecklistDue(c, userId, log, now)
    ensures IsChecklistDue(c, userId, other + log, now) == IsChecklistDue(c, userId, log, now)
  {
    var p := (e: Execution) => e.checklistId == c.id && e.userId == userId;
    FilterEmpty(other, p);
    FilterConcat(log, other, p);
    FilterConcat(other, log, p);
    assert Filter(log, p) + [] == Filter(log, p);
    assert [] + Filter(log, p) == Filter(log, p);
  }

  /** The order of the records in the log does not matter. */
  lemma LogOrderIrrelevant(c: Checklist, userId: string, a: seq<Execution>, b: seq<Execution>, now: int)
    ensures IsChecklistDue(c, userId, a + b, now) == IsChecklistDue(c, userId, b + a, now)
  {
    var p := (e: Execution) => e.checklistId == c.id && e.userId == userId;
    FilterConcat(a, b, p);
    FilterConcat(b, a, p);
    var x := Filter(a, p);
    var y := Filter(b, p);
    if x + y != [] {
      LatestSymmetric(x, y);
    }
  }

  /** A `loose` checklist is a one-shot task: due exactly while unexpired and never run by the technician. */
  lemma LooseRunsOnce(c: Checklist, userId: string, log: seq<Execution>, now: int)
    requires c.periodicity == "loose"
    ensures IsChecklistDue(c, userId, log, now) <==> !Expired(c, now) && !HasExecuted(log, c.id, userId)
  {
    FilterEmpty(log, (e: Execution) => e.checklistId == c.id && e.userId == userId);
  }

  /** A daily checklist without a time, when no record lies in the future, is due exactly when the
      technician has no record of it today. */
  lemma DailyWithoutTime(c: Checklist, userId: string, log: seq<Execution>, now: int)
    requires c.periodicity == "daily" && c.time == "" && !Expired(c, now)
    requires forall i :: 0 <= i < |log| ==> log[i].completedAt <= now
    ensures IsChecklistDue(c, userId, log, now)
        <==> !exists i :: 0 <= i < |log| && log[i].checklistId == c.id && log[i].userId == userId
                          && DayOf(log[i].completedAt) == DayOf(now)
  {
    var p := (e: Execution) => e.checklistId == c.id && e.userId == userId;
    var mine := UserExecutions(c, userId, log);
    FilterEmpty(log, p);
    if mine != [] {
      var last := Latest(mine);
      var k :| 0 <= k < |mine| && mine[k].completedAt == last;
      assert mine[k] in log;
      var j :| 0 <= j < |log| && log[j] == mine[k];
      DayOfMonotone(last, now);
      forall i | 0 <= i < |log| && p(log[i]) ensures DayOf(log[i].completedAt) <= DayOf(last) {
        assert log[i] in mine;
        DayOfMonotone(log[i].completedAt, last);
      }
    }
  }

  /** In the period of the last run (the same day, week or month) a daily, weekly or monthly checklist
      with an "HH:MM" time is due exactly when now is past that time today and the last run was
      before it. */
  lemma TimeThreshold(c: Checklist, userId: string, log: seq<Execution>, now: int, hours: nat, minutes: nat)
    requires c.periodicity == "daily" || c.periodicity == "weekly" || c.periodicity == "monthly"
    requires hours < 100 && minutes < 100 && c.time == FormatTime(hours, minutes)
    requires !Expired(c, now) && UserExecutions(c, userId, log) != []
    requires SamePeriod(c.periodicity, Latest(UserExecutions(c, userId, log)), now)
    ensures var threshold := StartOfDay(now) + Offset(hours, minutes);
      var last := Latest(UserExecutions(c, userId, log));
      IsChecklistDue(c, userId, log, now) <==> now > threshold && last < threshold
  {
    ParseFormatTime(hours, minutes);
    ThresholdRule(c, userId, log, now, Offset(hours, minutes));
  }

  /** The same rule for any time text that reads as `offset` milliseconds after midnight. */
  lemma ThresholdRule(c: Checklist, userId: string, log: seq<Execution>, now: int, offset: int)
    requires c.periodicity == "daily" || c.periodicity == "weekly" || c.periodicity == "monthly"
    requires c.time != "" && ParseTime(c.time) == Some(offset)
    requires !Expired(c, now) && UserExecutions(c, userId, log) != []
    requires SamePeriod(c.periodicity, Latest(UserExecutions(c, userId, log)), now)
    ensures var last := Latest(UserExecutions(c, userId, log));
      IsChecklistDue(c, userId, log, now) <==> now > StartOfDay(now) + offset && last < StartOfDay(now) + offset
  {
    var last := Latest(UserExecutions(c, userId, log));
    assert c.periodicity != "loose" by {
      assert "loose"[0] == 'l';
    }
    assert IsChecklistDue(c, userId, log, now) == DueByTime(c, last, now);
  }

  /** A weekly checklist without a time, last run on a given weekday, stays done for the rest of that
      Sunday-to-Saturday week and is due from the next Sunday on. */
  lemma WeeklyWithoutTime(c: Checklist, userId: string, log: seq<Execution>, now: int, k: int)
    requires c.periodicity == "weekly" && c.time == "" && !Expired(c, now)
    requires UserExecutions(c, userId, log) != []
    requires DayOf(now) == DayOf(Latest(UserExecutions(c, userId, log))) + k && k >= 0
    ensures IsChecklistDue(c, userId, log, now)
        <==> Weekday(DayOf(Latest(UserExecutions(c, userId, log)))) + k >= 7
  {
    SameWeekIff(DayOf(Latest(UserExecutions(c, userId, log))), k);
  }

  /** A monthly checklist without a time is due exactly when the last run was in another month
      (or another year) than now. */
  lemma MonthlyWithoutTime(c: Checklist, userId: string, log: seq<Execution>, now: int)
    requires c.periodicity == "monthly" && c.time == "" && !Expired(c, now)
    requires UserExecutions(c, userId, log) != []
    ensures IsChecklistDue(c, userId, log, now)
        <==> !SameMonth(DayOf(Latest(UserExecutions(c, userId, log))), DayOf(now))
  {
    assert c.periodicity != "loose" by {
      assert "loose"[0] == 'l';
    }
    assert !DueByTime(c, Latest(UserExecutions(c, userId, log)), now);
  }

  /** A daily, weekly or monthly checklist whose last run lies in another day, week or month than
      now is due, with or without a time. */
  lemma NewPeriodIsDue(c: Checklist, userId: string, log: seq<Execution>, now: int)
    requires c.periodicity == "daily" || c.periodicity == "weekly" || c.periodicity == "monthly"
    requires !Expired(c, now) && UserExecutions(c, userId, log) != []
    requires !SamePeriod(c.periodicity, Latest(UserExecutions(c, userId, log)), now)
    ensures IsChecklistDue(c, userId, log, now)
  {
    assert c.periodicity != "loose" by {
      assert "loose"[0] == 'l';
    }
  }

  /** A weekly or monthly checklist with a time becomes due again on every later day of its period
      once the time has passed: the threshold is taken on the current day. */
  lemma TimeRepeatsWithinPeriod(c: Checklist, userId: string, log: seq<Execution>, now: int, hours: nat, minutes: nat)
    requires c.periodicity == "weekly" || c.periodicity == "monthly"
    requires hours < 24 && minutes < 60 && c.time == FormatTime(hours, minutes)
    requires !Expired(c, now) && UserExecutions(c, userId, log) != []
    requires DayOf(Latest(UserExecutions(c, userId, log))) < DayOf(now)
    requires now > StartOfDay(now) + Offset(hours, minutes)
    ensures IsChecklistDue(c, userId, log, now)
  {
    ParseFormatTime(hours, minutes);
    var last := Latest(UserExecutions(c, userId, log));
    assert last < StartOfDay(now) by {
      if last >= StartOfDay(now) {
        DayOfMonotone(StartOfDay(now), last);
      }
    }
    RearmedAfterThreshold(c, userId, log, now, Offset(hours, minutes));
  }

  /** Past today's threshold, a run recorded before today leaves the checklist due. */
  lemma RearmedAfterThreshold(c: Checklist, userId: string, log: seq<Execution>, now: int, offset: int)
    requires c.periodicity == "weekly" || c.periodicity == "monthly"
    requires c.time != "" && ParseTime(c.time) == Some(offset)
    requires !Expired(c, now) && UserExecutions(c, userId, log) != []
    requires Latest(UserExecutions(c, userId, log)) < StartOfDay(now) && now > StartOfDay(now) + offset
    ensures IsChecklistDue(c, userId, log, now)
  {
    var last := Latest(UserExecutions(c, userId, log));
    assert c.periodicity != "loose" by {
      assert "loose"[0] == 'l';
    }
    assert DueByTime(c, last, now);
  }

  /** Periodicities the rule does not know (quarterly, semiannual, annual, custom, or any other text)
      leave a checklist due at every instant until it expires, whatever the log holds. */
  lemma OtherPeriodicitiesAlwaysDue(c: Checklist, userId: string, log: seq<Execution>, now: int)
    requires c.periodicity !in ["loose", "daily", "weekly", "monthly"]
    ensures IsChecklistDue(c, userId, log, now) <==> !Expired(c, now)
  {
  }

  // ---------------------------------------------------------------- the rule against the recorder

  /** Once a technician's run of a loose checklist is recorded, it is no longer due for them. */
  lemma LooseHiddenAfterRecord(c: Checklist, log: seq<Execution>, req: SubmitRequest, recordedAt: int, now: int)
    requires c.periodicity == "loose" && req.checklistId == c.id
    requires Outcome(log, req, recordedAt).Recorded?
    ensures !IsChecklistDue(c, req.userId, After(log, req, recordedAt), now)
  {
    var l := After(log, req, recordedAt);
    assert l[|log|].checklistId == c.id && l[|log|].userId == req.userId;
    LooseRunsOnce(c, req.userId, l, now);
  }

  /** A daily checklist without a time that a technician ran is listed as due again from the next day
      on, but the recorder refuses every further run of it by that technician. */
  lemma DailyDueButRefused(c: Checklist, log: seq<Execution>, req: SubmitRequest, recordedAt: int, now: int)
    requires c.periodicity == "daily" && c.time == "" && !Expired(c, now)
    requires req.checklistId == c.id && Outcome(log, req, recordedAt).Recorded?
    requires DayOf(now) > DayOf(recordedAt)
    ensures IsChecklistDue(c, req.userId, After(log, req, recordedAt), now)
    ensures Outcome(After(log, req, recordedAt), req, now) == AlreadyExecuted
  {
    var p := (e: Execution) => e.checklistId == c.id && e.userId == req.userId;
    var e := Outcome(log, req, recordedAt).execution;
    FilterEmpty(log, p);
    FilterConcat(log, [e], p);
    assert UserExecutions(c, req.userId, After(log, req, recordedAt)) == [e];
    SecondSubmitRefused(log, req, recordedAt, now, req);
  }

  // ---------------------------------------------------------------- what a technician is shown

  /** The checklists a non-administrator is shown: those assigned to them or unassigned, and due. */
  function PendingFor(list: seq<Checklist>, userId: string, log: seq<Execution>, now: int): (r: seq<Checklist>)
    ensures |r| <= |list|
    ensures forall i :: 0 <= i < |r| ==>
      r[i] in list && AssignedOrLoose(r[i], userId) && IsChecklistDue(r[i], userId, log, now)
    ensures forall i :: 0 <= i < |list| ==>
      AssignedOrLoose(list[i], userId) && IsChecklistDue(list[i], userId, log, now) ==> list[i] in r
  {
    Filter(list, (c: Checklist) => AssignedOrLoose(c, userId) && IsChecklistDue(c, userId, log, now))
  }

  /** A technician is shown exactly the listed checklists that are theirs or unassigned and due, in
      catalog order. */
  lemma PendingSelectsExactly(list: seq<Checklist>, more: seq<Checklist>, userId: string, log: seq<Execution>, now: int)
    ensures forall c :: (c in PendingFor(list, userId, log, now)
      <==> c in list && (c.assignedTo == Some(userId) || c.assignedTo == None) && IsChecklistDue(c, userId, log, now))
    ensures PendingFor(list + more, userId, log, now) == PendingFor(list, userId, log, now) + PendingFor(more, userId, log, now)
  {
    FilterConcat(list, more, (c: Checklist) => AssignedOrLoose(c, userId) && IsChecklistDue(c, userId, log, now));
  }

  /** Whether a checklist is active plays no part: a deactivated checklist is shown like an active one. */
  lemma ActiveIgnored(c: Checklist, userId: string, log: seq<Execution>, now: int, active: bool)
    ensures IsChecklistDue(c.(active := active), userId, log, now) == IsChecklistDue(c, userId, log, now)
    ensures AssignedOrLoose(c.(active := active), userId) == AssignedOrLoose(c, userId)
  {
  }
}
