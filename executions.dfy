/** The execution log and the endpoint that records an execution (pages/api/executions/index.js).
    The log is the content of one file; a file that is missing or does not parse is read as an empty
    log and is overwritten by the next record. */
module Executions {
  import opened Wrappers

  type Id = string

  /** One recorded run of a checklist by a technician; `completedAt` is the instant, in milliseconds
      since the epoch, of the server's clock when the run was recorded. */
  datatype Execution = Execution(
    checklistId: Id,
    userId: Id,
    completedAt: int,
    photos: map<string, string>,
    completedItems: seq<string>)

  /** The request: its HTTP method and the fields of its body; an empty text is a missing id. */
  datatype SubmitRequest = SubmitRequest(
    httpMethod: string,
    checklistId: Id,
    userId: Id,
    photos: Option<map<string, string>>,
    completedItems: Option<seq<string>>)

  datatype SubmitResponse =
    | MethodNotAllowed
    | MissingFields
    | AlreadyExecuted
    | Recorded(execution: Execution)

  /** The HTTP status of each response. */
  function Status(r: SubmitResponse): (code: int)
    ensures code == 201 <==> r.Recorded?
    ensures code == 400 <==> r.MissingFields? || r.AlreadyExecuted?
  {
    match r
    case MethodNotAllowed => 405
    case MissingFields => 400
    case AlreadyExecuted => 400
    case Recorded(_) => 201
  }

  /** The records a read of the file yields: none when it is missing or unreadable. */
  function Records(file: Option<seq<Execution>>): seq<Execution> {
    file.GetOr([])
  }

  /** `executions.some(...)`: the technician already has a record for the checklist. */
  predicate HasExecuted(log: seq<Execution>, checklistId: Id, userId: Id) {
    exists i :: 0 <= i < |log| && log[i].checklistId == checklistId && log[i].userId == userId
  }

  /** The invariant the endpoint keeps: at most one record per checklist and technician. */
  predicate OnePerPair(log: seq<Execution>) {
    forall i, j :: 0 <= i < j < |log| ==>
      log[i].checklistId != log[j].checklistId || log[i].userId != log[j].userId
  }

  /** The answer to a request against a log, at instant `now`. */
  function Outcome(log: seq<Execution>, req: SubmitRequest, now: int): (r: SubmitResponse)
    ensures r == MethodNotAllowed <==> req.httpMethod != "POST"
    ensures r == MissingFields <==> req.httpMethod == "POST" && (req.checklistId == "" || req.userId == "")
    ensures r.Recorded? <==>
      req.httpMethod == "POST" && req.checklistId != "" && req.userId != ""
      && !HasExecuted(log, req.checklistId, req.userId)
    ensures r.Recorded? ==> r.execution.checklistId == req.checklistId && r.execution.userId == req.userId
                            && r.execution.completedAt == now
    ensures r.Recorded? ==> r.execution.photos == req.photos.GetOr(map[])
                            && r.execution.completedItems == req.completedItems.GetOr([])
  {
    if req.httpMethod != "POST" then MethodNotAllowed
    else if req.checklistId == "" || req.userId == "" then MissingFields
    else if HasExecuted(log, req.checklistId, req.userId) then AlreadyExecuted
    else Recorded(Execution(req.checklistId, req.userId, now, req.photos.GetOr(map[]), req.completedItems.GetOr([])))
  }

  /** The log after a request: one record more when it was recorded, the same otherwise. */
  function After(log: seq<Execution>, req: SubmitRequest, now: int): seq<Execution> {
    match Outcome(log, req, now)
    case Recorded(e) => log + [e]
    case _ => log
  }

  /** Every request keeps the log at one record per checklist and technician. */
  lemma {:induction false} SubmitKeepsOnePerPair(log: seq<Execution>, req: SubmitRequest, now: int)
    requires OnePerPair(log)
    ensures OnePerPair(After(log, req, now))
  {
    var out := Outcome(log, req, now);
    if out.Recorded? {
      var l := log + [out.execution];
      forall i, j | 0 <= i < j < |l|
        ensures l[i].checklistId != l[j].checklistId || l[i].userId != l[j].userId
      {
        assert l[i] == log[i];
        if j < |log| {
          assert l[j] == log[j];
        }
      }
    }
  }

  /** A technician can record a checklist once: the same request again is refused as a duplicate,
      at any later instant, whatever it carries. */
  lemma SecondSubmitRefused(log: seq<Execution>, req: SubmitRequest, now: int, later: int, again: SubmitRequest)
    requires Outcome(log, req, now).Recorded?
    requires again.httpMethod == "POST" && again.checklistId == req.checklistId && again.userId == req.userId
    ensures Outcome(After(log, req, now), again, later) == AlreadyExecuted
  {
    var l := After(log, req, now);
    assert l[|log|] == Outcome(log, req, now).execution;
  }

  /** A request that is not recorded leaves the log as it was; a recorded one appends exactly its
      record and keeps everything before it. */
  lemma SubmitOnlyAppends(log: seq<Execution>, req: SubmitRequest, now: int)
    ensures var l := After(log, req, now);
      (Outcome(log, req, now).Recorded? ==> |l| == |log| + 1 && l[..|log|] == log && l[|log|] == Outcome(log, req, now).execution)
      && (!Outcome(log, req, now).Recorded? ==> l == log)
  {
  }

  /** The executions file. */
  class ExecutionLog {
    /** None while the file is missing or does not parse as a list of records. */
    var file: Option<seq<Execution>>

    constructor (initial: Option<seq<Execution>>)
      ensures file == initial
    {
      file := initial;
    }

    /** The endpoint's handler. A recorded execution replaces an unreadable file by a log of one. */
    method Submit(req: SubmitRequest, now: int) returns (r: SubmitResponse)
      modifies this
      ensures r == Outcome(Records(old(file)), req, now)
      ensures r.Recorded? ==> file == Some(Records(old(file)) + [r.execution])
      ensures !r.Recorded? ==> file == old(file)
      ensures OnePerPair(Records(old(file))) ==> OnePerPair(Records(file))
    {
      if req.httpMethod != "POST" {
        return MethodNotAllowed;
      }
      if req.checklistId == "" || req.userId == "" {
        return MissingFields;
      }
      var executions := Records(file);
      if HasExecuted(executions, req.checklistId, req.userId) {
        return AlreadyExecuted;
      }
      var e := Execution(req.checklistId, req.userId, now, req.photos.GetOr(map[]), req.completedItems.GetOr([]));
      if OnePerPair(executions) {
        SubmitKeepsOnePerPair(executions, req, now);
      }
      executions := executions + [e];
      file := Some(executions);
      r := Recorded(e);
    }
  }
}
