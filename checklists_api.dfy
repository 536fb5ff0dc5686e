/** The checklists endpoint (pages/api/checklists/index.js:88-224): who may do what, which
    checklists a GET returns, and what a POST creates. Token verification and QR-code rendering are
    outside the model; they enter as the authenticated user (None when the token does not verify)
    and as the path the QR generator returned (None when it failed). */
module ChecklistsApi {
  import opened Wrappers
  import opened Seqs
  import opened Checklists
  import opened Executions
  import opened Due

  datatype AuthUser = AuthUser(id: string, isAdmin: bool)

  /** The query of a GET; an empty text is an absent parameter. */
  datatype Query = Query(clientId: string, locationId: string, userId: string)

  datatype Request = Request(httpMethod: string, auth: Option<AuthUser>, query: Query, body: ChecklistInput)

  datatype Response =
    | Unauthorized
    | Forbidden
    | Listed(checklists: seq<Checklist>)
    | BadRequest(message: string)
    | Created(checklist: Checklist)
    | ServerError
    | MethodNotAllowed

  function Status(r: Response): (code: int)
    ensures 200 <= code < 300 <==> r.Listed? || r.Created?
    ensures code == 400 <==> r.BadRequest?
  {
    match r
    case Unauthorized => 401
    case Forbidden => 403
    case Listed(_) => 200
    case BadRequest(_) => 400
    case Created(_) => 201
    case ServerError => 500
    case MethodNotAllowed => 405
  }

  // ---------------------------------------------------------------- GET

  /** The query parameters take precedence in the order client, location, user; with none the whole
      catalog is returned. */
  function Selected(list: seq<Checklist>, q: Query): (r: seq<Checklist>)
    ensures forall i :: 0 <= i < |r| ==> r[i] in list
    ensures q.clientId != "" ==> forall i :: 0 <= i < |r| ==> r[i].clientId == q.clientId
    ensures q.clientId == "" && q.locationId != "" ==> forall i :: 0 <= i < |r| ==> r[i].locationId == q.locationId
    ensures q.clientId == "" && q.locationId == "" && q.userId != "" ==>
      forall i :: 0 <= i < |r| ==> AssignedOrLoose(r[i], q.userId)
    ensures q.clientId != "" ==> r == FindChecklistsByClientId(list, q.clientId)
    ensures q.clientId == "" && q.locationId != "" ==> r == FindChecklistsByLocationId(list, q.locationId)
    ensures q.clientId == "" && q.locationId == "" && q.userId != "" ==> r == FindChecklistsByUserId(list, q.userId)
    ensures q == Query("", "", "") ==> r == list
  {
    if q.clientId != "" then FindChecklistsByClientId(list, q.clientId)
    else if q.locationId != "" then FindChecklistsByLocationId(list, q.locationId)
    else if q.userId != "" then FindChecklistsByUserId(list, q.userId)
    else list
  }

  /** What a GET returns: administrators get the selection, anyone else only what is pending for them.
      `file` is the executions file as read (None when missing or unreadable, taken as no records). */
  function Listing(list: seq<Checklist>, q: Query, user: AuthUser, file: Option<seq<Execution>>, now: int): (r: seq<Checklist>)
    ensures user.isAdmin ==> r == Selected(list, q)
    ensures !user.isAdmin ==> r == PendingFor(Selected(list, q), user.id, Records(file), now)
    ensures !user.isAdmin ==> forall i :: 0 <= i < |r| ==>
      r[i] in Selected(list, q) && AssignedOrLoose(r[i], user.id) && IsChecklistDue(r[i], user.id, Records(file), now)
  {
    var selected := Selected(list, q);
    if user.isAdmin then selected else PendingFor(selected, user.id, Records(file), now)
  }

  /** A non-administrator never sees a checklist assigned to someone else or one that is not due for
      them, whatever the query; everything they see is in the catalog and matches the query. */
  lemma ListingIsOwnAndDue(list: seq<Checklist>, q: Query, user: AuthUser, file: Option<seq<Execution>>, now: int)
    requires !user.isAdmin
    ensures forall c :: c in Listing(list, q, user, file, now) ==>
      && c in list
      && (c.assignedTo == Some(user.id) || c.assignedTo == None)
      && IsChecklistDue(c, user.id, Records(file), now)
      && (q.clientId != "" ==> c.clientId == q.clientId)
      && (q.clientId == "" && q.locationId != "" ==> c.locationId == q.locationId)
  {
    var selected := Selected(list, q);
    PendingSelectsExactly(selected, [], user.id, Records(file), now);
    FindersSelectExactly(list, [], q.clientId, q.locationId, q.userId);
  }

  /** Asking for another technician's checklists yields only unassigned ones. */
  lemma OtherUserQueryOnlyUnassigned(list: seq<Checklist>, q: Query, user: AuthUser, file: Option<seq<Execution>>, now: int)
    requires !user.isAdmin && q.clientId == "" && q.locationId == "" && q.userId != "" && q.userId != user.id
    ensures forall c :: c in Listing(list, q, user, file, now) ==> c.assignedTo == None
  {
    PendingSelectsExactly(Selected(list, q), [], user.id, Records(file), now);
    FindersSelectExactly(list, [], q.clientId, q.locationId, q.userId);
  }

  /** An administrator's listing is the selection itself: nothing is hidden, expired or not. */
  lemma AdminSeesSelection(list: seq<Checklist>, q: Query, user: AuthUser, file: Option<seq<Execution>>, now: int)
    requires user.isAdmin
    ensures Listing(list, q, user, file, now) == Selected(list, q)
    ensures q == Query("", "", "") ==> Listing(list, q, user, file, now) == list
  {
  }

  // ---------------------------------------------------------------- POST

  /** The fields a POST must carry before the catalog is asked to create anything. */
  predicate HasRequiredFields(body: ChecklistInput) {
    body.title != "" && body.clientId != "" && body.locationId != "" && body.typeId != ""
    && body.periodicity != "" && body.items.Some? && |body.items.value| > 0
  }

  const RequiredFieldsMessage: string :=
    "Campos obrigatórios: título, cliente, local, tipo, periodicidade e pelo menos um item"

  /** The message each catalog error carries, written as the text before the phrase the handler
      looks for, the phrase, and the text after it. */
  function Message(e: ChecklistError): string {
    Lead(e) + Keyword(e) + Tail(e)
  }

  /** The phrase of each message that the handler's test recognises. */
  function Keyword(e: ChecklistError): string {
    match e
    case NoItems => "deve ter pelo menos um item"
    case InvalidPeriodicity => "Periodicidade"
    case CustomWithoutDays => "Periodicidade"
    case _ => "não encontrado"
  }

  function Lead(e: ChecklistError): string {
    match e
    case ClientNotFound => "Cliente "
    case LocationNotFound => "Local "
    case TypeNotFound => "Tipo de checklist "
    case UserNotFound => "Usuário "
    case NoItems => "O checklist "
    case _ => ""
  }

  function Tail(e: ChecklistError): string {
    match e
    case InvalidPeriodicity => " inválida"
    case CustomWithoutDays => " customizada deve ter dias específicos"
    case _ => ""
  }

  /** `part` occurs in `s` from position `i` on. */
  predicate OccursAt(s: string, part: string, i: int) {
    0 <= i && i + |part| <= |s| && s[i..i + |part|] == part
  }

  /** `String.prototype.includes`. */
  predicate Contains(s: string, part: string) {
    exists i :: 0 <= i <= |s| && OccursAt(s, part, i)
  }

  /** The handler answers 400 for a failure whose message names a missing record, a missing item or a
      periodicity; anything else is a 500. */
  predicate IsValidationMessage(message: string) {
    Contains(message, "não encontrado") || Contains(message, "deve ter pelo menos um item")
    || Contains(message, "Periodicidade")
  }

  /** A text placed between two others occurs right after the first. */
  lemma OccursBetween(before: string, part: string, after: string)
    ensures OccursAt(before + part + after, part, |before|)
  {
    var s := before + part + after;
    assert s[|before|..|before| + |part|] == part;
  }

  /** Every error the catalog raises on creation is recognised as a validation failure, so a POST that
      fails validation is a 400 and never a 500. */
  lemma EveryCreateErrorIsBadRequest(e: ChecklistError)
    ensures IsValidationMessage(Message(e))
  {
    OccursBetween(Lead(e), Keyword(e), Tail(e));
  }

  /** The checklist a successful POST returns: the created record, with the QR code's path when the
      generator returned a non-empty one. */
  function WithQrCode(c: Checklist, qrCodePath: Option<string>): Checklist {
    if qrCodePath.Some? && qrCodePath.value != "" then c.(qrCodePath := Some(qrCodePath.value)) else c
  }

  /** The update the handler sends with the QR code's path. */
  function QrPatch(path: string): ChecklistPatch {
    ChecklistPatch(None, None, None, None, None, None, None, None, None, None, None, Some(Some(path)), None, None)
  }

  /** The handler. `ids` are the fresh ids for a creation, `qrCodePath` what the QR generator
      returned, `file` the executions file as read, `now` the server clock. */
  method Handle(store: ChecklistStore, refs: References, req: Request, file: Option<seq<Execution>>,
                now: int, ids: seq<Id>, qrCodePath: Option<string>) returns (r: Response)
    requires req.body.items.Some? ==> |ids| == |req.body.items.value| + 1
    requires forall k, i :: 0 <= k < |store.checklists| && 0 <= i < |ids| ==> store.checklists[k].id != ids[i]
    modifies store
    ensures req.auth.None? ==> r == Unauthorized
    ensures req.auth.Some? && req.httpMethod != "GET" && !req.auth.value.isAdmin ==> r == Forbidden
    ensures req.auth.Some? && req.httpMethod == "GET" ==>
      r == Listed(Listing(old(store.checklists), req.query, req.auth.value, file, now))
    ensures req.auth.Some? && req.auth.value.isAdmin && req.httpMethod == "POST" ==>
      if !HasRequiredFields(req.body) then r == BadRequest(RequiredFieldsMessage)
      else if CreateError(refs, req.body).Some? then r == BadRequest(Message(CreateError(refs, req.body).value))
      else
        var c := WithQrCode(NewChecklist(req.body, ids), qrCodePath);
        r == Created(c) && store.checklists == old(store.checklists) + [c]
    ensures req.auth.Some? && req.auth.value.isAdmin && req.httpMethod != "GET" && req.httpMethod != "POST" ==>
      r == Response.MethodNotAllowed
    ensures !r.Created? ==> store.checklists == old(store.checklists)
  {
    if req.auth.None? {
      return Unauthorized;
    }
    var user := req.auth.value;
    if req.httpMethod != "GET" && !user.isAdmin {
      return Forbidden;
    }
    if req.httpMethod == "GET" {
      var checklists := Selected(store.checklists, req.query);
      if !user.isAdmin {
        var allExecutions := Records(file);
        checklists := PendingFor(checklists, user.id, allExecutions, now);
      }
      return Listed(checklists);
    }
    if req.httpMethod == "POST" {
      if !HasRequiredFields(req.body) {
        return BadRequest(RequiredFieldsMessage);
      }
      var before := store.checklists;
      var created := store.CreateChecklist(refs, req.body, ids);
      if created.Failure? {
        EveryCreateErrorIsBadRequest(created.error);
        return BadRequest(Message(created.error));
      }
      var c := created.value;
      if qrCodePath.Some? && qrCodePath.value != "" {
        FirstIndexOfAppended(before, c, (x: Checklist) => x.id == c.id);
        var _ := store.UpdateChecklist(refs, c.id, QrPatch(qrCodePath.value), []);
        c := c.(qrCodePath := Some(qrCodePath.value));
      }
      return Created(c);
    }
    return Response.MethodNotAllowed;
  }
}
