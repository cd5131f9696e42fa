/**
  The request engine: creation with auto-routing to the equipment's team,
  role-filtered listing, single fetch, status update with its scrap cascade,
  and technician assignment. Guards are pure checks; the writes are methods
  on the store, each proved equal to a specification function on snapshots.
*/
module RequestController {
  import opened Common
  import opened RequestModel
  import opened EquipmentModel
  import opened TeamModel
  import opened StateValidator
  import opened Database

  // ---------------------------------------------------------------- create

  /**
    The guards of `createRequest`, in order: the equipment must exist (404),
    must not be SCRAPPED (400), a PREVENTIVE request needs a scheduled date
    (400), and the equipment's team must still exist for `._id` to be read
    (a TypeError otherwise, answered 400). On success: the team to route to.
  */
  function RouteToTeam(db: Db, body: RequestBody): (r: Result<Id>)
    ensures body.equipment.None? || body.equipment.value !in db.equipment
            ==> r == Err(NotFound(EquipmentNotFound))
    ensures body.equipment.Some? && body.equipment.value in db.equipment
            && db.equipment[body.equipment.value].status == SCRAPPED
            ==> r == Err(BadRequest(ScrappedEquipmentRefused))
    ensures body.requestType == Some("PREVENTIVE") && body.scheduledDate.None? ==> r.Err?
    ensures body.equipment.Some? && body.equipment.value in db.equipment
            && db.equipment[body.equipment.value].status != SCRAPPED
            && body.requestType == Some("PREVENTIVE") && body.scheduledDate.None?
            ==> r == Err(BadRequest(ScheduledDateRequired))
    ensures r.Ok? ==> (body.equipment.Some? && body.equipment.value in db.equipment
                       && db.equipment[body.equipment.value].status != SCRAPPED
                       && r.value == db.equipment[body.equipment.value].maintenanceTeam
                       && r.value in db.teams)
    ensures r.Err? ==> !r.error.Forbidden? && !r.error.ServerError?
  {
    if body.equipment.None? || body.equipment.value !in db.equipment then
      Err(NotFound(EquipmentNotFound))
    else
      var e := db.equipment[body.equipment.value];
      if e.status == SCRAPPED then Err(BadRequest(ScrappedEquipmentRefused))
      else if body.requestType == Some("PREVENTIVE") && body.scheduledDate.None? then
        Err(BadRequest(ScheduledDateRequired))
      else if e.maintenanceTeam !in db.teams then
        Err(BadRequest(NullTeamId))
      else Ok(e.maintenanceTeam)
  }

  /**
    `createRequest`: a failing guard of `RouteToTeam` is the answer (404 for
    missing equipment first); otherwise the whole body is spread into the new
    document, `maintenanceTeam` is replaced by the equipment's team and
    `createdBy` by the acting user, and the schema decides. Nothing is written
    when any guard or validator fails.
  */
  function CreateRequestSpec(db: Db, body: RequestBody, user: User, newId: Id, now: Date)
    : (st: Step<MaintenanceRequest>)
    requires newId !in db.requests
    ensures body.equipment.None? || body.equipment.value !in db.equipment
            ==> st.result == Err(NotFound(EquipmentNotFound))
    ensures RouteToTeam(db, body).Err? ==> st.result == Err(RouteToTeam(db, body).error)
    ensures RouteToTeam(db, body).Ok? ==>
              st.result == NewRequestDocument(body, body.equipment.value, RouteToTeam(db, body).value, user.id, now)
    ensures st.result.Err? ==> st.db == db
    ensures st.result.Ok? ==> st.db == db.(requests := db.requests[newId := st.result.value])
    ensures st.result.Ok? ==> (body.equipment.Some? && body.equipment.value in db.equipment
                               && db.equipment[body.equipment.value].status != SCRAPPED
                               && st.result.value.equipment == body.equipment.value
                               && st.result.value.maintenanceTeam == db.equipment[body.equipment.value].maintenanceTeam
                               && st.result.value.createdBy == user.id
                               && SchemaValid(st.result.value))
  {
    match RouteToTeam(db, body)
    case Err(e) => Step(Err(e), db)
    case Ok(team) =>
      match NewRequestDocument(body, body.equipment.value, team, user.id, now)
      case Err(e) => Step(Err(e), db)
      case Ok(r) => Step(Ok(r), db.(requests := db.requests[newId := r]))
  }

  method CreateRequest(s: Store, body: RequestBody, user: User, newId: Id, now: Date)
    returns (r: Result<MaintenanceRequest>)
    requires s.Valid() && newId !in s.requests
    modifies s
    ensures s.Valid()
    ensures Step(r, s.State()) == CreateRequestSpec(old(s.State()), body, user, newId, now)
  {
    ghost var spec := CreateRequestSpec(s.State(), body, user, newId, now);
    var routed := RouteToTeam(s.State(), body);
    if routed.Err? {
      assert spec == Step(Err(routed.error), s.State());
      return Err(routed.error);
    }
    r := NewRequestDocument(body, body.equipment.value, routed.value, user.id, now);
    assert spec.result == r;
    if r.Ok? {
      s.requests := s.requests[newId := r.value];
    }
  }

  /** Equipment that is SCRAPPED never receives a request, whatever the body or the user. */
  lemma CreateOnScrappedFails(db: Db, body: RequestBody, user: User, newId: Id, now: Date)
    requires newId !in db.requests
    requires body.equipment.Some? && body.equipment.value in db.equipment
    requires db.equipment[body.equipment.value].status == SCRAPPED
    ensures CreateRequestSpec(db, body, user, newId, now)
            == Step(Err(BadRequest(ScrappedEquipmentRefused)), db)
  {
  }

  /**
    A PREVENTIVE body without a scheduled date is refused, while the same body
    marked CORRECTIVE is stored, routed to the equipment's team, with status NEW.
  */
  lemma PreventiveNeedsDateCorrectiveDoesNot(db: Db, body: RequestBody, user: User, newId: Id, now: Date)
    requires newId !in db.requests
    requires body.equipment.Some? && body.equipment.value in db.equipment
    requires db.equipment[body.equipment.value].status == ACTIVE
    requires db.equipment[body.equipment.value].maintenanceTeam in db.teams
    requires body.subject.Some? && Trim(body.subject.value) != ""
    requires body.description.Some? && Trim(body.description.value) != ""
    requires body.status.None? && body.priority.None? && body.hoursSpent.None? && body.scheduledDate.None?
    ensures CreateRequestSpec(db, body.(requestType := Some("PREVENTIVE")), user, newId, now).result
            == Err(BadRequest(ScheduledDateRequired))
    ensures var st := CreateRequestSpec(db, body.(requestType := Some("CORRECTIVE")), user, newId, now);
            st.result.Ok? && st.result.value.status == NEW
            && st.result.value.maintenanceTeam == db.equipment[body.equipment.value].maintenanceTeam
  {
    var b := body.(requestType := Some("CORRECTIVE"));
    ScheduledDateRequiredIffPreventive(b, b.equipment.value, db.equipment[b.equipment.value].maintenanceTeam, user.id, now);
  }

  /**
    The client's `maintenanceTeam` and `createdBy` fields have no effect:
    they are overridden before the document is built.
  */
  lemma CreateIgnoresClientTeamAndCreator(db: Db, body: RequestBody, team: Option<Id>, creator: Option<Id>,
                                          user: User, newId: Id, now: Date)
    requires newId !in db.requests
    ensures CreateRequestSpec(db, body.(maintenanceTeam := team, createdBy := creator), user, newId, now)
            == CreateRequestSpec(db, body, user, newId, now)
  {
    var sent := body.(maintenanceTeam := team, createdBy := creator);
    assert RouteToTeam(db, sent) == RouteToTeam(db, body);
    if RouteToTeam(db, body).Ok? {
      var routed := RouteToTeam(db, body).value;
      assert NewRequestDocument(sent, body.equipment.value, routed, user.id, now)
          == NewRequestDocument(body, body.equipment.value, routed, user.id, now);
    }
  }

  /**
    The client's `status` and `assignedTechnician` pass through unchecked:
    a body claiming REPAIRED and naming any technician is stored as such (and
    the save hook stamps its completion date).
  */
  lemma CreateLetsClientStatusThrough(db: Db, body: RequestBody, tech: Id, user: User, newId: Id, now: Date)
    requires newId !in db.requests
    requires body.status == Some("REPAIRED") && body.assignedTechnician == Some(tech)
    requires body.completedDate.None?
    requires CreateRequestSpec(db, body, user, newId, now).result.Ok?
    ensures var r := CreateRequestSpec(db, body, user, newId, now).result.value;
            r.status == REPAIRED && r.assignedTechnician == Some(tech) && r.completedDate == Some(now)
  {
  }

  // ---------------------------------------------------------------- listing

  /** The query string of `getRequests`; an empty string is an absent parameter. */
  datatype RequestQuery = RequestQuery(
    status: string,
    requestType: string,
    equipmentId: Id,
    teamId: Id,
    technicianId: Id,
    startDate: Option<Date>,
    endDate: Option<Date>)

  /**
    The Mongo filter document: `anyOf` is the `$or` of an assignee id and a
    team reference (absent for a user without a team); every other field is
    an equality or a bound on `scheduledDate`. All present fields are conjoined.
  */
  datatype RequestFilter = RequestFilter(
    anyOf: Option<(Id, Option<Id>)>,
    status: Option<string>,
    requestType: Option<string>,
    equipment: Option<Id>,
    maintenanceTeam: Option<Id>,
    assignedTechnician: Option<Id>,
    scheduledFrom: Option<Date>,
    scheduledTo: Option<Date>)

  const EmptyFilter := RequestFilter(None, None, None, None, None, None, None, None)

  /**
    Whether a stored request matches a filter. `{ maintenanceTeam: undefined }`
    matches no stored request, since every request has a team; a bound on
    `scheduledDate` matches no request without one.
  */
  predicate FilterMatches(f: RequestFilter, r: MaintenanceRequest)
  {
    && (f.anyOf.Some? ==>
          r.assignedTechnician == Some(f.anyOf.value.0)
          || (f.anyOf.value.1.Some? && r.maintenanceTeam == f.anyOf.value.1.value))
    && (f.status.Some? ==> StatusName(r.status) == f.status.value)
    && (f.requestType.Some? ==> RequestTypeName(r.requestType) == f.requestType.value)
    && (f.equipment.Some? ==> r.equipment == f.equipment.value)
    && (f.maintenanceTeam.Some? ==> r.maintenanceTeam == f.maintenanceTeam.value)
    && (f.assignedTechnician.Some? ==> r.assignedTechnician == f.assignedTechnician)
    && (f.scheduledFrom.Some? ==> r.scheduledDate.Some? && r.scheduledDate.value >= f.scheduledFrom.value)
    && (f.scheduledTo.Some? ==> r.scheduledDate.Some? && r.scheduledDate.value <= f.scheduledTo.value)
  }

  /**
    The listing rule stated on its own: a TECHNICIAN sees only what the access
    rule grants them, conjoined with every query parameter that was given.
  */
  predicate QueryAdmits(q: RequestQuery, user: User, r: MaintenanceRequest)
  {
    && (user.role == TECHNICIAN ==> ValidateTechnicianAccess(r, user))
    && (q.status != "" ==> StatusName(r.status) == q.status)
    && (q.requestType != "" ==> RequestTypeName(r.requestType) == q.requestType)
    && (q.equipmentId != "" ==> r.equipment == q.equipmentId)
    && (q.teamId != "" ==> r.maintenanceTeam == q.teamId)
    && (q.technicianId != "" ==> r.assignedTechnician == Some(q.technicianId))
    && (q.startDate.Some? ==> r.scheduledDate.Some? && r.scheduledDate.value >= q.startDate.value)
    && (q.endDate.Some? ==> r.scheduledDate.Some? && r.scheduledDate.value <= q.endDate.value)
  }

  /**
    The filter dictionary of `getRequests`: the `$or` for a TECHNICIAN, one
    entry per non-empty query parameter, bounds for the given dates.
  */
  function BuildRequestFilter(q: RequestQuery, user: User): (f: RequestFilter)
    ensures forall r :: FilterMatches(f, r) <==> QueryAdmits(q, user, r)
  {
    RequestFilter(
      if user.role == TECHNICIAN then Some((user.id, user.maintenanceTeam)) else None,
      Given(q.status),
      Given(q.requestType),
      Given(q.equipmentId),
      Given(q.teamId),
      Given(q.technicianId),
      q.startDate,
      q.endDate)
  }

  /**
    `getRequests`: the ids of the stored requests the filter matches. Every
    request a TECHNICIAN is shown is one they may access; any other role with
    an empty query is shown every request.
  */
  method GetRequests(s: Store, q: RequestQuery, user: User) returns (found: set<Id>)
    ensures forall id :: id in found <==> id in s.requests && QueryAdmits(q, user, s.requests[id])
    ensures user.role == TECHNICIAN ==>
              forall id :: id in found ==> ValidateTechnicianAccess(s.requests[id], user)
    ensures user.role != TECHNICIAN && q == RequestQuery("", "", "", "", "", None, None) ==>
              found == s.requests.Keys
  {
    var f := BuildRequestFilter(q, user);
    found := set id | id in s.requests && FilterMatches(f, s.requests[id]);
  }

  /**
    `getCalendarRequests` for a window already turned into two instants: the
    requests scheduled inside the window, restricted for a TECHNICIAN as in
    `getRequests`.
  */
  method GetCalendarRequests(s: Store, windowStart: Date, windowEnd: Date, user: User) returns (found: set<Id>)
    ensures forall id :: id in found <==>
      && id in s.requests
      && s.requests[id].scheduledDate.Some?
      && windowStart <= s.requests[id].scheduledDate.value <= windowEnd
      && (user.role == TECHNICIAN ==> ValidateTechnicianAccess(s.requests[id], user))
  {
    var f := EmptyFilter.(scheduledFrom := Some(windowStart), scheduledTo := Some(windowEnd));
    if user.role == TECHNICIAN {
      f := f.(anyOf := Some((user.id, user.maintenanceTeam)));
    }
    found := set id | id in s.requests && FilterMatches(f, s.requests[id]);
  }

  /** `getRequestsByEquipment`: every request on the equipment, whoever asks. */
  function RequestsByEquipment(requests: map<Id, MaintenanceRequest>, equipmentId: Id): (found: set<Id>)
    ensures found <= requests.Keys
    ensures forall id :: id in requests && requests[id].equipment == equipmentId ==> id in found
  {
    set id | id in requests && requests[id].equipment == equipmentId
  }

  // ---------------------------------------------------------------- fetch

  /**
    `getRequestById` with the access rule applied to ids: 404 for a missing
    request, 403 when the rule denies it, the request otherwise.
  */
  function GetRequestById(db: Db, id: Id, user: User): (r: Result<MaintenanceRequest>)
    ensures id !in db.requests ==> r == Err(NotFound(RequestNotFound))
    ensures r.Ok? <==> id in db.requests && ValidateTechnicianAccess(db.requests[id], user)
    ensures r.Ok? ==> r.value == db.requests[id]
    ensures r.Err? ==> r.error.NotFound? || r.error.Forbidden?
  {
    if id !in db.requests then Err(NotFound(RequestNotFound))
    else if !ValidateTechnicianAccess(db.requests[id], user) then Err(Forbidden(AccessDenied))
    else Ok(db.requests[id])
  }

  /**
    The by-equipment listing does not apply the access rule: a technician who
    is refused a request by id still finds it among its equipment's requests.
  */
  lemma ByEquipmentBypassesAccess(db: Db, id: Id, user: User)
    requires id in db.requests && user.role == TECHNICIAN
    requires db.requests[id].assignedTechnician != Some(user.id)
    requires user.maintenanceTeam != Some(db.requests[id].maintenanceTeam)
    ensures GetRequestById(db, id, user) == Err(Forbidden(AccessDenied))
    ensures id in RequestsByEquipment(db.requests, db.requests[id].equipment)
  {
  }

  /** How JavaScript's `toString` renders a reference field of a fetched request. */
  datatype Rendered = Undefined | IdText(id: Id) | DocumentText(id: Id)

  /** A populated `assignedTechnician`: the user's document, or null (rendered undefined). */
  function RenderAssignee(db: Db, r: MaintenanceRequest): (shown: Rendered)
    ensures shown.Undefined? || shown.DocumentText?
  {
    if r.assignedTechnician.Some? && r.assignedTechnician.value in db.users
    then DocumentText(r.assignedTechnician.value) else Undefined
  }

  /**
    The access check as `getRequestById` runs it: the request is populated, so
    `assignedTechnician` and `maintenanceTeam` hold documents (or null when
    the referenced record is gone), and a document's `toString` is its printed
    form, never the bare id. A team that is gone makes `null.toString()` throw.
  */
  function FetchAccessAsWritten(db: Db, r: MaintenanceRequest, user: User): (granted: Result<bool>)
    ensures user.role != TECHNICIAN ==> granted == Ok(true)
    ensures user.role == TECHNICIAN ==> granted != Ok(true)
  {
    if user.role == TECHNICIAN then
      var isAssigned := RenderAssignee(db, r) == IdText(user.id);
      if r.maintenanceTeam !in db.teams then
        Err(ServerError(NullToString))
      else
        var userTeam := if user.maintenanceTeam.Some? then IdText(user.maintenanceTeam.value) else Undefined;
        Ok(isAssigned || DocumentText(r.maintenanceTeam) == userTeam)
    else
      Ok(true)
  }

  /** `getRequestById` as written, with the populated access check. */
  function GetRequestByIdAsWritten(db: Db, id: Id, user: User): (r: Result<MaintenanceRequest>)
    ensures id !in db.requests ==> r == Err(NotFound(RequestNotFound))
  {
    if id !in db.requests then Err(NotFound(RequestNotFound))
    else match FetchAccessAsWritten(db, db.requests[id], user)
      case Err(e) => Err(e)
      case Ok(granted) =>
        if !granted then Err(Forbidden(AccessDenied)) else Ok(db.requests[id])
  }

  /**
    As written, no TECHNICIAN can fetch any request by id, not even one that
    is assigned to them and owned by their own team, which the access rule on
    ids grants.
  */
  lemma FetchAsWrittenDeniesTechnicians(db: Db, id: Id, user: User)
    requires id in db.requests && user.role == TECHNICIAN
    requires db.requests[id].maintenanceTeam in db.teams
    requires db.requests[id].assignedTechnician == Some(user.id)
    requires user.maintenanceTeam == Some(db.requests[id].maintenanceTeam)
    ensures GetRequestByIdAsWritten(db, id, user) == Err(Forbidden(AccessDenied))
    ensures GetRequestById(db, id, user) == Ok(db.requests[id])
  {
  }

  // ---------------------------------------------------------------- status update

  /** The body of a status update. */
  datatype StatusBody = StatusBody(status: string, hoursSpent: Option<int>, notes: Option<string>)

  /**
    The guards of `updateRequestStatus`, in the source's order: 404 for a
    missing request, then 400 when the table refuses the move, then 403 when
    the access rule refuses the user. On success: the stored request.
  */
  function CheckStatusUpdate(db: Db, id: Id, status: string, user: User): (r: Result<MaintenanceRequest>)
    ensures id !in db.requests <==> r == Err(NotFound(RequestNotFound))
    ensures id in db.requests ==>
      (r.Err? && r.error.BadRequest? <==> !ValidateStateTransition(StatusName(db.requests[id].status), status))
    ensures id in db.requests && ValidateStateTransition(StatusName(db.requests[id].status), status) ==>
      (r == Err(Forbidden(AccessDenied)) <==> !ValidateTechnicianAccess(db.requests[id], user))
    ensures r.Ok? ==> id in db.requests && r.value == db.requests[id] && ParseStatus(status).Some?
  {
    if id !in db.requests then Err(NotFound(RequestNotFound))
    else
      var current := db.requests[id];
      if !ValidateStateTransition(StatusName(current.status), status) then
        Err(BadRequest(TransitionRefusedPrefix + StatusName(current.status) + " to " + status))
      else if !ValidateTechnicianAccess(current, user) then
        Err(Forbidden(AccessDenied))
      else Ok(current)
  }

  /**
    The `$set` of `updateData`: `status` always, `hoursSpent` when the body
    defines it (no bound is checked), `notes` when the body's notes are
    non-empty (trimmed by the schema's setter). No other field changes; in
    particular `completedDate` is not stamped, since no save hook runs.
  */
  function ApplyStatusPatch(r: MaintenanceRequest, to: Status, hoursSpent: Option<int>, notes: Option<string>)
    : (p: MaintenanceRequest)
    ensures p.status == to
    ensures p.hoursSpent == if hoursSpent.Some? then hoursSpent else r.hoursSpent
    ensures p.notes == if notes.Some? && notes.value != "" then Some(Trim(notes.value)) else r.notes
    ensures p.(status := r.status, hoursSpent := r.hoursSpent, notes := r.notes) == r
  {
    r.(status := to,
       hoursSpent := if hoursSpent.Some? then hoursSpent else r.hoursSpent,
       notes := if notes.Some? && notes.value != "" then Some(Trim(notes.value)) else r.notes)
  }

  /**
    `Equipment.findByIdAndUpdate(id, { status: 'SCRAPPED' })`: only the status
    of that one piece of equipment changes; a missing id changes nothing.
  */
  function ScrapCascade(equipment: map<Id, Equipment>, id: Id): (after: map<Id, Equipment>)
    ensures after.Keys == equipment.Keys
    ensures id in equipment ==> after[id] == equipment[id].(status := SCRAPPED)
    ensures forall k :: k in equipment && k != id ==> after[k] == equipment[k]
  {
    if id in equipment then equipment[id := equipment[id].(status := SCRAPPED)] else equipment
  }

  /**
    `updateRequestStatus`: it succeeds exactly when the request exists, the
    table allows the move and the access rule admits the user; otherwise it
    answers with the first guard that fails and changes nothing. On success a
    move to SCRAP first scraps the request's equipment, then the request is
    patched with the status, the hours and the notes of the body.
  */
  function UpdateStatusSpec(db: Db, id: Id, body: StatusBody, user: User): (st: Step<MaintenanceRequest>)
    ensures st.result.Ok? <==>
              && id in db.requests
              && ValidateStateTransition(StatusName(db.requests[id].status), body.status)
              && ValidateTechnicianAccess(db.requests[id], user)
    ensures st.result.Err? ==> st.result == CheckStatusUpdate(db, id, body.status, user)
    ensures st.result.Err? ==> st.db == db
    ensures st.result.Ok? ==>
              && ParseStatus(body.status).Some?
              && st.result.value == ApplyStatusPatch(db.requests[id], ParseStatus(body.status).value, body.hoursSpent, body.notes)
    ensures st.result.Ok? ==> (id in db.requests && st.db.requests == db.requests[id := st.result.value]
                               && st.db.users == db.users && st.db.teams == db.teams)
    ensures st.result.Ok? ==> StatusName(st.result.value.status) == body.status
    ensures st.result.Ok? && body.status != "SCRAP" ==> st.db.equipment == db.equipment
    ensures st.result.Ok? && body.status == "SCRAP" ==>
              st.db.equipment == ScrapCascade(db.equipment, db.requests[id].equipment)
  {
    match CheckStatusUpdate(db, id, body.status, user)
    case Err(e) => Step(Err(e), db)
    case Ok(current) =>
      var equipment := if body.status == "SCRAP" then ScrapCascade(db.equipment, current.equipment) else db.equipment;
      var patched := ApplyStatusPatch(current, ParseStatus(body.status).value, body.hoursSpent, body.notes);
      Step(Ok(patched), db.(equipment := equipment, requests := db.requests[id := patched]))
  }

  method UpdateRequestStatus(s: Store, id: Id, body: StatusBody, user: User) returns (r: Result<MaintenanceRequest>)
    requires s.Valid()
    modifies s
    ensures s.Valid()
    ensures Step(r, s.State()) == UpdateStatusSpec(old(s.State()), id, body, user)
  {
    var checked := CheckStatusUpdate(s.State(), id, body.status, user);
    if checked.Err? {
      return checked;
    }
    if body.status == "SCRAP" {
      s.equipment := ScrapCascade(s.equipment, checked.value.equipment);
    }
    var patched := ApplyStatusPatch(checked.value, ParseStatus(body.status).value, body.hoursSpent, body.notes);
    s.requests := s.requests[id := patched];
    r := Ok(patched);
  }

  /**
    An invalid move is reported as such even to a user the access rule
    refuses: the transition check comes first.
  */
  lemma TransitionCheckedBeforeAccess(db: Db, id: Id, body: StatusBody, user: User)
    requires id in db.requests
    requires !ValidateStateTransition(StatusName(db.requests[id].status), body.status)
    requires !ValidateTechnicianAccess(db.requests[id], user)
    ensures UpdateStatusSpec(db, id, body, user).result.Err?
    ensures HttpStatus(UpdateStatusSpec(db, id, body, user).result.error) == 400
  {
  }

  /**
    A successful status update always moves the request strictly forward in
    the lifecycle, and leaves its completion date as it was.
  */
  lemma StatusUpdateMovesForward(db: Db, id: Id, body: StatusBody, user: User)
    requires UpdateStatusSpec(db, id, body, user).result.Ok?
    ensures id in db.requests
    ensures var after := UpdateStatusSpec(db, id, body, user).result.value;
            && Rank(after.status) > Rank(db.requests[id].status)
            && CanTransition(db.requests[id].status, after.status)
            && after.completedDate == db.requests[id].completedDate
  {
    var before := db.requests[id];
    var after := UpdateStatusSpec(db, id, body, user).result.value;
    EnumNamesRoundTrip(before.status, CORRECTIVE, LOW);
    EnumNamesRoundTrip(after.status, CORRECTIVE, LOW);
  }

  /**
    Moving a request to SCRAP leaves its equipment SCRAPPED, with the scrap
    reason and date the equipment had before (the cascade sets neither).
  */
  lemma ScrapStatusScrapsEquipment(db: Db, id: Id, body: StatusBody, user: User)
    requires body.status == "SCRAP"
    requires UpdateStatusSpec(db, id, body, user).result.Ok?
    requires db.requests[id].equipment in db.equipment
    ensures var e := db.requests[id].equipment;
            var after := UpdateStatusSpec(db, id, body, user).db.equipment[e];
            after.status == SCRAPPED
            && after.scrapDate == db.equipment[e].scrapDate
            && after.scrapReason == db.equipment[e].scrapReason
  {
  }

  /**
    The update path runs no validators: from IN_PROGRESS to REPAIRED with a
    negative `hoursSpent` succeeds and stores a request the schema rejects.
  */
  lemma StatusUpdateSkipsHoursBound(db: Db, id: Id, h: int, user: User)
    requires id in db.requests && db.requests[id].status == IN_PROGRESS
    requires user.role != TECHNICIAN && h < 0
    ensures var st := UpdateStatusSpec(db, id, StatusBody("REPAIRED", Some(h), None), user);
            st.result.Ok? && !SchemaValid(st.result.value) && st.result.value.completedDate == db.requests[id].completedDate
  {
  }

  // ---------------------------------------------------------------- assignment

  /**
    The guards of `assignTechnician`, in order: only MANAGER and ADMIN pass
    (403, before any lookup); the request must exist (404); its team must still
    exist for `.technicians` to be read (a TypeError, 500); the technician must
    be on that team's list (400).
  */
  function CheckAssign(db: Db, id: Id, technicianId: Id, user: User): (r: Result<MaintenanceRequest>)
    ensures user.role != MANAGER && user.role != ADMIN ==> r == Err(Forbidden(OnlyManagersAssign))
    ensures (user.role == MANAGER || user.role == ADMIN) && id !in db.requests ==> r == Err(NotFound(RequestNotFound))
    ensures (user.role == MANAGER || user.role == ADMIN) && id in db.requests
            && db.requests[id].maintenanceTeam !in db.teams
            ==> r == Err(ServerError(NullTechnicians))
    ensures (user.role == MANAGER || user.role == ADMIN) && id in db.requests
            && db.requests[id].maintenanceTeam in db.teams
            && technicianId !in db.teams[db.requests[id].maintenanceTeam].technicians
            ==> r == Err(BadRequest(TechnicianNotInTeam))
    ensures r.Ok? <==> (user.role == MANAGER || user.role == ADMIN) && id in db.requests
                       && db.requests[id].maintenanceTeam in db.teams
                       && technicianId in db.teams[db.requests[id].maintenanceTeam].technicians
    ensures r.Ok? ==> r.value == db.requests[id]
  {
    if user.role != MANAGER && user.role != ADMIN then Err(Forbidden(OnlyManagersAssign))
    else if id !in db.requests then Err(NotFound(RequestNotFound))
    else
      var current := db.requests[id];
      if current.maintenanceTeam !in db.teams then
        Err(ServerError(NullTechnicians))
      else if technicianId !in db.teams[current.maintenanceTeam].technicians then
        Err(BadRequest(TechnicianNotInTeam))
      else Ok(current)
  }

  /**
    The document `assignTechnician` saves: the technician recorded, NEW moved
    to IN_PROGRESS and any other status kept, then the save hook.
  */
  function AssignedDocument(r: MaintenanceRequest, technicianId: Id, now: Date): (a: MaintenanceRequest)
    ensures a.assignedTechnician == Some(technicianId)
    ensures a.status == (if r.status == NEW then IN_PROGRESS else r.status)
    ensures a.status == REPAIRED && r.completedDate.None? ==> a.completedDate == Some(now)
    ensures a.status != REPAIRED || r.completedDate.Some? ==> a.completedDate == r.completedDate
    ensures a.(assignedTechnician := r.assignedTechnician, status := r.status, completedDate := r.completedDate) == r
  {
    PreSave(r.(assignedTechnician := Some(technicianId), status := if r.status == NEW then IN_PROGRESS else r.status), now)
  }

  /**
    `assignTechnician`: a failing guard of `CheckAssign` is the answer (403
    for anyone but a MANAGER or ADMIN, before any lookup); otherwise the
    request is saved, which runs the schema's validators (a failure is
    answered 500) and the save hook.
  */
  function AssignSpec(db: Db, id: Id, technicianId: Id, user: User, now: Date): (st: Step<MaintenanceRequest>)
    ensures CheckAssign(db, id, technicianId, user).Err? ==> st.result == CheckAssign(db, id, technicianId, user)
    ensures st.result.Ok? <==> (CheckAssign(db, id, technicianId, user).Ok?
                                && SchemaValid(AssignedDocument(db.requests[id], technicianId, now)))
    ensures st.result.Ok? ==> user.role == MANAGER || user.role == ADMIN
    ensures st.result.Err? ==> st.db == db
    ensures st.result.Ok? ==> (id in db.requests
                               && st.db == db.(requests := db.requests[id := st.result.value])
                               && st.result.value == AssignedDocument(db.requests[id], technicianId, now)
                               && SchemaValid(st.result.value))
  {
    match CheckAssign(db, id, technicianId, user)
    case Err(e) => Step(Err(e), db)
    case Ok(current) =>
      var saved := AssignedDocument(current, technicianId, now);
      if !SchemaValid(saved) then Step(Err(ServerError(RequestValidationFailed)), db)
      else Step(Ok(saved), db.(requests := db.requests[id := saved]))
  }

  method AssignTechnician(s: Store, id: Id, technicianId: Id, user: User, now: Date)
    returns (r: Result<MaintenanceRequest>)
    requires s.Valid()
    modifies s
    ensures s.Valid()
    ensures Step(r, s.State()) == AssignSpec(old(s.State()), id, technicianId, user, now)
  {
    var checked := CheckAssign(s.State(), id, technicianId, user);
    if checked.Err? {
      return checked;
    }
    var saved := AssignedDocument(checked.value, technicianId, now);
    if !SchemaValid(saved) {
      return Err(ServerError(RequestValidationFailed));
    }
    s.requests := s.requests[id := saved];
    r := Ok(saved);
  }

  /**
    On success the assignee is on the roster of the request's team, and the
    status moves only along the table: NEW to IN_PROGRESS, otherwise not at all.
  */
  lemma AssignmentRespectsTeamAndTable(db: Db, id: Id, technicianId: Id, user: User, now: Date)
    requires AssignSpec(db, id, technicianId, user, now).result.Ok?
    ensures var after := AssignSpec(db, id, technicianId, user, now).result.value;
            && id in db.requests
            && after.maintenanceTeam == db.requests[id].maintenanceTeam
            && after.maintenanceTeam in db.teams
            && technicianId in db.teams[after.maintenanceTeam].technicians
            && (after.status == db.requests[id].status || CanTransition(db.requests[id].status, after.status))
  {
  }

  /**
    The save on assignment is where a REPAIRED request first gets its
    completion date when the status update did not stamp it.
  */
  lemma AssignStampsRepairedRequest(db: Db, id: Id, technicianId: Id, user: User, now: Date)
    requires id in db.requests && db.requests[id].status == REPAIRED && db.requests[id].completedDate.None?
    requires AssignSpec(db, id, technicianId, user, now).result.Ok?
    ensures AssignSpec(db, id, technicianId, user, now).result.value.completedDate == Some(now)
  {
  }
}
