/**
  The maintenance-request document: its enumerations, defaults, the
  conditional `scheduledDate` requirement, the `hoursSpent` bound and the
  `pre('save')` hook that stamps `completedDate`.
*/
module RequestModel {
  import opened Common

  datatype Status = NEW | IN_PROGRESS | REPAIRED | SCRAP
  datatype RequestType = CORRECTIVE | PREVENTIVE
  datatype Priority = LOW | MEDIUM | HIGH | CRITICAL

  function StatusName(s: Status): string
  {
    match s
    case NEW => "NEW"
    case IN_PROGRESS => "IN_PROGRESS"
    case REPAIRED => "REPAIRED"
    case SCRAP => "SCRAP"
  }

  /** The enum validator on `status`: only the four literals are accepted. */
  function ParseStatus(text: string): (r: Option<Status>)
    ensures r.Some? ==> StatusName(r.value) == text
    ensures r.None? ==> forall s :: StatusName(s) != text
  {
    if text == "NEW" then Some(NEW)
    else if text == "IN_PROGRESS" then Some(IN_PROGRESS)
    else if text == "REPAIRED" then Some(REPAIRED)
    else if text == "SCRAP" then Some(SCRAP)
    else None
  }

  function RequestTypeName(t: RequestType): string
  {
    match t
    case CORRECTIVE => "CORRECTIVE"
    case PREVENTIVE => "PREVENTIVE"
  }

  function ParseRequestType(text: string): (r: Option<RequestType>)
    ensures r.Some? ==> RequestTypeName(r.value) == text
    ensures r.None? ==> forall t :: RequestTypeName(t) != text
  {
    if text == "CORRECTIVE" then Some(CORRECTIVE)
    else if text == "PREVENTIVE" then Some(PREVENTIVE)
    else None
  }

  function PriorityName(p: Priority): string
  {
    match p
    case LOW => "LOW"
    case MEDIUM => "MEDIUM"
    case HIGH => "HIGH"
    case CRITICAL => "CRITICAL"
  }

  function ParsePriority(text: string): (r: Option<Priority>)
    ensures r.Some? ==> PriorityName(r.value) == text
    ensures r.None? ==> forall p :: PriorityName(p) != text
  {
    if text == "LOW" then Some(LOW)
    else if text == "MEDIUM" then Some(MEDIUM)
    else if text == "HIGH" then Some(HIGH)
    else if text == "CRITICAL" then Some(CRITICAL)
    else None
  }

  /** Every literal parses back to the value it names. */
  lemma EnumNamesRoundTrip(s: Status, t: RequestType, p: Priority)
    ensures ParseStatus(StatusName(s)) == Some(s)
    ensures ParseRequestType(RequestTypeName(t)) == Some(t)
    ensures ParsePriority(PriorityName(p)) == Some(p)
  {
  }

  /**
    A stored request. The schema declares `equipment` as a list of ids; every
    request the server creates holds the one equipment it was created for.
  */
  datatype MaintenanceRequest = MaintenanceRequest(
    subject: string,
    description: string,
    equipment: Id,
    maintenanceTeam: Id,
    assignedTechnician: Option<Id>,
    requestType: RequestType,
    status: Status,
    scheduledDate: Option<Date>,
    completedDate: Option<Date>,
    hoursSpent: Option<int>,
    createdBy: Id,
    notes: Option<string>,
    priority: Priority)

  /**
    The schema's validators that a typed record can still fail: required
    (trimmed, so non-empty) subject and description, `scheduledDate` when the
    request is PREVENTIVE, and `hoursSpent` at least 0. The enumerations hold by
    construction of the record.
  */
  predicate SchemaValid(r: MaintenanceRequest)
  {
    && r.subject != "" && r.description != ""
    && (r.requestType == PREVENTIVE ==> r.scheduledDate.Some?)
    && (r.hoursSpent.Some? ==> r.hoursSpent.value >= 0)
  }

  /** The fields a client may send when creating a request; `None` is an absent field. */
  datatype RequestBody = RequestBody(
    subject: Option<string>,
    description: Option<string>,
    equipment: Option<Id>,
    requestType: Option<string>,
    status: Option<string>,
    priority: Option<string>,
    maintenanceTeam: Option<Id>,
    assignedTechnician: Option<Id>,
    createdBy: Option<Id>,
    scheduledDate: Option<Date>,
    completedDate: Option<Date>,
    hoursSpent: Option<int>,
    notes: Option<string>)

  /** `trim: true` on an optional string field. */
  function TrimOpt(s: Option<string>): Option<string>
  {
    match s
    case None => None
    case Some(v) => Some(Trim(v))
  }

  /**
    The `pre('save')` hook: a REPAIRED request without a completion date is
    stamped with `now`; every other request is left as it is.
  */
  function PreSave(r: MaintenanceRequest, now: Date): (saved: MaintenanceRequest)
    ensures r.status == REPAIRED && r.completedDate.None? ==> saved.completedDate == Some(now)
    ensures r.status != REPAIRED || r.completedDate.Some? ==> saved == r
    ensures saved.(completedDate := r.completedDate) == r
  {
    if r.status == REPAIRED && r.completedDate.None? then r.(completedDate := Some(now)) else r
  }

  /**
    What `MaintenanceRequest.create` stores for the spread body: the body's
    fields are cast and checked against the schema (any failure is a
    validation error), the defaults NEW and MEDIUM fill absent `status` and
    `priority`, strings are trimmed, and the save hook runs. `equipment`,
    `maintenanceTeam` and `createdBy` are the values the caller overrides the
    body with.
  */
  function NewRequestDocument(body: RequestBody, equipment: Id, team: Id, creator: Id, now: Date)
    : (r: Result<MaintenanceRequest>)
    ensures r.Ok? ==> SchemaValid(r.value)
    ensures r.Ok? ==> (r.value.maintenanceTeam == team && r.value.createdBy == creator
                       && r.value.equipment == equipment)
    ensures r.Ok? ==> (body.subject.Some? && r.value.subject == Trim(body.subject.value)
                       && body.description.Some? && r.value.description == Trim(body.description.value))
    ensures r.Ok? ==> body.requestType == Some(RequestTypeName(r.value.requestType))
    ensures r.Ok? ==> (if body.status.None? then r.value.status == NEW
                       else body.status == Some(StatusName(r.value.status)))
    ensures r.Ok? ==> (if body.priority.None? then r.value.priority == MEDIUM
                       else body.priority == Some(PriorityName(r.value.priority)))
    ensures r.Ok? ==> (r.value.assignedTechnician == body.assignedTechnician
                       && r.value.scheduledDate == body.scheduledDate && r.value.hoursSpent == body.hoursSpent)
    ensures r.Ok? && body.completedDate.Some? ==> r.value.completedDate == body.completedDate
    ensures r.Ok? && r.value.status != REPAIRED ==> r.value.completedDate == body.completedDate
    ensures r.Ok? ==> (r.value.status == REPAIRED ==> r.value.completedDate.Some?)
    ensures r.Err? ==> r.error.BadRequest?
  {
    var requestType := if body.requestType.Some? then ParseRequestType(body.requestType.value) else None;
    var status := if body.status.None? then Some(NEW) else ParseStatus(body.status.value);
    var priority := if body.priority.None? then Some(MEDIUM) else ParsePriority(body.priority.value);
    if body.subject.None? || body.description.None? || requestType.None? || status.None? || priority.None? then
      Err(BadRequest(RequestValidationFailed))
    else
      var doc := MaintenanceRequest(
        Trim(body.subject.value), Trim(body.description.value), equipment, team,
        body.assignedTechnician, requestType.value, status.value, body.scheduledDate,
        body.completedDate, body.hoursSpent, creator, TrimOpt(body.notes), priority.value);
      if !SchemaValid(doc) then Err(BadRequest(RequestValidationFailed))
      else Ok(PreSave(doc, now))
  }

  /** `scheduledDate` is demanded exactly of PREVENTIVE requests: a CORRECTIVE one validates without it. */
  lemma ScheduledDateRequiredIffPreventive(body: RequestBody, equipment: Id, team: Id, creator: Id, now: Date)
    requires body.subject.Some? && Trim(body.subject.value) != ""
    requires body.description.Some? && Trim(body.description.value) != ""
    requires body.status.None? && body.priority.None? && body.hoursSpent.None?
    requires body.scheduledDate.None?
    ensures body.requestType == Some("PREVENTIVE") ==> NewRequestDocument(body, equipment, team, creator, now).Err?
    ensures body.requestType == Some("CORRECTIVE") ==>
      var r := NewRequestDocument(body, equipment, team, creator, now);
      r.Ok? && r.value.status == NEW && r.value.priority == MEDIUM
  {
  }

  /** A negative `hoursSpent` is refused when a document is created. */
  lemma NegativeHoursRejectedOnCreate(body: RequestBody, equipment: Id, team: Id, creator: Id, now: Date)
    requires body.hoursSpent.Some? && body.hoursSpent.value < 0
    ensures NewRequestDocument(body, equipment, team, creator, now).Err?
  {
  }
}
