/**
  The equipment document: its enumerations, required fields and defaults, the
  record a creation stores, and the record `markAsScrap` leaves behind.
*/
module EquipmentModel {
  import opened Common

  datatype EquipmentStatus = ACTIVE | SCRAPPED
  datatype Category = MACHINERY | VEHICLE | COMPUTER | TOOL | OTHER

  function EquipmentStatusName(s: EquipmentStatus): string
  {
    match s
    case ACTIVE => "ACTIVE"
    case SCRAPPED => "SCRAPPED"
  }

  function ParseEquipmentStatus(text: string): (r: Option<EquipmentStatus>)
    ensures r.Some? ==> EquipmentStatusName(r.value) == text
    ensures r.None? ==> forall s :: EquipmentStatusName(s) != text
  {
    if text == "ACTIVE" then Some(ACTIVE)
    else if text == "SCRAPPED" then Some(SCRAPPED)
    else None
  }

  function CategoryName(c: Category): string
  {
    match c
    case MACHINERY => "MACHINERY"
    case VEHICLE => "VEHICLE"
    case COMPUTER => "COMPUTER"
    case TOOL => "TOOL"
    case OTHER => "OTHER"
  }

  function ParseCategory(text: string): (r: Option<Category>)
    ensures r.Some? ==> CategoryName(r.value) == text
    ensures r.None? ==> forall c :: CategoryName(c) != text
  {
    if text == "MACHINERY" then Some(MACHINERY)
    else if text == "VEHICLE" then Some(VEHICLE)
    else if text == "COMPUTER" then Some(COMPUTER)
    else if text == "TOOL" then Some(TOOL)
    else if text == "OTHER" then Some(OTHER)
    else None
  }

  /** A stored piece of equipment. */
  datatype Equipment = Equipment(
    name: string,
    serialNumber: string,
    category: Category,
    purchaseDate: Date,
    warrantyExpiry: Date,
    location: string,
    department: string,
    assignedEmployee: Id,
    maintenanceTeam: Id,
    defaultTechnician: Option<Id>,
    status: EquipmentStatus,
    scrapReason: Option<string>,
    scrapDate: Option<Date>,
    specifications: Option<string>)

  /** The fields a client may send to create or update equipment; `None` is an absent field. */
  datatype EquipmentBody = EquipmentBody(
    name: Option<string>,
    serialNumber: Option<string>,
    category: Option<string>,
    purchaseDate: Option<Date>,
    warrantyExpiry: Option<Date>,
    location: Option<string>,
    department: Option<string>,
    assignedEmployee: Option<Id>,
    maintenanceTeam: Option<Id>,
    defaultTechnician: Option<Id>,
    status: Option<string>,
    scrapReason: Option<string>,
    scrapDate: Option<Date>,
    specifications: Option<string>)

  /** A required string field: present and not blank once trimmed. */
  predicate RequiredText(s: Option<string>)
  {
    s.Some? && Trim(s.value) != ""
  }

  /**
    What `Equipment.create` stores for a body: every required field must be
    present (strings non-blank after trimming), `category` must be one of its
    literals once trimmed (its setter trims before the enum validator runs),
    `status` must be one of its literals as sent, and an absent `status` is ACTIVE.
  */
  function NewEquipmentDocument(body: EquipmentBody): (r: Result<Equipment>)
    ensures r.Ok? <==>
      && RequiredText(body.name) && RequiredText(body.serialNumber)
      && RequiredText(body.location) && RequiredText(body.department)
      && body.category.Some? && ParseCategory(Trim(body.category.value)).Some?
      && body.purchaseDate.Some? && body.warrantyExpiry.Some?
      && body.assignedEmployee.Some? && body.maintenanceTeam.Some?
      && (body.status.Some? ==> ParseEquipmentStatus(body.status.value).Some?)
    ensures r.Ok? ==> (r.value.status == if body.status.None? then ACTIVE
                                          else ParseEquipmentStatus(body.status.value).value)
    ensures r.Ok? ==> CategoryName(r.value.category) == Trim(body.category.value)
    ensures r.Ok? ==> (r.value.serialNumber == Trim(body.serialNumber.value)
                       && r.value.maintenanceTeam == body.maintenanceTeam.value
                       && r.value.assignedEmployee == body.assignedEmployee.value)
    ensures r.Err? ==> r.error.BadRequest?
  {
    var category := if body.category.Some? then ParseCategory(Trim(body.category.value)) else None;
    var status := if body.status.None? then Some(ACTIVE) else ParseEquipmentStatus(body.status.value);
    if && RequiredText(body.name) && RequiredText(body.serialNumber)
       && RequiredText(body.location) && RequiredText(body.department)
       && category.Some? && body.purchaseDate.Some? && body.warrantyExpiry.Some?
       && body.assignedEmployee.Some? && body.maintenanceTeam.Some? && status.Some?
    then
      Ok(Equipment(
        Trim(body.name.value), Trim(body.serialNumber.value), category.value,
        body.purchaseDate.value, body.warrantyExpiry.value,
        Trim(body.location.value), Trim(body.department.value),
        body.assignedEmployee.value, body.maintenanceTeam.value, body.defaultTechnician,
        status.value, TrimOpt(body.scrapReason), body.scrapDate, TrimOpt(body.specifications)))
    else
      Err(BadRequest(EquipmentValidationFailed))
  }

  /** An absent `status` in a creation body gives ACTIVE equipment. */
  lemma NewEquipmentIsActiveByDefault(body: EquipmentBody)
    requires body.status.None?
    requires NewEquipmentDocument(body).Ok?
    ensures NewEquipmentDocument(body).value.status == ACTIVE
    ensures NewEquipmentDocument(body).value.scrapDate == body.scrapDate
  {
  }

  /** `trim: true` on an optional string field. */
  function TrimOpt(s: Option<string>): Option<string>
  {
    match s
    case None => None
    case Some(v) => Some(Trim(v))
  }

  /**
    The update validators that run on `findByIdAndUpdate(..., { runValidators: true })`:
    the enumerated fields that the patch sets must hold one of their literals,
    `category` once its setter has trimmed it.
  */
  predicate PatchValid(patch: EquipmentBody)
  {
    && (patch.status.Some? ==> ParseEquipmentStatus(patch.status.value).Some?)
    && (patch.category.Some? ==> ParseCategory(Trim(patch.category.value)).Some?)
  }

  /** A `$set` of one field: the given value when the patch holds one, the current value otherwise. */
  function SetOr<T>(given: Option<T>, current: T): T
  {
    if given.Some? then given.value else current
  }

  /** A `$set` of an optional field. */
  function SetOptOr<T>(given: Option<T>, current: Option<T>): Option<T>
  {
    if given.Some? then given else current
  }

  /** The value a patch's `status` literal casts to, when it holds one. */
  function StatusOf(patch: EquipmentBody): Option<EquipmentStatus>
  {
    if patch.status.Some? then ParseEquipmentStatus(patch.status.value) else None
  }

  /** The value a patch's `category` casts to once trimmed, when it holds one. */
  function CategoryOf(patch: EquipmentBody): Option<Category>
  {
    if patch.category.Some? then ParseCategory(Trim(patch.category.value)) else None
  }

  /** The record after `$set` of every field the patch holds; the others keep their values. */
  function Patched(e: Equipment, patch: EquipmentBody): (r: Equipment)
    requires PatchValid(patch)
    ensures patch.status.Some? ==> EquipmentStatusName(r.status) == patch.status.value
    ensures patch.status.None? ==> r.status == e.status
    ensures patch.serialNumber.Some? ==> r.serialNumber == Trim(patch.serialNumber.value)
    ensures patch.serialNumber.None? ==> r.serialNumber == e.serialNumber
  {
    Equipment(
      SetOr(TrimOpt(patch.name), e.name),
      SetOr(TrimOpt(patch.serialNumber), e.serialNumber),
      SetOr(CategoryOf(patch), e.category),
      SetOr(patch.purchaseDate, e.purchaseDate),
      SetOr(patch.warrantyExpiry, e.warrantyExpiry),
      SetOr(TrimOpt(patch.location), e.location),
      SetOr(TrimOpt(patch.department), e.department),
      SetOr(patch.assignedEmployee, e.assignedEmployee),
      SetOr(patch.maintenanceTeam, e.maintenanceTeam),
      SetOptOr(patch.defaultTechnician, e.defaultTechnician),
      SetOr(StatusOf(patch), e.status),
      SetOptOr(TrimOpt(patch.scrapReason), e.scrapReason),
      SetOptOr(patch.scrapDate, e.scrapDate),
      SetOptOr(TrimOpt(patch.specifications), e.specifications))
  }

  /** A required field after `$set`: the patch's value when it holds one, the old value otherwise. */
  predicate SetTo<T(==)>(given: Option<T>, now: T, before: T)
  {
    if given.Some? then now == given.value else now == before
  }

  /** A string field with `trim: true` after `$set`: the trimmed value when given, the old value otherwise. */
  predicate SetToTrimmed(given: Option<string>, now: string, before: string)
  {
    if given.Some? then now == Trim(given.value) else now == before
  }

  /** An optional field after `$set`: a given value replaces the old one, an absent one keeps it. */
  predicate SetOptTo<T(==)>(given: Option<T>, now: Option<T>, before: Option<T>)
  {
    if given.Some? then now == given else now == before
  }

  /** An optional string field with `trim: true` after `$set`. */
  predicate SetOptToTrimmed(given: Option<string>, now: Option<string>, before: Option<string>)
  {
    if given.Some? then now == Some(Trim(given.value)) else now == before
  }

  /**
    Field by field, an update sets what the body holds (trimmed where the
    schema trims, the category by its trimmed literal) and keeps every
    field the body leaves out.
  */
  lemma PatchedFields(e: Equipment, patch: EquipmentBody)
    requires PatchValid(patch)
    ensures var r := Patched(e, patch);
      && SetToTrimmed(patch.name, r.name, e.name)
      && SetToTrimmed(patch.serialNumber, r.serialNumber, e.serialNumber)
      && (patch.category.Some? ==> CategoryName(r.category) == Trim(patch.category.value))
      && (patch.category.None? ==> r.category == e.category)
      && SetTo(patch.purchaseDate, r.purchaseDate, e.purchaseDate)
      && SetTo(patch.warrantyExpiry, r.warrantyExpiry, e.warrantyExpiry)
      && SetToTrimmed(patch.location, r.location, e.location)
      && SetToTrimmed(patch.department, r.department, e.department)
      && SetTo(patch.assignedEmployee, r.assignedEmployee, e.assignedEmployee)
      && SetTo(patch.maintenanceTeam, r.maintenanceTeam, e.maintenanceTeam)
      && SetOptTo(patch.defaultTechnician, r.defaultTechnician, e.defaultTechnician)
      && (patch.status.Some? ==> EquipmentStatusName(r.status) == patch.status.value)
      && (patch.status.None? ==> r.status == e.status)
      && SetOptToTrimmed(patch.scrapReason, r.scrapReason, e.scrapReason)
      && SetOptTo(patch.scrapDate, r.scrapDate, e.scrapDate)
      && SetOptToTrimmed(patch.specifications, r.specifications, e.specifications)
  {
  }

  /** The patch that sets nothing. */
  const EmptyPatch := EquipmentBody(None, None, None, None, None, None, None, None, None, None, None, None, None, None)

  /** An update whose body sets nothing leaves the record as it is. */
  lemma EmptyPatchChangesNothing(e: Equipment)
    ensures PatchValid(EmptyPatch) && Patched(e, EmptyPatch) == e
  {
  }

  /** The two records agree on every field but the status and the two scrap fields. */
  predicate SameOutsideScrap(a: Equipment, b: Equipment)
  {
    && a.name == b.name && a.serialNumber == b.serialNumber && a.category == b.category
    && a.purchaseDate == b.purchaseDate && a.warrantyExpiry == b.warrantyExpiry
    && a.location == b.location && a.department == b.department
    && a.assignedEmployee == b.assignedEmployee && a.maintenanceTeam == b.maintenanceTeam
    && a.defaultTechnician == b.defaultTechnician && a.specifications == b.specifications
  }

  /**
    The record `markAsScrap(reason)` saves: status SCRAPPED, the given reason
    and the current instant as scrap date; no other field changes.
  */
  function MarkedAsScrap(e: Equipment, reason: string, now: Date): (r: Equipment)
    ensures r.status == SCRAPPED && r.scrapReason == Some(Trim(reason)) && r.scrapDate == Some(now)
  {
    e.(status := SCRAPPED, scrapReason := Some(Trim(reason)), scrapDate := Some(now))
  }

  /** Scrapping changes no field but the status and the two scrap fields. */
  lemma ScrapKeepsOtherFields(e: Equipment, reason: string, now: Date)
    ensures SameOutsideScrap(MarkedAsScrap(e, reason, now), e)
  {
  }

  /** Scrapping twice keeps SCRAPPED but the second reason and date replace the first. */
  lemma MarkAsScrapTwice(e: Equipment, reason1: string, now1: Date, reason2: string, now2: Date)
    ensures MarkedAsScrap(MarkedAsScrap(e, reason1, now1), reason2, now2) == MarkedAsScrap(e, reason2, now2)
  {
  }
}
