/**
  The equipment endpoints: creation, the filtered listing, the fetch with its
  open-request count, update, delete and scrap. Writes are methods on the
  store proved equal to specification functions on snapshots; the store's
  invariant (unique serial numbers) is kept by each of them.
*/
module EquipmentController {
  import opened Common
  import opened RequestModel
  import opened EquipmentModel
  import opened StateValidator
  import opened Database
  import RequestController

  // ---------------------------------------------------------------- markAsScrap

  /**
    `equipment.markAsScrap(reason)` on a stored record: the three fields are
    assigned and the record saved; nothing else in the store changes.
  */
  method MarkAsScrap(s: Store, id: Id, reason: string, now: Date)
    requires id in s.equipment
    modifies s
    ensures s.State() == old(s.State()).(equipment := old(s.equipment)[id := MarkedAsScrap(old(s.equipment[id]), reason, now)])
    ensures s.equipment[id].status == SCRAPPED && s.equipment[id].scrapDate == Some(now)
  {
    var e := s.equipment[id].(status := SCRAPPED, scrapReason := Some(Trim(reason)), scrapDate := Some(now));
    s.equipment := s.equipment[id := e];
  }

  // ---------------------------------------------------------------- create

  /**
    `createEquipment`: the schema validators run first (400), then the unique
    index on `serialNumber` refuses a duplicate (400).
  */
  function CreateEquipmentSpec(db: Db, body: EquipmentBody, newId: Id): (st: Step<Equipment>)
    requires newId !in db.equipment
    ensures st.result.Err? ==> st.db == db && st.result.error.BadRequest?
    ensures st.result.Ok? <==> (NewEquipmentDocument(body).Ok?
                                && !SerialTaken(db.equipment, NewEquipmentDocument(body).value.serialNumber, newId))
    ensures st.result.Ok? ==> (st.db == db.(equipment := db.equipment[newId := st.result.value])
                               && NewEquipmentDocument(body) == Ok(st.result.value)
                               && !SerialTaken(db.equipment, st.result.value.serialNumber, newId))
    ensures UniqueSerials(db.equipment) ==> UniqueSerials(st.db.equipment)
  {
    match NewEquipmentDocument(body)
    case Err(e) => Step(Err(e), db)
    case Ok(e) =>
      if SerialTaken(db.equipment, e.serialNumber, newId) then
        Step(Err(BadRequest(DuplicateSerial)), db)
      else
        FreshSerialKeepsUnique(db.equipment, newId, e);
        Step(Ok(e), db.(equipment := db.equipment[newId := e]))
  }

  /** Storing a record under `k` whose serial no other record holds keeps serials unique. */
  lemma FreshSerialKeepsUnique(equipment: map<Id, Equipment>, k: Id, e: Equipment)
    requires !SerialTaken(equipment, e.serialNumber, k)
    ensures UniqueSerials(equipment) ==> UniqueSerials(equipment[k := e])
  {
  }

  /** Replacing a stored record by one with the same serial number keeps serials unique. */
  lemma SameSerialKeepsUnique(equipment: map<Id, Equipment>, k: Id, e: Equipment)
    requires UniqueSerials(equipment) && k in equipment
    requires e.serialNumber == equipment[k].serialNumber
    ensures UniqueSerials(equipment[k := e])
  {
    FreshSerialKeepsUnique(equipment, k, e);
  }

  method CreateEquipment(s: Store, body: EquipmentBody, newId: Id) returns (r: Result<Equipment>)
    requires s.Valid() && newId !in s.equipment
    modifies s
    ensures s.Valid()
    ensures Step(r, s.State()) == CreateEquipmentSpec(old(s.State()), body, newId)
  {
    r := NewEquipmentDocument(body);
    if r.Err? {
      return;
    }
    if SerialTaken(s.equipment, r.value.serialNumber, newId) {
      return Err(BadRequest(DuplicateSerial));
    }
    FreshSerialKeepsUnique(s.equipment, newId, r.value);
    s.equipment := s.equipment[newId := r.value];
  }

  /** A serial number already in use is refused, whatever else the body holds. */
  lemma DuplicateSerialRefused(db: Db, body: EquipmentBody, newId: Id, other: Id)
    requires newId !in db.equipment && other in db.equipment
    requires body.serialNumber == Some(db.equipment[other].serialNumber)
    requires Trimmed(db.equipment[other].serialNumber)
    ensures CreateEquipmentSpec(db, body, newId).result.Err?
    ensures CreateEquipmentSpec(db, body, newId).db == db
  {
    TrimmedIsFixed(db.equipment[other].serialNumber);
  }

  // ---------------------------------------------------------------- listing

  /** The query string of `getEquipments`; an empty string is an absent parameter. */
  datatype EquipmentQuery = EquipmentQuery(department: string, status: string, assignedEmployee: Id, category: string)

  /** The filter dictionary: one equality per given parameter. */
  datatype EquipmentFilter = EquipmentFilter(
    department: Option<string>,
    status: Option<string>,
    assignedEmployee: Option<Id>,
    category: Option<string>)

  predicate EquipmentFilterMatches(f: EquipmentFilter, e: Equipment)
  {
    && (f.department.Some? ==> e.department == f.department.value)
    && (f.status.Some? ==> EquipmentStatusName(e.status) == f.status.value)
    && (f.assignedEmployee.Some? ==> e.assignedEmployee == f.assignedEmployee.value)
    && (f.category.Some? ==> CategoryName(e.category) == f.category.value)
  }

  /** The listing rule on its own: every non-empty parameter must agree with the record. */
  predicate EquipmentQueryAdmits(q: EquipmentQuery, e: Equipment)
  {
    && (q.department != "" ==> e.department == q.department)
    && (q.status != "" ==> EquipmentStatusName(e.status) == q.status)
    && (q.assignedEmployee != "" ==> e.assignedEmployee == q.assignedEmployee)
    && (q.category != "" ==> CategoryName(e.category) == q.category)
  }

  /** The filter of `getEquipments`: exactly the given parameters, conjoined. */
  function BuildEquipmentFilter(q: EquipmentQuery): (f: EquipmentFilter)
    ensures forall e :: EquipmentFilterMatches(f, e) <==> EquipmentQueryAdmits(q, e)
    ensures q == EquipmentQuery("", "", "", "") ==> forall e :: EquipmentFilterMatches(f, e)
  {
    EquipmentFilter(Given(q.department), Given(q.status), Given(q.assignedEmployee), Given(q.category))
  }

  /** `getEquipments`: the ids of the stored equipment the filter matches. */
  method GetEquipments(s: Store, q: EquipmentQuery) returns (found: set<Id>)
    ensures forall id :: id in found <==> id in s.equipment && EquipmentQueryAdmits(q, s.equipment[id])
  {
    var f := BuildEquipmentFilter(q);
    found := set id | id in s.equipment && EquipmentFilterMatches(f, s.equipment[id]);
  }

  // ---------------------------------------------------------------- fetch and count

  /** A request is open while its status is neither REPAIRED nor SCRAP. */
  predicate IsOpen(s: Status)
  {
    s != REPAIRED && s != SCRAP
  }

  /** The requests on a piece of equipment that are still open. */
  function OpenRequests(requests: map<Id, MaintenanceRequest>, equipmentId: Id): (open: set<Id>)
    ensures open <= RequestController.RequestsByEquipment(requests, equipmentId)
    ensures forall id :: id in open <==>
      id in requests && requests[id].equipment == equipmentId && IsOpen(requests[id].status)
  {
    set id | id in requests && requests[id].equipment == equipmentId && IsOpen(requests[id].status)
  }

  /** The `countDocuments` of `getEquipmentById`. */
  function OpenRequestsCount(requests: map<Id, MaintenanceRequest>, equipmentId: Id): nat
  {
    |OpenRequests(requests, equipmentId)|
  }

  /** `getEquipmentById`: 404 for a missing id, otherwise the record with its open-request count. */
  function GetEquipmentById(db: Db, id: Id): (r: Result<(Equipment, nat)>)
    ensures r.Err? <==> id !in db.equipment
    ensures r.Err? ==> r.error == NotFound(EquipmentNotFound)
    ensures r.Ok? ==> r.value.0 == db.equipment[id]
    ensures r.Ok? ==> r.value.1 == OpenRequestsCount(db.requests, id)
    ensures r.Ok? ==> r.value.1 <= |RequestController.RequestsByEquipment(db.requests, id)|
  {
    if id !in db.equipment then Err(NotFound(EquipmentNotFound))
    else
      var open := OpenRequests(db.requests, id);
      SubsetCardinality(open, RequestController.RequestsByEquipment(db.requests, id));
      Ok((db.equipment[id], |open|))
  }

  lemma SubsetCardinality(a: set<Id>, b: set<Id>)
    requires a <= b
    ensures |a| <= |b|
  {
    assert b == a + (b - a);
  }

  /**
    Rewriting one open request of a piece of equipment so that it is no longer
    open lowers that equipment's count by exactly one.
  */
  lemma {:induction false} ClosingLowersCount(requests: map<Id, MaintenanceRequest>, id: Id, after: MaintenanceRequest)
    requires id in requests && IsOpen(requests[id].status)
    requires !IsOpen(after.status)
    ensures OpenRequestsCount(requests[id := after], requests[id].equipment)
            == OpenRequestsCount(requests, requests[id].equipment) - 1
  {
    var e := requests[id].equipment;
    var before := OpenRequests(requests, e);
    assert OpenRequests(requests[id := after], e) == before - {id};
    assert before == (before - {id}) + {id};
  }

  /**
    A status update that closes an open request (to REPAIRED, or to SCRAP
    from NEW or IN_PROGRESS) lowers its equipment's open-request count by one;
    any other successful update leaves the count as it was.
  */
  lemma StatusUpdateAndOpenCount(db: Db, id: Id, body: RequestController.StatusBody, user: User)
    requires RequestController.UpdateStatusSpec(db, id, body, user).result.Ok?
    ensures id in db.requests
    ensures var e := db.requests[id].equipment;
            var after := RequestController.UpdateStatusSpec(db, id, body, user).db.requests;
            (IsOpen(db.requests[id].status) && (body.status == "REPAIRED" || body.status == "SCRAP") ==>
               OpenRequestsCount(after, e) == OpenRequestsCount(db.requests, e) - 1)
            && (!IsOpen(db.requests[id].status) || body.status == "IN_PROGRESS" ==>
               OpenRequestsCount(after, e) == OpenRequestsCount(db.requests, e))
  {
    var st := RequestController.UpdateStatusSpec(db, id, body, user);
    var e := db.requests[id].equipment;
    RequestController.StatusUpdateMovesForward(db, id, body, user);
    EnumNamesRoundTrip(st.result.value.status, CORRECTIVE, LOW);
    if IsOpen(db.requests[id].status) && (body.status == "REPAIRED" || body.status == "SCRAP") {
      ClosingLowersCount(db.requests, id, st.result.value);
    } else {
      assert IsOpen(st.result.value.status) == IsOpen(db.requests[id].status);
      assert OpenRequests(st.db.requests, e) == OpenRequests(db.requests, e);
    }
  }

  // ---------------------------------------------------------------- update

  /**
    `updateEquipment` with `runValidators`: an enumerated field outside its
    literals is refused (400) before the lookup; a missing id gives 404; a
    serial number held by other equipment gives 400; otherwise every field
    the body holds is set. No guard keeps SCRAPPED equipment scrapped.
  */
  function UpdateEquipmentSpec(db: Db, id: Id, patch: EquipmentBody): (st: Step<Equipment>)
    ensures st.result.Err? ==> st.db == db
    ensures !PatchValid(patch) ==> st.result.Err? && st.result.error.BadRequest?
    ensures PatchValid(patch) && id !in db.equipment ==> st.result == Err(NotFound(EquipmentNotFound))
    ensures PatchValid(patch) && id in db.equipment ==>
              (st.result.Ok? <==> !SerialTaken(db.equipment, Patched(db.equipment[id], patch).serialNumber, id))
    ensures st.result.Ok? ==> (PatchValid(patch) && id in db.equipment
                               && st.result.value == Patched(db.equipment[id], patch)
                               && st.db == db.(equipment := db.equipment[id := st.result.value]))
    ensures UniqueSerials(db.equipment) ==> UniqueSerials(st.db.equipment)
  {
    if !PatchValid(patch) then Step(Err(BadRequest(ValidationFailed)), db)
    else if id !in db.equipment then Step(Err(NotFound(EquipmentNotFound)), db)
    else
      var e := Patched(db.equipment[id], patch);
      if SerialTaken(db.equipment, e.serialNumber, id) then
        Step(Err(BadRequest(DuplicateSerial)), db)
      else
        FreshSerialKeepsUnique(db.equipment, id, e);
        Step(Ok(e), db.(equipment := db.equipment[id := e]))
  }

  method UpdateEquipment(s: Store, id: Id, patch: EquipmentBody) returns (r: Result<Equipment>)
    requires s.Valid()
    modifies s
    ensures s.Valid()
    ensures Step(r, s.State()) == UpdateEquipmentSpec(old(s.State()), id, patch)
  {
    if !PatchValid(patch) {
      return Err(BadRequest(ValidationFailed));
    }
    if id !in s.equipment {
      return Err(NotFound(EquipmentNotFound));
    }
    var e := Patched(s.equipment[id], patch);
    if SerialTaken(s.equipment, e.serialNumber, id) {
      return Err(BadRequest(DuplicateSerial));
    }
    s.equipment := s.equipment[id := e];
    r := Ok(e);
  }

  /** An update whose body says `status: 'ACTIVE'` brings scrapped equipment back. */
  lemma UpdateRevivesScrapped(db: Db, id: Id)
    requires Consistent(db) && id in db.equipment && db.equipment[id].status == SCRAPPED
    ensures var st := UpdateEquipmentSpec(db, id, EmptyPatch.(status := Some("ACTIVE")));
            st.result.Ok? && st.db.equipment[id].status == ACTIVE
            && st.db.equipment[id].scrapDate == db.equipment[id].scrapDate
  {
    var patch := EmptyPatch.(status := Some("ACTIVE"));
    var e := Patched(db.equipment[id], patch);
    assert e.serialNumber == db.equipment[id].serialNumber;
    assert !SerialTaken(db.equipment, e.serialNumber, id);
  }

  // ---------------------------------------------------------------- delete

  /** `deleteEquipment`: 404 for a missing id; otherwise only the equipment record goes. */
  function DeleteEquipmentSpec(db: Db, id: Id): (st: Step<string>)
    ensures id !in db.equipment <==> st.result.Err?
    ensures st.result.Err? ==> st.db == db && st.result.error == NotFound(EquipmentNotFound)
    ensures st.result.Ok? ==> st.db.equipment.Keys == db.equipment.Keys - {id}
    ensures forall k :: k in st.db.equipment ==> k in db.equipment && st.db.equipment[k] == db.equipment[k]
    ensures st.db.requests == db.requests && st.db.teams == db.teams && st.db.users == db.users
  {
    if id !in db.equipment then Step(Err(NotFound(EquipmentNotFound)), db)
    else Step(Ok(EquipmentDeleted), db.(equipment := db.equipment - {id}))
  }

  method DeleteEquipment(s: Store, id: Id) returns (r: Result<string>)
    requires s.Valid()
    modifies s
    ensures s.Valid()
    ensures Step(r, s.State()) == DeleteEquipmentSpec(old(s.State()), id)
  {
    if id !in s.equipment {
      return Err(NotFound(EquipmentNotFound));
    }
    s.equipment := s.equipment - {id};
    r := Ok(EquipmentDeleted);
  }

  /**
    Requests on deleted equipment stay, now pointing at nothing: a new request
    for that equipment is refused with 404 while its old requests remain listed.
  */
  lemma DeleteLeavesRequestsBehind(db: Db, id: Id, rid: Id, body: RequestBody, user: User, newId: Id, now: Date)
    requires id in db.equipment && rid in db.requests && db.requests[rid].equipment == id
    requires body.equipment == Some(id) && newId !in db.requests
    ensures var after := DeleteEquipmentSpec(db, id).db;
            && rid in RequestController.RequestsByEquipment(after.requests, id)
            && RequestController.CreateRequestSpec(after, body, user, newId, now).result
               == Err(NotFound(EquipmentNotFound))
  {
  }

  // ---------------------------------------------------------------- scrap

  /** What a scrapped record's reason says when none was given. */
  const DefaultScrapReason: string := "Manual scrap action"

  /** `reason || 'Manual scrap action'`: an absent or empty reason is replaced. */
  function ScrapReason(reason: Option<string>): (text: string)
    ensures reason.Some? && reason.value != "" ==> text == reason.value
    ensures reason.None? || reason.value == "" ==> text == DefaultScrapReason
  {
    if reason.Some? && reason.value != "" then reason.value else DefaultScrapReason
  }

  /** `scrapEquipment`: 404 for a missing id; otherwise `markAsScrap` with the reason or its default. */
  function ScrapEquipmentSpec(db: Db, id: Id, reason: Option<string>, now: Date): (st: Step<Equipment>)
    ensures id !in db.equipment <==> st.result.Err?
    ensures st.result.Err? ==> st.db == db && st.result.error == NotFound(EquipmentNotFound)
    ensures st.result.Ok? ==> (st.result.value.status == SCRAPPED
                               && st.result.value.scrapReason == Some(Trim(ScrapReason(reason)))
                               && st.result.value.scrapDate == Some(now)
                               && st.result.value == MarkedAsScrap(db.equipment[id], ScrapReason(reason), now)
                               && st.db == db.(equipment := db.equipment[id := st.result.value]))
  {
    if id !in db.equipment then Step(Err(NotFound(EquipmentNotFound)), db)
    else
      var e := MarkedAsScrap(db.equipment[id], ScrapReason(reason), now);
      Step(Ok(e), db.(equipment := db.equipment[id := e]))
  }

  method ScrapEquipment(s: Store, id: Id, reason: Option<string>, now: Date) returns (r: Result<Equipment>)
    requires s.Valid()
    modifies s
    ensures s.Valid()
    ensures Step(r, s.State()) == ScrapEquipmentSpec(old(s.State()), id, reason, now)
  {
    if id !in s.equipment {
      return Err(NotFound(EquipmentNotFound));
    }
    SameSerialKeepsUnique(s.equipment, id, MarkedAsScrap(s.equipment[id], ScrapReason(reason), now));
    MarkAsScrap(s, id, ScrapReason(reason), now);
    r := Ok(s.equipment[id]);
  }

  /** The default reason has no surrounding white space, so the schema's trim keeps it whole. */
  lemma DefaultReasonTrimmed()
    ensures Trim(DefaultScrapReason) == DefaultScrapReason
  {
    var text := DefaultScrapReason;
    assert Trimmed(text) by {
      assert text[0] == 'M' && text[|text| - 1] == 'n';
    }
    TrimmedIsFixed(text);
  }

  /** Scrapping with no reason records the default reason as it is. */
  lemma ScrapRecordsDefault(db: Db, id: Id, now: Date)
    requires id in db.equipment
    ensures ScrapEquipmentSpec(db, id, None, now).result.value.scrapReason == Some(DefaultScrapReason)
  {
    var st := ScrapEquipmentSpec(db, id, None, now);
    assert st.result.value.scrapReason == Some(Trim(ScrapReason(None)));
    assert ScrapReason(None) == DefaultScrapReason;
    DefaultReasonTrimmed();
  }

  /** A second `markAsScrap` on the stored record leaves the store as one scrap with the second reason and date. */
  lemma RescrapReplaces(db: Db, id: Id, reason1: string, now1: Date, reason2: string, now2: Date)
    requires id in db.equipment
    ensures var e := db.equipment[id];
            var once := db.(equipment := db.equipment[id := MarkedAsScrap(e, reason1, now1)]);
            once.(equipment := once.equipment[id := MarkedAsScrap(once.equipment[id], reason2, now2)])
            == db.(equipment := db.equipment[id := MarkedAsScrap(e, reason2, now2)])
  {
    var e := db.equipment[id];
    var first := MarkedAsScrap(e, reason1, now1);
    MarkAsScrapTwice(e, reason1, now1, reason2, now2);
    UpdateTwice(db.equipment, id, first, MarkedAsScrap(e, reason2, now2));
  }

  /**
    Scrapping equipment that is already scrapped succeeds again, and the
    store ends as if only the second scrap had happened.
  */
  lemma ScrapRepeats(db: Db, id: Id, first: Option<string>, second: Option<string>, now1: Date, now2: Date)
    requires id in db.equipment
    ensures var once := ScrapEquipmentSpec(db, id, first, now1).db;
            ScrapEquipmentSpec(once, id, second, now2) == ScrapEquipmentSpec(db, id, second, now2)
  {
    var e := db.equipment[id];
    var text1, text2 := ScrapReason(first), ScrapReason(second);
    var once := ScrapEquipmentSpec(db, id, first, now1).db;
    assert once == db.(equipment := db.equipment[id := MarkedAsScrap(e, text1, now1)]);
    RescrapReplaces(db, id, text1, now1, text2, now2);
  }
}
