/**
  One request's life, operation after operation, on any store where the
  equipment is ACTIVE and its team lists the technician: created by an
  employee, assigned by a manager, repaired by the technician, then refused a
  move back to NEW; and the fetch of that request by technicians.
*/
module Scenario {
  import opened Common
  import opened RequestModel
  import opened EquipmentModel
  import opened TeamModel
  import opened StateValidator
  import opened Database
  import opened RequestController

  /** A CORRECTIVE report with subject and description and nothing else optional. */
  predicate PlainReport(body: RequestBody, equipment: Id)
  {
    && body.equipment == Some(equipment)
    && body.requestType == Some("CORRECTIVE")
    && body.subject.Some? && Trim(body.subject.value) != ""
    && body.description.Some? && Trim(body.description.value) != ""
    && body.status.None? && body.priority.None? && body.hoursSpent.None?
    && body.scheduledDate.None? && body.completedDate.None? && body.assignedTechnician.None?
  }

  /** The store the scenario starts from: ACTIVE equipment whose existing team lists the technician. */
  predicate Staffed(db: Db, equipment: Id, tech: User)
  {
    && equipment in db.equipment
    && db.equipment[equipment].status == ACTIVE
    && db.equipment[equipment].maintenanceTeam in db.teams
    && tech.role == TECHNICIAN
    && tech.id in db.teams[db.equipment[equipment].maintenanceTeam].technicians
  }

  /** Creation routes the report to the equipment's team, with status NEW and no assignee. */
  lemma CreatedAsNew(db: Db, body: RequestBody, equipment: Id, tech: User, employee: User, rid: Id, now: Date)
    requires Staffed(db, equipment, tech) && PlainReport(body, equipment) && rid !in db.requests
    ensures var st := CreateRequestSpec(db, body, employee, rid, now);
            && st.result.Ok?
            && st.result.value.status == NEW
            && st.result.value.maintenanceTeam == db.equipment[equipment].maintenanceTeam
            && st.result.value.createdBy == employee.id
            && st.result.value.assignedTechnician.None?
            && st.db.requests == db.requests[rid := st.result.value]
  {
    ScheduledDateRequiredIffPreventive(body, equipment, db.equipment[equipment].maintenanceTeam, employee.id, now);
  }

  /**
    A manager assigning the staffed technician to the freshly created report
    moves it to IN_PROGRESS with that assignee, still without a completion date.
  */
  lemma AssignedAfterCreate(db: Db, body: RequestBody, equipment: Id, tech: User, employee: User, manager: User,
                            rid: Id, now1: Date, now2: Date)
    requires Staffed(db, equipment, tech) && PlainReport(body, equipment) && rid !in db.requests
    requires manager.role == MANAGER
    ensures var created := CreateRequestSpec(db, body, employee, rid, now1);
            var afterAssign := AssignSpec(created.db, rid, tech.id, manager, now2);
            && afterAssign.result.Ok?
            && rid in afterAssign.db.requests
            && afterAssign.db.requests[rid] == afterAssign.result.value
            && afterAssign.result.value.status == IN_PROGRESS
            && afterAssign.result.value.assignedTechnician == Some(tech.id)
            && afterAssign.result.value.maintenanceTeam == db.equipment[equipment].maintenanceTeam
            && afterAssign.result.value.completedDate.None?
  {
    CreatedAsNew(db, body, equipment, tech, employee, rid, now1);
    var created := CreateRequestSpec(db, body, employee, rid, now1);
    assert CheckAssign(created.db, rid, tech.id, manager).Ok?;
  }

  /**
    The assignee's update of an IN_PROGRESS request to REPAIRED with `hours`
    succeeds and records the hours, but leaves `completedDate` as it was.
  */
  lemma RepairedByAssignee(db: Db, rid: Id, tech: User, hours: nat)
    requires rid in db.requests && db.requests[rid].status == IN_PROGRESS
    requires tech.role == TECHNICIAN && db.requests[rid].assignedTechnician == Some(tech.id)
    ensures var repaired := UpdateStatusSpec(db, rid, StatusBody("REPAIRED", Some(hours), None), tech);
            && repaired.result.Ok?
            && repaired.db.requests[rid] == repaired.result.value
            && repaired.result.value.status == REPAIRED
            && repaired.result.value.hoursSpent == Some(hours)
            && repaired.result.value.completedDate == db.requests[rid].completedDate
  {
    FromInProgressAndRepaired("REPAIRED");
    assert CheckStatusUpdate(db, rid, "REPAIRED", tech).Ok?;
  }

  /** Once REPAIRED, a move back to NEW is refused with 400 and changes nothing. */
  lemma NoReopening(db: Db, rid: Id, user: User)
    requires rid in db.requests && db.requests[rid].status == REPAIRED
    ensures var reopened := UpdateStatusSpec(db, rid, StatusBody("NEW", None, None), user);
            reopened.result.Err? && HttpStatus(reopened.result.error) == 400 && reopened.db == db
  {
    TableShape("REPAIRED", "NEW");
  }

  /**
    The run: assignment moves the request to IN_PROGRESS with the technician;
    the technician's update to REPAIRED with `hours` succeeds but leaves
    `completedDate` empty, since that path runs no save hook; a move back to
    NEW is then refused with 400 and changes nothing.
  */
  lemma RequestLifecycle(db: Db, body: RequestBody, equipment: Id, tech: User, employee: User, manager: User,
                         rid: Id, hours: nat, now1: Date, now2: Date)
    requires Staffed(db, equipment, tech) && PlainReport(body, equipment) && rid !in db.requests
    requires manager.role == MANAGER
    ensures var created := CreateRequestSpec(db, body, employee, rid, now1);
            var afterAssign := AssignSpec(created.db, rid, tech.id, manager, now2);
            var repaired := UpdateStatusSpec(afterAssign.db, rid, StatusBody("REPAIRED", Some(hours), None), tech);
            var reopened := UpdateStatusSpec(repaired.db, rid, StatusBody("NEW", None, None), manager);
            && afterAssign.result.Ok?
            && afterAssign.result.value.status == IN_PROGRESS
            && afterAssign.result.value.assignedTechnician == Some(tech.id)
            && repaired.result.Ok?
            && repaired.result.value.status == REPAIRED
            && repaired.result.value.hoursSpent == Some(hours)
            && repaired.result.value.completedDate.None?
            && reopened.result.Err? && HttpStatus(reopened.result.error) == 400
            && reopened.db == repaired.db
  {
    AssignedAfterCreate(db, body, equipment, tech, employee, manager, rid, now1, now2);
    var created := CreateRequestSpec(db, body, employee, rid, now1);
    var afterAssign := AssignSpec(created.db, rid, tech.id, manager, now2);
    RepairedByAssignee(afterAssign.db, rid, tech, hours);
    var repaired := UpdateStatusSpec(afterAssign.db, rid, StatusBody("REPAIRED", Some(hours), None), tech);
    NoReopening(repaired.db, rid, manager);
  }

  /**
    After assignment, a technician who is neither the assignee nor on the
    request's team is refused the request, the assignee is granted it by the
    access rule on ids, and the populated check refuses the assignee as well.
  */
  lemma FetchByTechnicians(db: Db, body: RequestBody, equipment: Id, tech: User, other: User,
                           employee: User, manager: User, rid: Id, now1: Date, now2: Date)
    requires Staffed(db, equipment, tech) && PlainReport(body, equipment) && rid !in db.requests
    requires manager.role == MANAGER
    requires other.role == TECHNICIAN && other.id != tech.id
    requires other.maintenanceTeam != Some(db.equipment[equipment].maintenanceTeam)
    ensures var created := CreateRequestSpec(db, body, employee, rid, now1);
            var afterAssign := AssignSpec(created.db, rid, tech.id, manager, now2);
            && GetRequestById(afterAssign.db, rid, other) == Err(Forbidden(AccessDenied))
            && GetRequestById(afterAssign.db, rid, tech).Ok?
            && GetRequestByIdAsWritten(afterAssign.db, rid, tech).Err?
  {
    AssignedAfterCreate(db, body, equipment, tech, employee, manager, rid, now1, now2);
    var created := CreateRequestSpec(db, body, employee, rid, now1);
    var afterAssign := AssignSpec(created.db, rid, tech.id, manager, now2);
    var fetched := afterAssign.db.requests[rid];
    assert fetched.assignedTechnician == Some(tech.id);
    assert fetched.maintenanceTeam == db.equipment[equipment].maintenanceTeam;
  }
}
