/**
  The request lifecycle's transition table and the technician access rule,
  both pure and over a closed domain.
*/
module StateValidator {
  import opened Common
  import opened RequestModel

  /**
    The table `validTransitions`, keyed by status literal: `None` for a key the
    table does not hold, otherwise the list of accepted target literals.
  */
  function TransitionTable(current: string): Option<seq<string>>
  {
    if current == "NEW" then Some(["IN_PROGRESS", "SCRAP"])
    else if current == "IN_PROGRESS" then Some(["REPAIRED", "SCRAP"])
    else if current == "REPAIRED" then Some(["SCRAP"])
    else if current == "SCRAP" then Some([])
    else None
  }

  /** How far along the lifecycle a status is. */
  function Rank(s: Status): nat
  {
    match s
    case NEW => 0
    case IN_PROGRESS => 1
    case REPAIRED => 2
    case SCRAP => 3
  }

  /**
    `validateStateTransition(current, next)`: true only when the table lists
    `next` among the targets of `current`; an unknown `current` gives false.
    Every accepted move goes between two known statuses, strictly forward.
  */
  function ValidateStateTransition(current: string, next: string): (ok: bool)
    ensures ok ==> ParseStatus(current).Some? && ParseStatus(next).Some?
    ensures ok ==> Rank(ParseStatus(next).value) > Rank(ParseStatus(current).value)
  {
    match TransitionTable(current)
    case None => false
    case Some(targets) => next in targets
  }

  /** The table on typed statuses. */
  predicate CanTransition(from: Status, to: Status)
  {
    ValidateStateTransition(StatusName(from), StatusName(to))
  }

  /** From NEW the only accepted targets are IN_PROGRESS and SCRAP. */
  lemma FromNew(next: string)
    ensures ValidateStateTransition("NEW", next) <==> next == "IN_PROGRESS" || next == "SCRAP"
  {
  }

  /** From IN_PROGRESS only REPAIRED and SCRAP; from REPAIRED only SCRAP. */
  lemma FromInProgressAndRepaired(next: string)
    ensures ValidateStateTransition("IN_PROGRESS", next) <==> next == "REPAIRED" || next == "SCRAP"
    ensures ValidateStateTransition("REPAIRED", next) <==> next == "SCRAP"
  {
  }

  /** SCRAP is terminal, no status moves to itself, NEW is never a target. */
  lemma TableShape(current: string, next: string)
    ensures !ValidateStateTransition("SCRAP", next)
    ensures !ValidateStateTransition(current, current)
    ensures !ValidateStateTransition(current, "NEW")
  {
  }

  /** An unknown current status is answered with false, not with an error. */
  lemma UnknownCurrentRejected(current: string, next: string)
    requires ParseStatus(current).None?
    ensures !ValidateStateTransition(current, next)
  {
  }

  /** A chain of statuses each of which the table lets follow the previous one. */
  predicate IsLifecycle(p: seq<Status>)
  {
    forall i :: 0 < i < |p| ==> CanTransition(p[i - 1], p[i])
  }

  /**
    Each accepted move raises the rank by at least one, so a lifecycle climbs
    at least one rank per step and no request can cycle: at most three moves
    ever succeed on one request.
  */
  lemma {:induction false} LifecycleClimbs(p: seq<Status>)
    requires |p| > 0 && IsLifecycle(p)
    ensures Rank(p[|p| - 1]) >= Rank(p[0]) + |p| - 1
    ensures |p| <= 4
  {
    if |p| > 1 {
      var q := p[..|p| - 1];
      assert IsLifecycle(q) by {
        forall i | 0 < i < |q| ensures CanTransition(q[i - 1], q[i]) {
          assert q[i - 1] == p[i - 1] && q[i] == p[i];
        }
      }
      LifecycleClimbs(q);
      assert CanTransition(p[|p| - 2], p[|p| - 1]);
      EnumNamesRoundTrip(p[|p| - 2], CORRECTIVE, LOW);
      EnumNamesRoundTrip(p[|p| - 1], CORRECTIVE, LOW);
    }
  }

  /**
    `validateTechnicianAccess(request, user)` on ids: a TECHNICIAN reaches a
    request assigned to them or owned by their team; every other role reaches
    every request.
  */
  function ValidateTechnicianAccess(r: MaintenanceRequest, user: User): (granted: bool)
    ensures user.role != TECHNICIAN ==> granted
    ensures user.role == TECHNICIAN && user.maintenanceTeam.None? && r.assignedTechnician != Some(user.id)
            ==> !granted
  {
    if user.role == TECHNICIAN then
      var isAssigned := r.assignedTechnician.Some? && r.assignedTechnician.value == user.id;
      var isTeamMember := user.maintenanceTeam.Some? && r.maintenanceTeam == user.maintenanceTeam.value;
      isAssigned || isTeamMember
    else
      true
  }

  /** A technician is granted a request exactly when it is assigned to them or to their team. */
  lemma TechnicianAccessExactly(r: MaintenanceRequest, user: User)
    requires user.role == TECHNICIAN
    ensures ValidateTechnicianAccess(r, user) <==>
      r.assignedTechnician == Some(user.id) || user.maintenanceTeam == Some(r.maintenanceTeam)
  {
  }
}
