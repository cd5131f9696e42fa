/**
  The team endpoints and the membership bookkeeping they do on both sides:
  the team's `technicians` list and each user's `maintenanceTeam` reference.
*/
module TeamController {
  import opened Common
  import opened TeamModel
  import opened Database
  import RequestController

  // ---------------------------------------------------------------- create and update

  /**
    `createTeam`: the schema validators run first (400), then the unique index
    on `name` refuses a duplicate (400).
  */
  function CreateTeamSpec(db: Db, body: TeamBody, newId: Id): (st: Step<MaintenanceTeam>)
    requires newId !in db.teams
    ensures st.result.Err? ==> st.db == db && st.result.error.BadRequest?
    ensures st.result.Ok? <==> (NewTeamDocument(body).Ok?
                                && !TeamNameTaken(db.teams, NewTeamDocument(body).value.name))
    ensures NewTeamDocument(body).Ok? && TeamNameTaken(db.teams, NewTeamDocument(body).value.name)
            ==> st.result == Err(BadRequest(DuplicateTeamName))
    ensures st.result.Ok? ==> (NewTeamDocument(body) == Ok(st.result.value)
                               && !TeamNameTaken(db.teams, st.result.value.name)
                               && st.db == db.(teams := db.teams[newId := st.result.value]))
    ensures UniqueTeamNames(db.teams) ==> UniqueTeamNames(st.db.teams)
  {
    match NewTeamDocument(body)
    case Err(e) => Step(Err(e), db)
    case Ok(t) =>
      if TeamNameTaken(db.teams, t.name) then
        Step(Err(BadRequest(DuplicateTeamName)), db)
      else
        FreshNameKeepsUnique(db.teams, newId, t);
        Step(Ok(t), db.(teams := db.teams[newId := t]))
  }

  /** Storing a team under `k` with a name no stored team holds keeps names unique. */
  lemma FreshNameKeepsUnique(teams: map<Id, MaintenanceTeam>, k: Id, t: MaintenanceTeam)
    requires !TeamNameTaken(teams, t.name)
    ensures UniqueTeamNames(teams) ==> UniqueTeamNames(teams[k := t])
  {
  }

  method CreateTeam(s: Store, body: TeamBody, newId: Id) returns (r: Result<MaintenanceTeam>)
    requires s.Valid() && newId !in s.teams
    modifies s
    ensures s.Valid()
    ensures Step(r, s.State()) == CreateTeamSpec(old(s.State()), body, newId)
  {
    r := NewTeamDocument(body);
    if r.Err? {
      return;
    }
    if TeamNameTaken(s.teams, r.value.name) {
      return Err(BadRequest(DuplicateTeamName));
    }
    s.teams := s.teams[newId := r.value];
  }

  /** `getTeamById`: 404 for a missing id, the team otherwise. */
  function GetTeamById(db: Db, id: Id): (r: Result<MaintenanceTeam>)
    ensures r.Ok? <==> id in db.teams
    ensures r.Ok? ==> r.value == db.teams[id]
    ensures r.Err? ==> r.error == NotFound(TeamNotFound)
  {
    if id in db.teams then Ok(db.teams[id]) else Err(NotFound(TeamNotFound))
  }

  // ---------------------------------------------------------------- listing

  /**
    The query string of `getTeams`: `specialization` with the empty string for
    absent, `isActive` as the raw text when the parameter is present at all.
  */
  datatype TeamQuery = TeamQuery(specialization: string, isActive: Option<string>)

  datatype TeamFilter = TeamFilter(specialization: Option<string>, isActive: Option<bool>)

  predicate TeamFilterMatches(f: TeamFilter, t: MaintenanceTeam)
  {
    && (f.specialization.Some? ==> SpecializationName(t.specialization) == f.specialization.value)
    && (f.isActive.Some? ==> t.isActive == f.isActive.value)
  }

  /**
    The listing rule on its own: a given specialization must agree, and a
    present `isActive` selects the active teams when it reads `true` and the
    inactive ones for any other text.
  */
  predicate TeamQueryAdmits(q: TeamQuery, t: MaintenanceTeam)
  {
    && (q.specialization != "" ==> SpecializationName(t.specialization) == q.specialization)
    && (q.isActive == Some("true") ==> t.isActive)
    && (q.isActive.Some? && q.isActive.value != "true" ==> !t.isActive)
  }

  /** The filter of `getTeams`. */
  function BuildTeamFilter(q: TeamQuery): (f: TeamFilter)
    ensures forall t :: TeamFilterMatches(f, t) <==> TeamQueryAdmits(q, t)
    ensures f.isActive.Some? ==> (f.isActive.value <==> q.isActive == Some("true"))
  {
    TeamFilter(Given(q.specialization), if q.isActive.Some? then Some(q.isActive.value == "true") else None)
  }

  /** `getTeams`: the ids of the stored teams the filter matches. */
  method GetTeams(s: Store, q: TeamQuery) returns (found: set<Id>)
    ensures forall id :: id in found <==> id in s.teams && TeamQueryAdmits(q, s.teams[id])
  {
    var f := BuildTeamFilter(q);
    found := set id | id in s.teams && TeamFilterMatches(f, s.teams[id]);
  }

  // ---------------------------------------------------------------- add a technician

  /**
    `addTechnician`: the user must exist with role TECHNICIAN (400, checked
    before the team); the team must exist (404). A technician already listed
    changes nothing; otherwise the id is appended and the user's team is set
    to this one. Other teams' lists are not touched.
  */
  function AddTechnicianSpec(db: Db, teamId: Id, technicianId: Id): (st: Step<MaintenanceTeam>)
    ensures technicianId !in db.users || db.users[technicianId].role != TECHNICIAN
            ==> st == Step(Err(BadRequest(InvalidTechnician)), db)
    ensures technicianId in db.users && db.users[technicianId].role == TECHNICIAN && teamId !in db.teams
            ==> st == Step(Err(NotFound(TeamNotFound)), db)
    ensures st.result.Ok? <==> (technicianId in db.users && db.users[technicianId].role == TECHNICIAN
                                && teamId in db.teams)
    ensures st.result.Ok? && technicianId in db.teams[teamId].technicians
            ==> st == Step(Ok(db.teams[teamId]), db)
    ensures st.result.Ok? && technicianId !in db.teams[teamId].technicians ==>
              && st.result.value.technicians == db.teams[teamId].technicians + [technicianId]
              && st.result.value == db.teams[teamId].(technicians := st.result.value.technicians)
              && st.db == db.(teams := db.teams[teamId := st.result.value],
                              users := db.users[technicianId := db.users[technicianId].(maintenanceTeam := Some(teamId))])
  {
    if technicianId !in db.users || db.users[technicianId].role != TECHNICIAN then
      Step(Err(BadRequest(InvalidTechnician)), db)
    else if teamId !in db.teams then Step(Err(NotFound(TeamNotFound)), db)
    else
      var team := db.teams[teamId];
      if technicianId in team.technicians then Step(Ok(team), db)
      else
        var joined := team.(technicians := team.technicians + [technicianId]);
        var user := db.users[technicianId].(maintenanceTeam := Some(teamId));
        Step(Ok(joined), db.(teams := db.teams[teamId := joined], users := db.users[technicianId := user]))
  }

  method AddTechnician(s: Store, teamId: Id, technicianId: Id) returns (r: Result<MaintenanceTeam>)
    requires s.Valid()
    modifies s
    ensures s.Valid()
    ensures Step(r, s.State()) == AddTechnicianSpec(old(s.State()), teamId, technicianId)
  {
    if technicianId !in s.users || s.users[technicianId].role != TECHNICIAN {
      return Err(BadRequest(InvalidTechnician));
    }
    var technician := s.users[technicianId];
    if teamId !in s.teams {
      return Err(NotFound(TeamNotFound));
    }
    var team := s.teams[teamId];
    if technicianId !in team.technicians {
      team := team.(technicians := team.technicians + [technicianId]);
      s.teams := s.teams[teamId := team];
      technician := technician.(maintenanceTeam := Some(teamId));
      s.users := s.users[technicianId := technician];
    }
    r := Ok(team);
  }

  /** Adding the same technician twice is the same as adding them once. */
  lemma AddTechnicianIdempotent(db: Db, teamId: Id, technicianId: Id)
    ensures var once := AddTechnicianSpec(db, teamId, technicianId);
            AddTechnicianSpec(once.db, teamId, technicianId) == once
  {
  }

  /**
    A newly added technician appears exactly once in the list, and a team
    that listed them before keeps listing them although their reference now
    points at the new team.
  */
  lemma AddKeepsPreviousRoster(db: Db, teamId: Id, previous: Id, technicianId: Id)
    requires previous != teamId && previous in db.teams && technicianId in db.teams[previous].technicians
    requires AddTechnicianSpec(db, teamId, technicianId).result.Ok?
    requires technicianId !in db.teams[teamId].technicians
    ensures var after := AddTechnicianSpec(db, teamId, technicianId).db;
            && multiset(after.teams[teamId].technicians)[technicianId] == 1
            && after.teams[previous] == db.teams[previous]
            && technicianId in after.teams[previous].technicians
            && after.users[technicianId].maintenanceTeam == Some(teamId)
  {
    var list := db.teams[teamId].technicians;
    assert multiset(list + [technicianId]) == multiset(list) + multiset{technicianId};
  }

  // ---------------------------------------------------------------- remove a technician

  /** `$unset: { maintenanceTeam: 1 }` on one user, when that user exists. */
  function UnsetTeam(users: map<Id, User>, userId: Id): (after: map<Id, User>)
    ensures after.Keys == users.Keys
    ensures userId in users ==> after[userId] == users[userId].(maintenanceTeam := None)
    ensures forall k :: k in users && k != userId ==> after[k] == users[k]
  {
    if userId in users then users[userId := users[userId].(maintenanceTeam := None)] else users
  }

  /**
    `removeTechnician`: the team must exist (404); every occurrence of the id
    leaves the list and the user's team reference is unset, whichever team
    it pointed at.
  */
  function RemoveTechnicianSpec(db: Db, teamId: Id, technicianId: Id): (st: Step<MaintenanceTeam>)
    ensures teamId !in db.teams <==> st.result.Err?
    ensures st.result.Err? ==> st == Step(Err(NotFound(TeamNotFound)), db)
    ensures st.result.Ok? ==>
              && technicianId !in st.result.value.technicians
              && multiset(st.result.value.technicians) == multiset(db.teams[teamId].technicians)[technicianId := 0]
              && st.result.value == db.teams[teamId].(technicians := st.result.value.technicians)
              && st.db == db.(teams := db.teams[teamId := st.result.value], users := UnsetTeam(db.users, technicianId))
  {
    if teamId !in db.teams then Step(Err(NotFound(TeamNotFound)), db)
    else
      var team := db.teams[teamId];
      var left := team.(technicians := RemoveAll(team.technicians, technicianId));
      Step(Ok(left), db.(teams := db.teams[teamId := left], users := UnsetTeam(db.users, technicianId)))
  }

  method RemoveTechnician(s: Store, teamId: Id, technicianId: Id) returns (r: Result<MaintenanceTeam>)
    requires s.Valid()
    modifies s
    ensures s.Valid()
    ensures Step(r, s.State()) == RemoveTechnicianSpec(old(s.State()), teamId, technicianId)
  {
    if teamId !in s.teams {
      return Err(NotFound(TeamNotFound));
    }
    var team := s.teams[teamId];
    team := team.(technicians := RemoveAll(team.technicians, technicianId));
    s.teams := s.teams[teamId := team];
    s.users := UnsetTeam(s.users, technicianId);
    r := Ok(team);
  }

  /**
    Removing a technician from a team they are not on still clears their
    team reference: a member of another team ends up without a team.
  */
  lemma RemoveUnsetsOtherTeam(db: Db, teamId: Id, other: Id, technicianId: Id)
    requires teamId in db.teams && technicianId !in db.teams[teamId].technicians
    requires technicianId in db.users && db.users[technicianId].maintenanceTeam == Some(other)
    ensures var st := RemoveTechnicianSpec(db, teamId, technicianId);
            && st.db.teams[teamId] == db.teams[teamId]
            && st.db.users[technicianId].maintenanceTeam.None?
  {
    RemoveAbsentIsIdentity(db.teams[teamId].technicians, technicianId);
  }

  /** Adding and then removing a technician who was not listed restores the list. */
  lemma AddThenRemoveRestoresList(db: Db, teamId: Id, technicianId: Id)
    requires AddTechnicianSpec(db, teamId, technicianId).result.Ok?
    requires technicianId !in db.teams[teamId].technicians
    ensures var added := AddTechnicianSpec(db, teamId, technicianId).db;
            RemoveTechnicianSpec(added, teamId, technicianId).db.teams == db.teams
  {
    var team := db.teams[teamId];
    var list := team.technicians;
    var added := AddTechnicianSpec(db, teamId, technicianId).db;
    var joined := team.(technicians := list + [technicianId]);
    assert added.teams == db.teams[teamId := joined];
    RemoveUndoesAppend(list, technicianId);
    var removed := RemoveTechnicianSpec(added, teamId, technicianId).db;
    assert removed.teams == added.teams[teamId := joined.(technicians := list)];
    assert joined.(technicians := list) == team;
  }

  // ---------------------------------------------------------------- delete a team

  /** The users after `updateMany({ maintenanceTeam: id }, { $unset: ... })`. */
  function ClearTeamReferences(users: map<Id, User>, teamId: Id): (after: map<Id, User>)
    ensures after.Keys == users.Keys
    ensures forall k :: k in users && users[k].maintenanceTeam == Some(teamId) ==>
              after[k] == users[k].(maintenanceTeam := None)
    ensures forall k :: k in users && users[k].maintenanceTeam != Some(teamId) ==> after[k] == users[k]
  {
    map k | k in users :: if users[k].maintenanceTeam == Some(teamId) then users[k].(maintenanceTeam := None) else users[k]
  }

  /**
    `deleteTeam`: 404 for a missing team; otherwise the team goes and exactly
    the users that pointed at it lose their reference. Equipment and requests
    still naming the team are left as they are.
  */
  function DeleteTeamSpec(db: Db, teamId: Id): (st: Step<string>)
    ensures teamId !in db.teams <==> st.result.Err?
    ensures st.result.Err? ==> st == Step(Err(NotFound(TeamNotFound)), db)
    ensures st.result.Ok? ==> st.db == db.(teams := db.teams - {teamId}, users := ClearTeamReferences(db.users, teamId))
    ensures st.db.equipment == db.equipment && st.db.requests == db.requests
    ensures forall k :: k in st.db.users ==> st.db.users[k].maintenanceTeam != Some(teamId) || st.result.Err?
  {
    if teamId !in db.teams then Step(Err(NotFound(TeamNotFound)), db)
    else Step(Ok(TeamDeleted), db.(teams := db.teams - {teamId}, users := ClearTeamReferences(db.users, teamId)))
  }

  method DeleteTeam(s: Store, teamId: Id) returns (r: Result<string>)
    requires s.Valid()
    modifies s
    ensures s.Valid()
    ensures Step(r, s.State()) == DeleteTeamSpec(old(s.State()), teamId)
  {
    if teamId !in s.teams {
      return Err(NotFound(TeamNotFound));
    }
    s.teams := s.teams - {teamId};
    var users := s.users;
    var pending := users.Keys;
    var cleared := users;
    while pending != {}
      invariant pending <= users.Keys && cleared.Keys == users.Keys
      invariant forall k :: k in pending ==> cleared[k] == users[k]
      invariant forall k :: k in users && k !in pending ==>
                  cleared[k] == ClearTeamReferences(users, teamId)[k]
      decreases pending
    {
      var k :| k in pending;
      if users[k].maintenanceTeam == Some(teamId) {
        cleared := cleared[k := users[k].(maintenanceTeam := None)];
      }
      pending := pending - {k};
    }
    s.users := cleared;
    r := Ok(TeamDeleted);
  }

  /**
    A deleted team leaves its requests behind with a reference to nothing:
    assigning any technician to one of them is answered 500.
  */
  lemma DeletedTeamBreaksAssign(db: Db, teamId: Id, requestId: Id, technicianId: Id, user: User, now: Date)
    requires teamId in db.teams && requestId in db.requests
    requires db.requests[requestId].maintenanceTeam == teamId
    requires user.role == ADMIN || user.role == MANAGER
    ensures var after := DeleteTeamSpec(db, teamId).db;
            && requestId in after.requests
            && RequestController.AssignSpec(after, requestId, technicianId, user, now).result
               == Err(ServerError(NullTechnicians))
  {
  }
}
