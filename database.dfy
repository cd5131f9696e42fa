/**
  The persisted collections the controllers read and write: users, equipment,
  teams and requests, each a map from id to record. The unique indexes on
  `serialNumber` and team `name` are the store's invariant.
*/
module Database {
  import opened Common
  import opened RequestModel
  import opened EquipmentModel
  import opened TeamModel

  /** A snapshot of the four collections. */
  datatype Db = Db(
    users: map<Id, User>,
    equipment: map<Id, Equipment>,
    teams: map<Id, MaintenanceTeam>,
    requests: map<Id, MaintenanceRequest>)

  /** What an operation answers and the collections it leaves behind. */
  datatype Step<T> = Step(result: Result<T>, db: Db)

  /** No two pieces of equipment share a serial number. */
  predicate UniqueSerials(equipment: map<Id, Equipment>)
  {
    forall a, b :: a in equipment && b in equipment && a != b ==>
      equipment[a].serialNumber != equipment[b].serialNumber
  }

  /** No two teams share a name. */
  predicate UniqueTeamNames(teams: map<Id, MaintenanceTeam>)
  {
    forall a, b :: a in teams && b in teams && a != b ==> teams[a].name != teams[b].name
  }

  /** Every user is stored under its own id. */
  predicate UsersKeyed(users: map<Id, User>)
  {
    forall k :: k in users ==> users[k].id == k
  }

  predicate Consistent(db: Db)
  {
    UniqueSerials(db.equipment) && UniqueTeamNames(db.teams) && UsersKeyed(db.users)
  }

  /** Whether a serial number is already taken by equipment other than `except`. */
  predicate SerialTaken(equipment: map<Id, Equipment>, serial: string, except: Id)
  {
    exists k :: k in equipment && k != except && equipment[k].serialNumber == serial
  }

  /** Whether a team name is already taken. */
  predicate TeamNameTaken(teams: map<Id, MaintenanceTeam>, name: string)
  {
    exists k :: k in teams && teams[k].name == name
  }

  /** The database the controllers share; its methods live with the controllers. */
  class Store {
    var users: map<Id, User>
    var equipment: map<Id, Equipment>
    var teams: map<Id, MaintenanceTeam>
    var requests: map<Id, MaintenanceRequest>

    function State(): Db
      reads this
    {
      Db(users, equipment, teams, requests)
    }

    predicate Valid()
      reads this
    {
      Consistent(State())
    }

    constructor (db: Db)
      requires Consistent(db)
      ensures Valid() && State() == db
    {
      users, equipment, teams, requests := db.users, db.equipment, db.teams, db.requests;
    }
  }
}
