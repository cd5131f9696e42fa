/**
  The three mounted routers as declarative tables: per route a verb, a path
  pattern, an optional role gate, the declared body checks and the handler.
  Every router first runs authentication, then Express picks the first route
  whose verb and pattern match. The body checks are declared but their
  outcome is never read, so only their `trim()` sanitizers have an effect.
*/
module Routes {
  import opened Common
  import opened RequestModel
  import opened StateValidator
  import opened Database
  import RequestController

  datatype Verb = GET | POST | PUT | PATCH | DELETE

  /** A path segment pattern: a literal, or a `:name` parameter matching any one non-empty segment. */
  datatype Segment = Lit(text: string) | Param(name: string)

  /** The controller function a route ends in. */
  datatype Handler =
    | RequestCreate | RequestList | RequestCalendar | RequestsOfEquipment
    | RequestFetch | RequestStatusUpdate | RequestAssign
    | EquipmentCreate | EquipmentList | EquipmentFetch | EquipmentUpdate | EquipmentDelete | EquipmentScrap
    | TeamCreate | TeamList | TeamFetch | TeamUpdate | TeamAddTechnician | TeamRemoveTechnician | TeamDelete

  /** One `express-validator` chain on a body field. */
  datatype Check =
    | NotEmptyAfterTrim(field: string)
    | IsMongoId(field: string)
    | IsIn(field: string, options: seq<string>)
    | IsIso8601(field: string, optional: bool)
    | IsNumeric(field: string, optional: bool)

  /** `gate` is the role list given to `roleMiddleware`, `None` when the route has none. */
  datatype Route = Route(verb: Verb, path: seq<Segment>, gate: Option<set<Role>>, checks: seq<Check>, handler: Handler)

  /** A request body as text fields. */
  type Body = map<string, string>

  /** What the router does with a request: answer it with a status, or call a handler. */
  datatype Outcome =
    | Rejected(status: int)
    | Invoke(handler: Handler, params: map<string, string>, body: Body)

  // ---------------------------------------------------------------- the tables

  const RequestChecks: seq<Check> := [
    NotEmptyAfterTrim("subject"),
    NotEmptyAfterTrim("description"),
    IsMongoId("equipment"),
    IsIn("requestType", ["CORRECTIVE", "PREVENTIVE"]),
    IsIso8601("scheduledDate", true)]

  const StatusUpdateChecks: seq<Check> := [
    IsIn("status", ["NEW", "IN_PROGRESS", "REPAIRED", "SCRAP"]),
    IsNumeric("hoursSpent", true)]

  const TechnicianChecks: seq<Check> := [IsMongoId("technicianId")]

  const RequestRoutes: seq<Route> := [
    Route(POST, [], None, RequestChecks, RequestCreate),
    Route(GET, [], None, [], RequestList),
    Route(GET, [Lit("calendar")], None, [], RequestCalendar),
    Route(GET, [Lit("equipment"), Param("equipmentId")], None, [], RequestsOfEquipment),
    Route(GET, [Param("id")], None, [], RequestFetch),
    Route(PATCH, [Param("id"), Lit("status")], None, StatusUpdateChecks, RequestStatusUpdate),
    Route(PATCH, [Param("id"), Lit("assign")], Some({ADMIN, MANAGER}), TechnicianChecks, RequestAssign)]

  const EquipmentChecks: seq<Check> := [
    NotEmptyAfterTrim("name"),
    NotEmptyAfterTrim("serialNumber"),
    IsIso8601("purchaseDate", false),
    IsIso8601("warrantyExpiry", false),
    NotEmptyAfterTrim("location"),
    NotEmptyAfterTrim("department"),
    IsMongoId("assignedEmployee"),
    IsMongoId("maintenanceTeam")]

  const EquipmentRoutes: seq<Route> := [
    Route(POST, [], Some({ADMIN, MANAGER}), EquipmentChecks, EquipmentCreate),
    Route(GET, [], None, [], EquipmentList),
    Route(GET, [Param("id")], None, [], EquipmentFetch),
    Route(PUT, [Param("id")], Some({ADMIN, MANAGER}), [], EquipmentUpdate),
    Route(DELETE, [Param("id")], Some({ADMIN}), [], EquipmentDelete),
    Route(PATCH, [Param("id"), Lit("scrap")], Some({ADMIN, MANAGER}), [], EquipmentScrap)]

  const TeamChecks: seq<Check> := [
    NotEmptyAfterTrim("name"),
    IsIn("specialization", ["MECHANICAL", "ELECTRICAL", "IT", "HVAC", "GENERAL"])]

  const TeamRoutes: seq<Route> := [
    Route(POST, [], Some({ADMIN, MANAGER}), TeamChecks, TeamCreate),
    Route(GET, [], None, [], TeamList),
    Route(GET, [Param("id")], None, [], TeamFetch),
    Route(PUT, [Param("id")], Some({ADMIN, MANAGER}), [], TeamUpdate),
    Route(POST, [Param("id"), Lit("technicians")], Some({ADMIN, MANAGER}), TechnicianChecks, TeamAddTechnician),
    Route(DELETE, [Param("id"), Lit("technicians"), Param("technicianId")], Some({ADMIN, MANAGER}), [], TeamRemoveTechnician),
    Route(DELETE, [Param("id")], Some({ADMIN}), [], TeamDelete)]

  // ---------------------------------------------------------------- matching

  /** Whether a pattern matches a path of non-empty segments, segment by segment. */
  predicate PathMatches(pattern: seq<Segment>, path: seq<string>)
    ensures PathMatches(pattern, path) ==> |pattern| == |path|
  {
    if pattern == [] then path == []
    else
      && path != []
      && (if pattern[0].Lit? then path[0] == pattern[0].text else path[0] != "")
      && PathMatches(pattern[1..], path[1..])
  }

  predicate RouteMatches(route: Route, verb: Verb, path: seq<string>)
  {
    route.verb == verb && PathMatches(route.path, path)
  }

  /** The first route at index `from` or later that matches, if any. */
  function FirstMatch(table: seq<Route>, verb: Verb, path: seq<string>, from: nat): (i: Option<nat>)
    requires from <= |table|
    ensures i.Some? ==> from <= i.value < |table| && RouteMatches(table[i.value], verb, path)
    ensures i.Some? ==> forall j :: from <= j < i.value ==> !RouteMatches(table[j], verb, path)
    ensures i.None? ==> forall j :: from <= j < |table| ==> !RouteMatches(table[j], verb, path)
    decreases |table| - from
  {
    if from == |table| then None
    else if RouteMatches(table[from], verb, path) then Some(from)
    else FirstMatch(table, verb, path, from + 1)
  }

  /** The first match is the route at `k` when it matches and none before it does. */
  lemma {:induction false} FirstMatchIs(table: seq<Route>, verb: Verb, path: seq<string>, from: nat, k: nat)
    requires from <= k < |table| && RouteMatches(table[k], verb, path)
    requires forall j :: from <= j < k ==> !RouteMatches(table[j], verb, path)
    ensures FirstMatch(table, verb, path, from) == Some(k)
    decreases k - from
  {
    if from < k {
      FirstMatchIs(table, verb, path, from + 1, k);
    }
  }

  /**
    The `req.params` a matched pattern binds: each `:name` of the pattern to
    the path segment at its position (the last such position when a name
    repeats, since later parameters overwrite earlier ones), and nothing else.
  */
  function Bind(pattern: seq<Segment>, path: seq<string>): (params: map<string, string>)
    requires |pattern| == |path|
    ensures forall i :: 0 <= i < |pattern| && pattern[i].Param? ==> pattern[i].name in params
    ensures forall name :: name in params ==> exists i :: 0 <= i < |pattern| && pattern[i] == Param(name)
    ensures forall i :: 0 <= i < |pattern| && pattern[i].Param? && LastParam(pattern, i) ==>
              params[pattern[i].name] == path[i]
  {
    if pattern == [] then map[]
    else
      var rest := Bind(pattern[1..], path[1..]);
      var params := if pattern[0].Param? && pattern[0].name !in rest then rest[pattern[0].name := path[0]] else rest;
      assert forall i :: 1 <= i < |pattern| && LastParam(pattern, i) ==> LastParam(pattern[1..], i - 1) by {
        forall i | 1 <= i < |pattern| && LastParam(pattern, i)
          ensures LastParam(pattern[1..], i - 1)
        {
          forall j | i - 1 < j < |pattern| - 1 ensures pattern[1..][j] != pattern[1..][i - 1] {
            assert pattern[1..][j] == pattern[j + 1];
          }
        }
      }
      params
  }

  /** No segment after position `i` is the same segment as the one at `i`. */
  predicate LastParam(pattern: seq<Segment>, i: nat)
    requires i < |pattern|
  {
    forall j :: i < j < |pattern| ==> pattern[j] != pattern[i]
  }

  /** The body after the chains have run in order, each `trim()` sanitizer trimming its field. */
  function Sanitize(checks: seq<Check>, body: Body): (clean: Body)
    ensures clean.Keys == body.Keys
    decreases |checks|
  {
    if checks == [] then body
    else if checks[0].NotEmptyAfterTrim? && checks[0].field in body then
      var f := checks[0].field;
      assert body[f := Trim(body[f])].Keys == body.Keys;
      Sanitize(checks[1..], body[f := Trim(body[f])])
    else Sanitize(checks[1..], body)
  }

  /**
    Since trimming twice changes nothing, running the chains leaves each
    field with a trimming chain trimmed once and every other field as it was.
  */
  lemma {:induction false} SanitizeTrimsOnce(checks: seq<Check>, body: Body, f: string)
    requires f in body
    ensures Sanitize(checks, body)[f] == if NotEmptyAfterTrim(f) in checks then Trim(body[f]) else body[f]
    decreases |checks|
  {
    if checks != [] {
      assert NotEmptyAfterTrim(f) in checks <==> checks[0] == NotEmptyAfterTrim(f) || NotEmptyAfterTrim(f) in checks[1..]
      by { assert checks == [checks[0]] + checks[1..]; }
      if checks[0].NotEmptyAfterTrim? && checks[0].field in body {
        var g := checks[0].field;
        var trimmed := body[g := Trim(body[g])];
        SanitizeTrimsOnce(checks[1..], trimmed, f);
        if g == f {
          TrimIsTrimmed(body[f]);
        }
      } else {
        SanitizeTrimsOnce(checks[1..], body, f);
      }
    }
  }

  /**
    One router: authentication first (401 for no user), then the first
    route whose verb and pattern match (404 when none does), then its role
    gate (403), then the handler. The declared checks do not stop anything.
  */
  function Dispatch(table: seq<Route>, verb: Verb, path: seq<string>, user: Option<User>, body: Body)
    : Outcome
  {
    if user.None? then Rejected(401)
    else match FirstMatch(table, verb, path, 0)
      case None => Rejected(404)
      case Some(i) =>
        var route := table[i];
        if route.gate.Some? && user.value.role !in route.gate.value then Rejected(403)
        else Invoke(route.handler, Bind(route.path, path), Sanitize(route.checks, body))
  }

  /**
    With no user every request gets 401; a handler runs only for a route
    that matches; with a user and no matching route the answer is 404.
  */
  lemma DispatchOutcomes(table: seq<Route>, verb: Verb, path: seq<string>, user: Option<User>, body: Body)
    ensures user.None? ==> Dispatch(table, verb, path, user, body) == Rejected(401)
    ensures var o := Dispatch(table, verb, path, user, body);
            o.Invoke? ==> exists i :: 0 <= i < |table| && RouteMatches(table[i], verb, path) && table[i].handler == o.handler
    ensures user.Some? && (forall i :: 0 <= i < |table| ==> !RouteMatches(table[i], verb, path))
            ==> Dispatch(table, verb, path, user, body) == Rejected(404)
  {
  }

  /** Dispatch when the route at `k` is the first that matches. */
  lemma DispatchAt(table: seq<Route>, verb: Verb, path: seq<string>, user: User, body: Body, k: nat)
    requires k < |table| && RouteMatches(table[k], verb, path)
    requires forall j :: 0 <= j < k ==> !RouteMatches(table[j], verb, path)
    ensures Dispatch(table, verb, path, Some(user), body)
            == if table[k].gate.Some? && user.role !in table[k].gate.value then Rejected(403)
               else Invoke(table[k].handler, Bind(table[k].path, path), Sanitize(table[k].checks, body))
  {
    FirstMatchIs(table, verb, path, 0, k);
  }

  /** A route whose checks carry no `trim()` sanitizer hands the body on as it came. */
  lemma {:induction false} UntrimmedKeepBody(checks: seq<Check>, body: Body)
    requires forall i :: 0 <= i < |checks| ==> !checks[i].NotEmptyAfterTrim?
    ensures Sanitize(checks, body) == body
    decreases |checks|
  {
    if checks != [] {
      UntrimmedKeepBody(checks[1..], body);
    }
  }

  /** `/:name` matches a non-empty segment and binds it. */
  lemma ParamBinds(name: string, v: string)
    requires v != ""
    ensures PathMatches([Param(name)], [v])
    ensures Bind([Param(name)], [v]) == map[name := v]
  {
    assert [Param(name)][1..] == [] && [v][1..] == [];
  }

  /** `/:name/lit` matches a non-empty segment followed by `lit`, and binds only `name`. */
  lemma ParamLitBinds(name: string, v: string, lit: string)
    requires v != ""
    ensures PathMatches([Param(name), Lit(lit)], [v, lit])
    ensures Bind([Param(name), Lit(lit)], [v, lit]) == map[name := v]
  {
    var pattern, path := [Param(name), Lit(lit)], [v, lit];
    assert pattern[1..] == [Lit(lit)] && path[1..] == [lit];
    assert pattern[1..][1..] == [] && path[1..][1..] == [];
    assert Bind(pattern[1..], path[1..]) == map[];
  }

  // ---------------------------------------------------------------- the declared checks

  predicate IsHexDigit(c: char)
  {
    '0' <= c <= '9' || 'a' <= c <= 'f' || 'A' <= c <= 'F'
  }

  predicate IsDigit(c: char)
  {
    '0' <= c <= '9'
  }

  /** `isMongoId`: twenty-four hexadecimal digits. */
  predicate MongoId(s: string)
  {
    |s| == 24 && forall i :: 0 <= i < |s| ==> IsHexDigit(s[i])
  }

  /** `isISO8601`, on its calendar-date form `YYYY-MM-DD`, optionally followed by a `T` and a time. */
  predicate Iso8601(s: string)
  {
    && |s| >= 10
    && IsDigit(s[0]) && IsDigit(s[1]) && IsDigit(s[2]) && IsDigit(s[3]) && s[4] == '-'
    && IsDigit(s[5]) && IsDigit(s[6]) && s[7] == '-' && IsDigit(s[8]) && IsDigit(s[9])
    && (|s| > 10 ==> s[10] == 'T')
  }

  /** `isNumeric`: an optional sign, then digits with at most one decimal point, ending in a digit. */
  predicate Numeric(s: string)
  {
    var t := if |s| > 0 && (s[0] == '+' || s[0] == '-') then s[1..] else s;
    && |t| > 0 && IsDigit(t[|t| - 1])
    && (forall i :: 0 <= i < |t| ==> IsDigit(t[i]) || t[i] == '.')
    && (forall i, j :: 0 <= i < j < |t| ==> !(t[i] == '.' && t[j] == '.'))
  }

  predicate CheckHolds(c: Check, body: Body)
  {
    match c
    case NotEmptyAfterTrim(f) => f in body && Trim(body[f]) != ""
    case IsMongoId(f) => f in body && MongoId(body[f])
    case IsIn(f, options) => f in body && body[f] in options
    case IsIso8601(f, optional) => if f in body then Iso8601(body[f]) else optional
    case IsNumeric(f, optional) => if f in body then Numeric(body[f]) else optional
  }

  /** Whether a body passes every declared check of a route. */
  predicate ChecksHold(checks: seq<Check>, body: Body)
  {
    forall i :: 0 <= i < |checks| ==> CheckHolds(checks[i], body)
  }

  // ---------------------------------------------------------------- properties of the tables

  /** The routers' first middleware: without a user, every verb and path is answered 401. */
  lemma EveryRouteNeedsAuthentication(verb: Verb, path: seq<string>, body: Body)
    ensures Dispatch(RequestRoutes, verb, path, None, body) == Rejected(401)
    ensures Dispatch(EquipmentRoutes, verb, path, None, body) == Rejected(401)
    ensures Dispatch(TeamRoutes, verb, path, None, body) == Rejected(401)
  {
  }

  /** No route of the request router deletes: every DELETE falls through with 404. */
  lemma NoRequestDeletion(path: seq<string>, user: User, body: Body)
    ensures Dispatch(RequestRoutes, DELETE, path, Some(user), body) == Rejected(404)
  {
    DispatchOutcomes(RequestRoutes, DELETE, path, Some(user), body);
  }

  /**
    `/calendar` is taken by the calendar route, although the `/:id` route
    would match it too; any other single segment reaches the fetch by id.
  */
  lemma CalendarBeforeFetch(user: User, id: string, body: Body)
    requires id != "" && id != "calendar"
    ensures Dispatch(RequestRoutes, GET, ["calendar"], Some(user), body) == Invoke(RequestCalendar, map[], body)
    ensures Dispatch(RequestRoutes, GET, [id], Some(user), body) == Invoke(RequestFetch, map["id" := id], body)
  {
    ParamBinds("id", id);
    UntrimmedKeepBody([], body);
    DispatchAt(RequestRoutes, GET, ["calendar"], user, body, 2);
    DispatchAt(RequestRoutes, GET, [id], user, body, 4);
  }

  /**
    Assignment is gated twice: the route answers 403 to every role but ADMIN
    and MANAGER, and the controller refuses the same roles with 403.
  */
  lemma AssignGatedTwice(id: string, user: User, body: Body, db: Db, technicianId: Id)
    requires id != ""
    ensures user.role == ADMIN || user.role == MANAGER ==>
              Dispatch(RequestRoutes, PATCH, [id, "assign"], Some(user), body)
              == Invoke(RequestAssign, map["id" := id], body)
    ensures user.role != ADMIN && user.role != MANAGER ==>
              && Dispatch(RequestRoutes, PATCH, [id, "assign"], Some(user), body) == Rejected(403)
              && RequestController.CheckAssign(db, id, technicianId, user).Err?
              && RequestController.CheckAssign(db, id, technicianId, user).error.Forbidden?
  {
    var path := [id, "assign"];
    assert RequestRoutes[5].path[1..] == [Lit("status")] && path[1..] == ["assign"];
    assert "assign" != "status" by { assert "assign"[0] != "status"[0]; }
    assert !PathMatches([Lit("status")], ["assign"]);
    assert !RouteMatches(RequestRoutes[5], PATCH, path);
    ParamLitBinds("id", id, "assign");
    UntrimmedKeepBody(TechnicianChecks, body);
    DispatchAt(RequestRoutes, PATCH, [id, "assign"], user, body, 6);
  }

  /** Listing and fetching equipment are open to every authenticated role. */
  lemma EquipmentReadsOpen(id: string, user: User, body: Body)
    requires id != ""
    ensures Dispatch(EquipmentRoutes, GET, [], Some(user), body) == Invoke(EquipmentList, map[], body)
    ensures Dispatch(EquipmentRoutes, GET, [id], Some(user), body) == Invoke(EquipmentFetch, map["id" := id], body)
  {
    ParamBinds("id", id);
    UntrimmedKeepBody([], body);
    DispatchAt(EquipmentRoutes, GET, [], user, body, 1);
    DispatchAt(EquipmentRoutes, GET, [id], user, body, 2);
  }

  /** Creating equipment is for ADMIN and MANAGER only; other roles get 403. */
  lemma EquipmentCreateGated(user: User, body: Body)
    ensures Dispatch(EquipmentRoutes, POST, [], Some(user), body)
            == if user.role in {ADMIN, MANAGER} then Invoke(EquipmentCreate, map[], Sanitize(EquipmentChecks, body))
               else Rejected(403)
  {
    DispatchAt(EquipmentRoutes, POST, [], user, body, 0);
  }

  /** Updating equipment is for ADMIN and MANAGER only. */
  lemma EquipmentUpdateGated(id: string, user: User, body: Body)
    requires id != ""
    ensures Dispatch(EquipmentRoutes, PUT, [id], Some(user), body)
            == if user.role in {ADMIN, MANAGER} then Invoke(EquipmentUpdate, map["id" := id], body) else Rejected(403)
  {
    ParamBinds("id", id);
    UntrimmedKeepBody([], body);
    DispatchAt(EquipmentRoutes, PUT, [id], user, body, 3);
  }

  /** Scrapping equipment is for ADMIN and MANAGER only. */
  lemma EquipmentScrapGated(id: string, user: User, body: Body)
    requires id != ""
    ensures Dispatch(EquipmentRoutes, PATCH, [id, "scrap"], Some(user), body)
            == if user.role in {ADMIN, MANAGER} then Invoke(EquipmentScrap, map["id" := id], body) else Rejected(403)
  {
    ParamLitBinds("id", id, "scrap");
    UntrimmedKeepBody([], body);
    DispatchAt(EquipmentRoutes, PATCH, [id, "scrap"], user, body, 5);
  }

  /** Deleting equipment is for ADMIN only. */
  lemma EquipmentDeleteAdminOnly(id: string, user: User, body: Body)
    requires id != ""
    ensures Dispatch(EquipmentRoutes, DELETE, [id], Some(user), body)
            == if user.role == ADMIN then Invoke(EquipmentDelete, map["id" := id], body) else Rejected(403)
  {
    ParamBinds("id", id);
    UntrimmedKeepBody([], body);
    DispatchAt(EquipmentRoutes, DELETE, [id], user, body, 4);
  }

  /** Listing and fetching teams are open to every authenticated role. */
  lemma TeamReadsOpen(id: string, user: User, body: Body)
    requires id != ""
    ensures Dispatch(TeamRoutes, GET, [], Some(user), body) == Invoke(TeamList, map[], body)
    ensures Dispatch(TeamRoutes, GET, [id], Some(user), body) == Invoke(TeamFetch, map["id" := id], body)
  {
    ParamBinds("id", id);
    UntrimmedKeepBody([], body);
    DispatchAt(TeamRoutes, GET, [], user, body, 1);
    DispatchAt(TeamRoutes, GET, [id], user, body, 2);
  }

  /** Creating a team is for ADMIN and MANAGER only; other roles get 403. */
  lemma TeamCreateGated(user: User, body: Body)
    ensures Dispatch(TeamRoutes, POST, [], Some(user), body)
            == if user.role in {ADMIN, MANAGER} then Invoke(TeamCreate, map[], Sanitize(TeamChecks, body))
               else Rejected(403)
  {
    DispatchAt(TeamRoutes, POST, [], user, body, 0);
  }

  /** Updating a team is for ADMIN and MANAGER only. */
  lemma TeamUpdateGated(id: string, user: User, body: Body)
    requires id != ""
    ensures Dispatch(TeamRoutes, PUT, [id], Some(user), body)
            == if user.role in {ADMIN, MANAGER} then Invoke(TeamUpdate, map["id" := id], body) else Rejected(403)
  {
    ParamBinds("id", id);
    UntrimmedKeepBody([], body);
    DispatchAt(TeamRoutes, PUT, [id], user, body, 3);
  }

  /** Adding a member is for ADMIN and MANAGER only. */
  lemma TeamAddGated(id: string, user: User, body: Body)
    requires id != ""
    ensures Dispatch(TeamRoutes, POST, [id, "technicians"], Some(user), body)
            == if user.role in {ADMIN, MANAGER} then Invoke(TeamAddTechnician, map["id" := id], body) else Rejected(403)
  {
    ParamLitBinds("id", id, "technicians");
    UntrimmedKeepBody(TechnicianChecks, body);
    DispatchAt(TeamRoutes, POST, [id, "technicians"], user, body, 4);
  }

  /** Removing a member is for ADMIN and MANAGER only, and binds both ids. */
  lemma TeamRemoveGated(id: string, technicianId: string, user: User, body: Body)
    requires id != "" && technicianId != ""
    ensures Dispatch(TeamRoutes, DELETE, [id, "technicians", technicianId], Some(user), body)
            == if user.role in {ADMIN, MANAGER}
               then Invoke(TeamRemoveTechnician, map["id" := id, "technicianId" := technicianId], body)
               else Rejected(403)
  {
    UntrimmedKeepBody([], body);
    RemovePathBinds(id, technicianId);
    DispatchAt(TeamRoutes, DELETE, [id, "technicians", technicianId], user, body, 5);
  }

  lemma RemovePathBinds(id: string, technicianId: string)
    requires id != "" && technicianId != ""
    ensures PathMatches(TeamRoutes[5].path, [id, "technicians", technicianId])
    ensures Bind(TeamRoutes[5].path, [id, "technicians", technicianId]) == map["id" := id, "technicianId" := technicianId]
  {
    var path := [id, "technicians", technicianId];
    var pattern := [Param("id"), Lit("technicians"), Param("technicianId")];
    assert TeamRoutes[5].path == pattern;
    assert pattern[2..] == [Param("technicianId")] && path[2..] == [technicianId];
    assert pattern[1..] == [Lit("technicians"), Param("technicianId")] && path[1..] == ["technicians", technicianId];
    assert PathMatches(pattern[2..], path[2..]);
    assert PathMatches(pattern[1..], path[1..]);
    assert Bind(pattern[1..], path[1..]) == map["technicianId" := technicianId];
  }

  /** Deleting a team is for ADMIN only. */
  lemma TeamDeleteAdminOnly(id: string, user: User, body: Body)
    requires id != ""
    ensures Dispatch(TeamRoutes, DELETE, [id], Some(user), body)
            == if user.role == ADMIN then Invoke(TeamDelete, map["id" := id], body) else Rejected(403)
  {
    ParamBinds("id", id);
    UntrimmedKeepBody([], body);
    DispatchAt(TeamRoutes, DELETE, [id], user, body, 6);
  }

  /**
    The declared checks of request creation: non-blank subject and
    description, a Mongo id for the equipment, a CORRECTIVE or PREVENTIVE
    type, and a date-shaped scheduled date when one is given.
  */
  lemma RequestCreationChecks(body: Body)
    ensures ChecksHold(RequestChecks, body) <==>
      && "subject" in body && Trim(body["subject"]) != ""
      && "description" in body && Trim(body["description"]) != ""
      && "equipment" in body && MongoId(body["equipment"])
      && "requestType" in body && body["requestType"] in ["CORRECTIVE", "PREVENTIVE"]
      && ("scheduledDate" in body ==> Iso8601(body["scheduledDate"]))
  {
    var cs := RequestChecks;
    if ChecksHold(cs, body) {
      assert CheckHolds(cs[0], body) && CheckHolds(cs[1], body);
      assert CheckHolds(cs[2], body) && CheckHolds(cs[3], body);
      assert CheckHolds(cs[4], body);
    } else {
      var i :| 0 <= i < |cs| && !CheckHolds(cs[i], body);
      assert i == 0 || i == 1 || i == 2 || i == 3 || i == 4;
    }
  }

  /** The equipment and team updates declare no checks, so their handlers get the body exactly as sent. */
  lemma UpdatesDeclareNoChecks()
    ensures EquipmentRoutes[3].handler == EquipmentUpdate && EquipmentRoutes[3].checks == []
    ensures TeamRoutes[3].handler == TeamUpdate && TeamRoutes[3].checks == []
    ensures forall body :: Sanitize(EquipmentRoutes[3].checks, body) == body
    ensures forall body :: Sanitize(TeamRoutes[3].checks, body) == body
  {
  }

  /**
    A body that fails its route's declared checks still reaches the handler:
    here a creation body without a subject, with its other fields trimmed.
  */
  lemma ChecksDoNotBlock(user: User, body: Body)
    requires "subject" !in body
    ensures !ChecksHold(RequestChecks, body)
    ensures Dispatch(RequestRoutes, POST, [], Some(user), body) == Invoke(RequestCreate, map[], Sanitize(RequestChecks, body))
  {
    assert !CheckHolds(RequestChecks[0], body);
  }

  /**
    The status literal check is not what refuses a bad status: the body
    reaches the controller, whose transition check answers 400 for it.
  */
  lemma BadStatusRefusedByController(id: string, user: User, body: Body, db: Db, hours: Option<int>)
    requires id != "" && id in db.requests
    requires "status" in body && body["status"] !in ["NEW", "IN_PROGRESS", "REPAIRED", "SCRAP"]
    ensures !ChecksHold(StatusUpdateChecks, body)
    ensures Dispatch(RequestRoutes, PATCH, [id, "status"], Some(user), body).Invoke?
    ensures var st := RequestController.UpdateStatusSpec(db, id, RequestController.StatusBody(body["status"], hours, None), user);
            st.result.Err? && st.result.error.BadRequest? && st.db == db
  {
    var text := body["status"];
    assert text != "NEW" && text != "IN_PROGRESS" && text != "REPAIRED" && text != "SCRAP";
    assert ParseStatus(text).None?;
    assert !CheckHolds(StatusUpdateChecks[0], body);
    DispatchAt(RequestRoutes, PATCH, [id, "status"], user, body, 5);
    assert !ValidateStateTransition(StatusName(db.requests[id].status), text);
  }
}
