# GearGuard maintenance engine, modelled in Dafny

GearGuard tracks an organisation's equipment, the maintenance teams that look
after it and the maintenance requests raised against it. This project models
its server-side core:

- the request lifecycle: NEW, IN_PROGRESS, REPAIRED and SCRAP, with the table of
  allowed transitions;
- the technician access rule: a technician sees only the requests assigned to
  them or to their team;
- the three document schemas: maintenance request, equipment and maintenance team;
- the request, equipment and team controllers, each working on a shared store;
- the three Express routers that put authentication, role lists and body
  validation in front of the controllers.

Layout, one module per source file:

| module | file | models |
|---|---|---|
| `Common` | common.dfy | ids, dates, users, roles, errors and HTTP codes, JavaScript `trim` |
| `RequestModel` | request_model.dfy | `MaintenanceRequest` schema, defaults, validators, pre-save hook |
| `EquipmentModel` | equipment_model.dfy | `Equipment` schema, `$set` patches, `markAsScrap` |
| `TeamModel` | team_model.dfy | `MaintenanceTeam` schema, removing an id from a technician list |
| `StateValidator` | state_validator.dfy | transition table and technician access rule |
| `Database` | database.dfy | the four collections, as a `Store` class with `map` fields |
| `RequestController` | request_controller.dfy | request handlers |
| `EquipmentController` | equipment_controller.dfy | equipment handlers |
| `TeamController` | team_controller.dfy | team handlers |
| `Routes` | routes.dfy | the three routers: matching, gates, validation chains |
| `Scenario` | scenario.dfy | a request's life across several handlers |

How the model is built:

- Each handler that changes the database has two parts:
  - a function `XxxSpec(db, …)` that returns the response together with the collections left behind (a `Step`);
  - a method on the `Store` whose postcondition ties the new state and the answer to that function.
- The listing handlers are methods that return the set of matching ids. Their filter dictionaries are functions, proved equivalent to a plain statement of the listing rule.
- Clocks are `now` parameters. New object ids are parameters too, required to be fresh.

## Model

| member | source | states |
|---|---|---|
| Common.Given | Server/controllers/requestController.js:55-66 | a query-string value becomes a filter entry exactly when it is non-empty, and the entry carries that value |
| Common.TrimStart | Server/models/MaintenanceRequest.js:4-13 | the result is a suffix of the input; what was dropped is white space; the result does not start with white space |
| Common.TrimEnd | Server/models/MaintenanceRequest.js:4-13 | the result is a prefix of the input; what was dropped is white space; the result does not end with white space |
| Common.TrimEmptyIffBlank | Server/routes/requestRoutes.js:19-20 | `trim().notEmpty()` fails exactly on strings made only of white space |
| Common.TrimIsTrimmed | Server/models/MaintenanceRequest.js:4-13 | a trimmed value has no white space at either end, and trimming it again changes nothing |
| Common.TrimmedIsFixed | Server/models/Equipment.js:9-14 | a string with no white space at either end is its own trim |
| RequestModel.ParseStatus | Server/models/MaintenanceRequest.js:34-38 | the enum validator accepts exactly the four status literals and returns the status each one names |
| RequestModel.ParseRequestType | Server/models/MaintenanceRequest.js:29-33 | only CORRECTIVE and PREVENTIVE are accepted |
| RequestModel.ParsePriority | Server/models/MaintenanceRequest.js:61-65 | only LOW, MEDIUM, HIGH and CRITICAL are accepted |
| RequestModel.EnumNamesRoundTrip | Server/models/MaintenanceRequest.js:29-38 | every enum literal parses back to the value it names |
| RequestModel.PreSave | Server/models/MaintenanceRequest.js:70-75 | saving a REPAIRED request without `completedDate` stamps it with the current time; any other document is saved unchanged; no other field changes |
| RequestModel.NewRequestDocument | Server/models/MaintenanceRequest.js:3-68 | a created document passes every schema validator; team and creator are the given ones; subject is trimmed; status and priority take their defaults NEW and MEDIUM when absent; client `assignedTechnician` and `completedDate` pass through; every failure is a 400 |
| RequestModel.ScheduledDateRequiredIffPreventive | Server/models/MaintenanceRequest.js:39-44 | with no `scheduledDate`, a PREVENTIVE request is refused and a CORRECTIVE one is created |
| RequestModel.NegativeHoursRejectedOnCreate | Server/models/MaintenanceRequest.js:48-51 | the `min: 0` bound refuses a negative `hoursSpent` when a document is created |
| EquipmentModel.ParseEquipmentStatus | Server/models/Equipment.js:53-57 | only ACTIVE and SCRAPPED are accepted |
| EquipmentModel.ParseCategory | Server/models/Equipment.js:15-20 | only the five category literals are accepted |
| EquipmentModel.NewEquipmentDocument | Server/models/Equipment.js:3-71 | creation succeeds exactly when every required field is present (strings not blank), the category is one of its literals once trimmed and a given status is one of its literals; the stored category is the trimmed literal; status defaults to ACTIVE; strings are trimmed; failures are 400 |
| EquipmentModel.NewEquipmentIsActiveByDefault | Server/models/Equipment.js:53-57 | equipment created without a status is ACTIVE |
| EquipmentModel.Patched | Server/controllers/equipmentController.js:68-72 | an update sets the status the body names and the trimmed serial number it holds, and keeps each when the body leaves it out |
| EquipmentModel.PatchedFields | Server/controllers/equipmentController.js:68-72 | field by field, an update sets what the body holds (trimmed where the schema trims, the category by its trimmed literal) and keeps every field the body leaves out |
| EquipmentModel.EmptyPatchChangesNothing | Server/controllers/equipmentController.js:68-72 | an update body that sets nothing leaves the record as it is |
| EquipmentModel.MarkedAsScrap | Server/models/Equipment.js:74-79 | `markAsScrap` sets SCRAPPED, the trimmed reason and the current date |
| EquipmentModel.ScrapKeepsOtherFields | Server/models/Equipment.js:74-79 | scrapping changes no field but the status, the reason and the date |
| EquipmentModel.MarkAsScrapTwice | Server/models/Equipment.js:74-79 | scrapping twice is the same as scrapping once with the second reason and date |
| TeamModel.ParseSpecialization | Server/models/MaintenanceTeam.js:14-18 | only the five specialization literals are accepted |
| TeamModel.NewTeamDocument | Server/models/MaintenanceTeam.js:3-27 | creation succeeds exactly when the name is present and not blank and the specialization is a literal of its enum; the name is trimmed; `isActive` defaults to true; the technician list starts empty unless one is given |
| TeamModel.RemoveAll | Server/controllers/teamController.js:103-104 | the `filter` of `removeTechnician` drops every occurrence of the id and keeps every other element with its count |
| TeamModel.RemoveAbsentIsIdentity | Server/controllers/teamController.js:103-104 | filtering out an id that is not listed leaves the list unchanged |
| TeamModel.RemoveAllDistributes | Server/controllers/teamController.js:103-104 | filtering a concatenation is filtering each part |
| TeamModel.RemoveUndoesAppend | Server/controllers/teamController.js:78-79 | filtering out an id that was just pushed onto a list without it gives the list back |
| StateValidator.ValidateStateTransition | Server/utils/stateValidator.js:1-10 | an accepted transition goes between two known statuses and strictly forward in the lifecycle |
| StateValidator.FromNew | Server/utils/stateValidator.js:3 | from NEW, exactly IN_PROGRESS and SCRAP are accepted |
| StateValidator.FromInProgressAndRepaired | Server/utils/stateValidator.js:4-5 | from IN_PROGRESS exactly REPAIRED and SCRAP are accepted; from REPAIRED exactly SCRAP |
| StateValidator.TableShape | Server/utils/stateValidator.js:2-9 | SCRAP is terminal, no status may move to itself, and nothing moves back to NEW |
| StateValidator.UnknownCurrentRejected | Server/utils/stateValidator.js:9 | a current status missing from the table gives false instead of an error |
| StateValidator.LifecycleClimbs | Server/utils/stateValidator.js:2-7 | every chain of accepted transitions climbs one rank per step or more, so no request passes through more than four statuses |
| StateValidator.ValidateTechnicianAccess | Server/utils/stateValidator.js:12-20 | every non-technician is granted; a technician with no team is granted only a request assigned to them |
| StateValidator.TechnicianAccessExactly | Server/utils/stateValidator.js:14-17 | a technician is granted a request exactly when it is assigned to them or belongs to their team |
| Database.Store.constructor | Server/models/Equipment.js:9-14 | a store starts from any consistent snapshot: unique serial numbers, unique team names, users under their own ids |
| RequestController.RouteToTeam | Server/controllers/requestController.js:10-22 | a missing equipment id gives 404; SCRAPPED equipment is refused; a PREVENTIVE request with no date on existing, non-scrapped equipment gets the scheduled-date 400; otherwise the request goes to the equipment's existing team; none of these errors is a 403 or a 500 |
| RequestController.CreateRequestSpec | Server/controllers/requestController.js:5-40 | missing equipment gives 404; a failing guard of `RouteToTeam` is the answer; once routed, the answer is the schema's document for the body, the equipment's team and the caller; on success the new request is stored under the fresh id, on non-scrapped equipment, with that equipment's team and the caller as creator, and it passes the schema; on failure nothing changes |
| RequestController.CreateRequest | Server/controllers/requestController.js:5-40 | the store's new state and the answer are those of `CreateRequestSpec`, and the store stays consistent |
| RequestController.CreateOnScrappedFails | Server/controllers/requestController.js:15-17 | SCRAPPED equipment never receives a request, whatever the body or the caller |
| RequestController.PreventiveNeedsDateCorrectiveDoesNot | Server/controllers/requestController.js:20-22 | with no date, a PREVENTIVE request is refused with 400; the same request as CORRECTIVE is created with status NEW on the equipment's team |
| RequestController.CreateIgnoresClientTeamAndCreator | Server/controllers/requestController.js:24-28 | a team or creator sent by the client has no effect on the outcome |
| RequestController.CreateLetsClientStatusThrough | Server/controllers/requestController.js:24-28 | a client-sent status REPAIRED and assignee are stored as sent, and `completedDate` is stamped by the pre-save hook |
| RequestController.BuildRequestFilter | Server/controllers/requestController.js:42-66 | the filter matches a request exactly when the listing rule admits it: a technician's access rule, plus every non-empty query parameter and date bound |
| RequestController.GetRequests | Server/controllers/requestController.js:42-79 | returns exactly the stored requests the listing rule admits; a technician is shown only requests they may access; other roles with an empty query see every request |
| RequestController.GetCalendarRequests | Server/controllers/requestController.js:202-234 | returns exactly the requests scheduled inside the window, restricted for a technician to the ones they may access |
| RequestController.RequestsByEquipment | Server/controllers/requestController.js:187-200 | returns stored requests only, and every request on the equipment |
| RequestController.GetRequestById | Server/controllers/requestController.js:81-102 | corrected fetch: 404 for a missing id; success exactly when the access rule grants the caller, and then the stored request; every other answer is a 403 |
| RequestController.ByEquipmentBypassesAccess | Server/controllers/requestController.js:187-200 | a technician refused a request by id still receives it through the by-equipment listing |
| RequestController.RenderAssignee | Server/controllers/requestController.js:83-86 | a populated assignee renders as a user document or as undefined, never as an id |
| RequestController.FetchAccessAsWritten | Server/controllers/requestController.js:93-96 | the access check as written grants every non-technician and never grants a technician |
| RequestController.GetRequestByIdAsWritten | Server/controllers/requestController.js:81-102 | fetch as written: 404 for a missing id |
| RequestController.FetchAsWrittenDeniesTechnicians | Server/controllers/requestController.js:93-96 | a technician who is both the assignee and on the team gets 403 from the fetch as written, and the request from the corrected fetch |
| RequestController.CheckStatusUpdate | Server/controllers/requestController.js:104-123 | a status update checks in order: missing request (404), transition not in the table (400), access (403); success gives the stored request and a known target status |
| RequestController.ApplyStatusPatch | Server/controllers/requestController.js:130-137 | the update always sets the status, sets `hoursSpent` when given and sets the trimmed `notes` when non-empty; no other field changes |
| RequestController.ScrapCascade | Server/controllers/requestController.js:126-128 | a move to SCRAP sets its equipment's status to SCRAPPED; no other equipment and no other field changes |
| RequestController.UpdateStatusSpec | Server/controllers/requestController.js:104-148 | succeeds exactly when the request exists, the table allows the move and the access rule admits the user; a failure is the first failing guard's answer and changes nothing; on success the stored request is the old one with the status, hours and notes patch applied, no other request or collection changes, and the equipment changes only on SCRAP |
| RequestController.UpdateRequestStatus | Server/controllers/requestController.js:104-148 | the store's new state and the answer are those of `UpdateStatusSpec`, and the store stays consistent |
| RequestController.TransitionCheckedBeforeAccess | Server/controllers/requestController.js:114-123 | a refused transition is answered 400 even when the caller would also be refused access |
| RequestController.StatusUpdateMovesForward | Server/controllers/requestController.js:114-137 | a successful status update is a transition in the table and strictly forward in the lifecycle; `completedDate` is left as it was |
| RequestController.ScrapStatusScrapsEquipment | Server/controllers/requestController.js:126-128 | after a move to SCRAP the equipment is SCRAPPED, and its scrap date and reason are left as they were |
| RequestController.StatusUpdateSkipsHoursBound | Server/controllers/requestController.js:130-137 | the update path runs no validators, so a negative `hoursSpent` is stored |
| RequestController.CheckAssign | Server/controllers/requestController.js:150-171 | non-managers get 403 before any lookup, then a missing request gives 404, then a deleted team gives 500, then a technician missing from the team's list gives 400; assignment proceeds exactly when the caller is a manager or an admin, the request and its team exist and the technician is listed on that team |
| RequestController.AssignedDocument | Server/controllers/requestController.js:173-178 | assignment sets the technician, moves NEW to IN_PROGRESS and keeps any other status, and the pre-save stamp applies; nothing else changes |
| RequestController.AssignSpec | Server/controllers/requestController.js:150-185 | a failing guard of `CheckAssign` is the answer, so non-managers get 403 before any lookup; success needs MANAGER or ADMIN and happens exactly when the guards pass and the assigned document passes the schema; on success only this request changes, it becomes the assigned document, and it passes the schema; on failure nothing changes |
| RequestController.AssignTechnician | Server/controllers/requestController.js:150-185 | the store's new state and the answer are those of `AssignSpec`, and the store stays consistent |
| RequestController.AssignmentRespectsTeamAndTable | Server/controllers/requestController.js:167-178 | an assigned technician is listed on the request's team, which exists, and the status either stays or moves along the table |
| RequestController.AssignStampsRepairedRequest | Server/controllers/requestController.js:173-178 | assigning a REPAIRED request with no `completedDate` stamps it through `save()` |
| EquipmentController.MarkAsScrap | Server/models/Equipment.js:74-79 | the store's equipment record becomes `MarkedAsScrap` of the old one; nothing else in the store changes |
| EquipmentController.CreateEquipmentSpec | Server/controllers/equipmentController.js:5-13 | succeeds exactly when the body makes a valid document (a padded category included) whose serial number is free; the new record is stored under the fresh id; serial numbers stay unique; every failure is a 400 and leaves the store unchanged |
| EquipmentController.FreshSerialKeepsUnique | Server/models/Equipment.js:9-14 | storing a record whose serial no other record holds keeps serials unique |
| EquipmentController.SameSerialKeepsUnique | Server/models/Equipment.js:9-14 | replacing a record by one with the same serial keeps serials unique |
| EquipmentController.CreateEquipment | Server/controllers/equipmentController.js:5-13 | the store's new state and the answer are those of `CreateEquipmentSpec`, and the store stays consistent |
| EquipmentController.DuplicateSerialRefused | Server/models/Equipment.js:9-14 | a serial number already stored is refused, whatever else the body holds |
| EquipmentController.BuildEquipmentFilter | Server/controllers/equipmentController.js:17-23 | the filter matches exactly the equipment that agrees with every non-empty parameter; an empty query matches everything |
| EquipmentController.GetEquipments | Server/controllers/equipmentController.js:15-35 | returns exactly the stored equipment the listing rule admits |
| EquipmentController.OpenRequests | Server/controllers/equipmentController.js:49-52 | the open requests on equipment are exactly its requests whose status is neither REPAIRED nor SCRAP |
| EquipmentController.GetEquipmentById | Server/controllers/equipmentController.js:37-64 | 404 exactly for a missing id; otherwise the stored record with the number of its open requests, which is at most its number of requests |
| EquipmentController.ClosingLowersCount | Server/controllers/equipmentController.js:49-52 | closing an open request lowers its equipment's open count by one |
| EquipmentController.StatusUpdateAndOpenCount | Server/controllers/equipmentController.js:49-52 | after a successful status update, the count drops by one exactly when the request was open and is now REPAIRED or SCRAP; otherwise it is unchanged |
| EquipmentController.UpdateEquipmentSpec | Server/controllers/equipmentController.js:66-82 | an invalid body (an off-enum status, or a category that is no literal once trimmed) gives 400, then a missing id gives 404; otherwise it succeeds exactly when the patched serial number is free, and stores the patched record; serial numbers stay unique; failures change nothing |
| EquipmentController.UpdateEquipment | Server/controllers/equipmentController.js:66-82 | the store's new state and the answer are those of `UpdateEquipmentSpec`, and the store stays consistent |
| EquipmentController.UpdateRevivesScrapped | Server/controllers/equipmentController.js:66-82 | an update setting status ACTIVE brings SCRAPPED equipment back |
| EquipmentController.DeleteEquipmentSpec | Server/controllers/equipmentController.js:84-94 | a missing id gives 404; otherwise exactly that record goes, and requests, teams and users are untouched |
| EquipmentController.DeleteEquipment | Server/controllers/equipmentController.js:84-94 | the store's new state and the answer are those of `DeleteEquipmentSpec`, and the store stays consistent |
| EquipmentController.DeleteLeavesRequestsBehind | Server/controllers/equipmentController.js:84-94 | after a delete, the equipment's requests stay stored, and a new request on it gets 404 |
| EquipmentController.ScrapReason | Server/controllers/equipmentController.js:105 | a non-empty reason is kept, and an absent or empty one becomes "Manual scrap action" |
| EquipmentController.DefaultReasonTrimmed | Server/models/Equipment.js:58-61 | the default reason has no surrounding white space, so the schema's trim stores it whole |
| EquipmentController.ScrapEquipmentSpec | Server/controllers/equipmentController.js:96-111 | a missing id gives 404; otherwise the stored record becomes exactly `markAsScrap` of the old one: SCRAPPED with the trimmed reason or its default and the current date, every other field kept |
| EquipmentController.ScrapEquipment | Server/controllers/equipmentController.js:96-111 | the store's new state and the answer are those of `ScrapEquipmentSpec`, and the store stays consistent |
| EquipmentController.ScrapRecordsDefault | Server/controllers/equipmentController.js:96-111 | scrapping with no reason records the default reason as it is |
| EquipmentController.RescrapReplaces | Server/models/Equipment.js:74-79 | a second `markAsScrap` on a stored record leaves the store as a single scrap with the second reason and date |
| EquipmentController.ScrapRepeats | Server/controllers/equipmentController.js:96-111 | scrapping already scrapped equipment succeeds, and the store ends as if only the second scrap had happened |
| TeamController.CreateTeamSpec | Server/controllers/teamController.js:4-11 | succeeds exactly when the body makes a valid team whose name is free, and stores it under the fresh id; a taken name gives the duplicate-name 400; team names stay unique; failures are 400 and change nothing |
| TeamController.FreshNameKeepsUnique | Server/models/MaintenanceTeam.js:4-9 | storing a team under a name no other team holds keeps names unique |
| TeamController.CreateTeam | Server/controllers/teamController.js:4-11 | the store's new state and the answer are those of `CreateTeamSpec`, and the store stays consistent |
| TeamController.GetTeamById | Server/controllers/teamController.js:31-44 | returns the stored team exactly when the id exists, and 404 otherwise |
| TeamController.BuildTeamFilter | Server/controllers/teamController.js:13-19 | the filter matches exactly the teams the listing rule admits; the `isActive` filter is true exactly for the text "true" |
| TeamController.GetTeams | Server/controllers/teamController.js:13-29 | returns exactly the stored teams the listing rule admits |
| TeamController.AddTechnicianSpec | Server/controllers/teamController.js:64-92 | a non-technician gives 400, then a missing team gives 404; it succeeds exactly when the user is a TECHNICIAN and the team exists; a listed technician leaves the list as it is; otherwise the technician is appended once and their team set |
| TeamController.AddTechnician | Server/controllers/teamController.js:64-92 | the store's new state and the answer are those of `AddTechnicianSpec`, and the store stays consistent |
| TeamController.AddTechnicianIdempotent | Server/controllers/teamController.js:78-85 | adding the same technician twice is the same as adding them once |
| TeamController.AddKeepsPreviousRoster | Server/controllers/teamController.js:78-85 | a technician moved to another team stays listed on their previous team |
| TeamController.UnsetTeam | Server/controllers/teamController.js:107 | unsetting removes one user's team and changes no other user |
| TeamController.RemoveTechnicianSpec | Server/controllers/teamController.js:94-114 | a missing team gives 404 and changes nothing; otherwise every occurrence of the id is filtered out of the list and the user's team is unset |
| TeamController.RemoveTechnician | Server/controllers/teamController.js:94-114 | the store's new state and the answer are those of `RemoveTechnicianSpec`, and the store stays consistent |
| TeamController.RemoveUnsetsOtherTeam | Server/controllers/teamController.js:103-107 | removing a technician who is not listed still unsets the team they belong to elsewhere |
| TeamController.AddThenRemoveRestoresList | Server/controllers/teamController.js:64-114 | adding and then removing an unlisted technician restores the team's list |
| TeamController.ClearTeamReferences | Server/controllers/teamController.js:124-127 | every user of the team loses the reference, and every other user is unchanged |
| TeamController.DeleteTeamSpec | Server/controllers/teamController.js:116-133 | a missing team gives 404; otherwise the team goes and no user refers to it; equipment and requests are untouched, references included |
| TeamController.DeleteTeam | Server/controllers/teamController.js:116-133 | the store's new state and the answer are those of `DeleteTeamSpec`, and the store stays consistent |
| TeamController.DeletedTeamBreaksAssign | Server/controllers/teamController.js:116-133 | after its team is deleted, assigning a request of that team fails with a 500 |
| Routes.PathMatches | Server/routes/requestRoutes.js:39-45 | a pattern matches only paths of its own length |
| Routes.FirstMatch | Server/routes/requestRoutes.js:39-45 | the router picks the first route in declaration order that matches, or reports that none does |
| Routes.FirstMatchIs | Server/routes/requestRoutes.js:39-45 | a matching route with no earlier match is the one picked |
| Routes.Bind | Server/routes/teamRoutes.js:37 | the parameters bound are exactly the pattern's `:name` segments, each bound to the path segment at its position (the last one when a name repeats) |
| Routes.Sanitize | Server/routes/requestRoutes.js:18-24 | running the chains in order changes no field name |
| Routes.SanitizeTrimsOnce | Server/routes/requestRoutes.js:18-24 | after the chains, a field with a trimming chain holds its trimmed text and every other field is as it was |
| Routes.UntrimmedKeepBody | Server/routes/requestRoutes.js:31-33 | chains without a trim sanitizer, and routes with none, hand the body on unchanged |
| Routes.DispatchOutcomes | Server/routes/requestRoutes.js:36 | with no user every request gets 401; a handler runs only for a route that matches; with a user and no matching route the answer is 404 |
| Routes.DispatchAt | Server/routes/requestRoutes.js:36-45 | for the first matching route: a role outside its list gets 403; otherwise its handler runs on the bound parameters and the sanitised body |
| Routes.ParamBinds | Server/routes/requestRoutes.js:43 | a `/:id` pattern matches any non-empty segment and binds it as `id` |
| Routes.ParamLitBinds | Server/routes/requestRoutes.js:44-45 | a `/:id/<word>` pattern matches a non-empty segment followed by the word and binds only `id` |
| Routes.EveryRouteNeedsAuthentication | Server/routes/teamRoutes.js:29 | in all three routers, a request with no user is answered 401 whatever its verb and path |
| Routes.NoRequestDeletion | Server/routes/requestRoutes.js:39-45 | the request router has no DELETE route, so every DELETE gets 404 |
| Routes.CalendarBeforeFetch | Server/routes/requestRoutes.js:41-43 | `/calendar` reaches the calendar handler and not the fetch of id "calendar"; any other single segment reaches the fetch |
| Routes.AssignGatedTwice | Server/routes/requestRoutes.js:45 | a manager or admin reaches the assign handler; any other role gets 403 at the router, which the handler would also answer |
| Routes.EquipmentReadsOpen | Server/routes/equipmentRoutes.js:33-34 | every authenticated role may list and fetch equipment |
| Routes.EquipmentCreateGated | Server/routes/equipmentRoutes.js:32 | creating equipment is for ADMIN and MANAGER; other roles get 403 |
| Routes.EquipmentUpdateGated | Server/routes/equipmentRoutes.js:35 | updating equipment is for ADMIN and MANAGER; other roles get 403 |
| Routes.EquipmentScrapGated | Server/routes/equipmentRoutes.js:37 | scrapping equipment is for ADMIN and MANAGER; other roles get 403 |
| Routes.EquipmentDeleteAdminOnly | Server/routes/equipmentRoutes.js:36 | deleting equipment is for ADMIN only |
| Routes.TeamReadsOpen | Server/routes/teamRoutes.js:33-34 | every authenticated role may list and fetch teams |
| Routes.TeamCreateGated | Server/routes/teamRoutes.js:32 | creating a team is for ADMIN and MANAGER |
| Routes.TeamUpdateGated | Server/routes/teamRoutes.js:35 | updating a team is for ADMIN and MANAGER |
| Routes.TeamAddGated | Server/routes/teamRoutes.js:36 | adding a member is for ADMIN and MANAGER |
| Routes.TeamRemoveGated | Server/routes/teamRoutes.js:37 | removing a member is for ADMIN and MANAGER, and the handler receives both ids |
| Routes.RemovePathBinds | Server/routes/teamRoutes.js:37 | the three-segment removal path matches the route and binds `id` and `technicianId` |
| Routes.TeamDeleteAdminOnly | Server/routes/teamRoutes.js:38 | deleting a team is for ADMIN only |
| Routes.RequestCreationChecks | Server/routes/requestRoutes.js:18-24 | a creation body passes its checks exactly when subject and description are not blank, the equipment is a 24-digit hexadecimal id, the type is CORRECTIVE or PREVENTIVE, and a scheduled date, when given, is date-shaped |
| Routes.UpdatesDeclareNoChecks | Server/routes/equipmentRoutes.js:35 | the equipment and team updates declare no checks, so their handlers receive the body exactly as sent |
| Routes.ChecksDoNotBlock | Server/routes/requestRoutes.js:39 | a creation body that fails its checks still reaches the handler, sanitised |
| Routes.BadStatusRefusedByController | Server/routes/requestRoutes.js:26-29 | a status outside the enum fails its check but still reaches the handler, which refuses it with 400 and changes nothing |
| Scenario.CreatedAsNew | Server/controllers/requestController.js:5-40 | a plain CORRECTIVE report on ACTIVE, staffed equipment is created as NEW, on the equipment's team, by the caller, with no assignee |
| Scenario.AssignedAfterCreate | Server/controllers/requestController.js:150-185 | a manager assigning the team's technician to a fresh report moves it to IN_PROGRESS with that assignee and still no completion date |
| Scenario.RepairedByAssignee | Server/controllers/requestController.js:104-148 | the assignee's move from IN_PROGRESS to REPAIRED with hours succeeds, stores the hours and leaves `completedDate` as it was |
| Scenario.NoReopening | Server/controllers/requestController.js:113-118 | a REPAIRED request cannot go back to NEW: 400 and nothing changes |
| Scenario.RequestLifecycle | Server/controllers/requestController.js:104-185 | create, then assign: IN_PROGRESS with the technician; the technician's update to REPAIRED stores the hours and no `completedDate`; a move back to NEW gets 400 and changes nothing |
| Scenario.FetchByTechnicians | Server/controllers/requestController.js:81-102 | after assignment, an unrelated technician gets 403, the assignee gets the request from the corrected fetch, and the fetch as written refuses the assignee |

## Left out

- Authentication is an input: the token check, the user lookup and `roleMiddleware` are not modelled. A route receives the user or nothing, and `roleMiddleware` is taken to permit exactly the roles it lists. Server/middleware/authMiddleware.js is not part of this model.
- `updateTeam` is not modelled beyond its route and gate; the handler's `$set` of a team is not part of this model.
- The auth, user and dashboard controllers and routers, the seed script and the client are not part of this model.
- Dates are abstract integers. `new Date()` is the `now` parameter, and parsing and month arithmetic are left out. `GetCalendarRequests` receives its window as parameters instead of computing it from `month` and `year`.
- `populate`, `sort`, `select` and the JSON shape of responses are left out. Listings return sets of ids. The only place population matters is the fetch by id, which the model does cover.
- Mongo cast errors are not modelled. Ids are opaque strings, numbers are integers, and fractional hours are not modelled. A malformed object id or a non-numeric `hoursSpent` makes a handler throw, and the handler's catch decides the answer:
  - 400 from `createRequest`, `updateRequestStatus`, `createEquipment`, `updateEquipment`, `createTeam` and `updateTeam`;
  - 500 from every other handler.
- A partial write in `updateRequestStatus` is not modelled. On a move to SCRAP, the equipment is set to SCRAPPED before the request is patched. If that patch then throws, for example on a non-numeric `hoursSpent`, the answer is 400 and the equipment stays SCRAPPED. Since the model's bodies are typed, its patch never fails.
- Query values are single strings. Express can also hand a handler an array (`?status=NEW&status=SCRAP`, which Mongoose reads as `$in`) or an object (`?status[$ne]=NEW`), and `getRequests`, `getEquipments` and `getTeams` put such values into the filter unchanged. These cases are not modelled. An array `isActive` never equals `'true'`, so it lists only the inactive teams.
- RequestController.StatusBody: `hoursSpent` is absent or an integer. A `null` `hoursSpent` passes the `!== undefined` test and is written, clearing the stored hours; that case is not modelled.
- The `equipment` field of a request is an array in the schema; the model stores the single id that every handler writes into it.
- `isISO8601` is modelled on its calendar-date form with an optional time part. The full grammar of ISO 8601 is not modelled.
- EquipmentController.UpdateEquipmentSpec: the equipment update runs update validators (`runValidators`), and the model keeps only their enum checks; a `required` field set to an empty string, which those validators also refuse with 400, is not modelled.
- Schema validation of equipment during `markAsScrap`'s `save()` is not modelled.
- Validation of user documents during `addTechnician` is not modelled.
- The `trim()` sanitizers are applied only to fields present in the body.
- Express routing details such as case-insensitive paths and a trailing slash are not modelled.
- Concurrency is not modelled: each handler runs alone, so interleaved requests, races and unique-index races are not captured.
- RequestController.RequestsByEquipment: states that the result holds only stored ids and every request on the equipment. It does not state that the result holds only requests on that equipment, although the body does.
- RequestController.GetRequestByIdAsWritten: states only the 404 case; its behaviour for technicians is stated by `FetchAsWrittenDeniesTechnicians` and `FetchAccessAsWritten`.

Where the written description of the system and its code differ, the model follows the code:

- Creation stores a client-sent `status` and `assignedTechnician` as sent.
- A status update does not stamp `completedDate`, because `findByIdAndUpdate` runs no save hook.
- The SCRAP cascade sets the equipment's status only, with no scrap date.
- An equipment update can bring SCRAPPED equipment back to ACTIVE.
- The route validation chains are declared, but their results are never read, so they never block a request. Only their `trim()` sanitizers act.

## Findings

| source | as written | input that shows it | evidently intended | confidence | as-written member | corrected member |
|---|---|---|---|---|---|---|
| Server/controllers/requestController.js:93-96 | the access check runs on the populated request, so the assignee and the team render as documents (or undefined) and never equal the technician's ids | a TECHNICIAN who is the request's assignee and a member of its team fetches it by id: 403, or 500 when the team no longer exists | run `validateTechnicianAccess` on the stored ids, before population, so that the assignee and the team's members are granted | not executed | RequestController.GetRequestByIdAsWritten (with RequestController.FetchAsWrittenDeniesTechnicians) | RequestController.GetRequestById |
