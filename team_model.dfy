/**
  The maintenance-team document: a unique required name, a specialization from
  five literals, the list of technician ids and the `isActive` flag that
  defaults to true.
*/
module TeamModel {
  import opened Common

  datatype Specialization = MECHANICAL | ELECTRICAL | IT | HVAC | GENERAL

  function SpecializationName(s: Specialization): string
  {
    match s
    case MECHANICAL => "MECHANICAL"
    case ELECTRICAL => "ELECTRICAL"
    case IT => "IT"
    case HVAC => "HVAC"
    case GENERAL => "GENERAL"
  }

  function ParseSpecialization(text: string): (r: Option<Specialization>)
    ensures r.Some? ==> SpecializationName(r.value) == text
    ensures r.None? ==> forall s :: SpecializationName(s) != text
  {
    if text == "MECHANICAL" then Some(MECHANICAL)
    else if text == "ELECTRICAL" then Some(ELECTRICAL)
    else if text == "IT" then Some(IT)
    else if text == "HVAC" then Some(HVAC)
    else if text == "GENERAL" then Some(GENERAL)
    else None
  }

  /** A stored team; `technicians` is the list of member user ids, duplicates and all. */
  datatype MaintenanceTeam = MaintenanceTeam(
    name: string,
    description: Option<string>,
    specialization: Specialization,
    technicians: seq<Id>,
    isActive: bool)

  /** The fields a client may send to create a team; `None` is an absent field. */
  datatype TeamBody = TeamBody(
    name: Option<string>,
    description: Option<string>,
    specialization: Option<string>,
    technicians: Option<seq<Id>>,
    isActive: Option<bool>)

  /**
    What `MaintenanceTeam.create` stores for a body: the name is required and
    trimmed, the specialization must be one of the five literals, an absent
    list of technicians is empty and an absent `isActive` is true.
  */
  function NewTeamDocument(body: TeamBody): (r: Result<MaintenanceTeam>)
    ensures r.Ok? <==> (body.name.Some? && Trim(body.name.value) != ""
                        && body.specialization.Some? && ParseSpecialization(body.specialization.value).Some?)
    ensures r.Ok? ==> (r.value.name == Trim(body.name.value)
                       && SpecializationName(r.value.specialization) == body.specialization.value)
    ensures r.Ok? ==> r.value.isActive == (body.isActive.None? || body.isActive.value)
    ensures r.Ok? ==> r.value.technicians == (if body.technicians.None? then [] else body.technicians.value)
    ensures r.Err? ==> r.error.BadRequest?
  {
    var specialization := if body.specialization.Some? then ParseSpecialization(body.specialization.value) else None;
    if body.name.Some? && Trim(body.name.value) != "" && specialization.Some? then
      Ok(MaintenanceTeam(
        Trim(body.name.value),
        if body.description.Some? then Some(Trim(body.description.value)) else None,
        specialization.value,
        if body.technicians.Some? then body.technicians.value else [],
        if body.isActive.Some? then body.isActive.value else true))
    else
      Err(BadRequest(TeamValidationFailed))
  }

  /**
    `technicians.filter(id => id.toString() !== technicianId)`: every
    occurrence of `x` is dropped and every other id keeps its multiplicity.
  */
  function RemoveAll(s: seq<Id>, x: Id): (r: seq<Id>)
    ensures x !in r
    ensures multiset(r) == multiset(s)[x := 0]
    ensures |r| <= |s|
  {
    if s == [] then []
    else
      var rest := RemoveAll(s[1..], x);
      assert s == [s[0]] + s[1..];
      if s[0] == x then rest else [s[0]] + rest
  }

  /** Removing an id that is not in the list gives the list back unchanged. */
  lemma {:induction false} RemoveAbsentIsIdentity(s: seq<Id>, x: Id)
    requires x !in s
    ensures RemoveAll(s, x) == s
  {
    if s != [] {
      RemoveAbsentIsIdentity(s[1..], x);
    }
  }

  /**
    The filter works element by element, so it distributes over concatenation:
    the surviving ids keep their original order.
  */
  lemma {:induction false} RemoveAllDistributes(s1: seq<Id>, s2: seq<Id>, x: Id)
    ensures RemoveAll(s1 + s2, x) == RemoveAll(s1, x) + RemoveAll(s2, x)
  {
    if s1 != [] {
      assert (s1 + s2)[1..] == s1[1..] + s2;
      RemoveAllDistributes(s1[1..], s2, x);
    } else {
      assert s1 + s2 == s2;
    }
  }

  /** Removing an id that was just appended to a list without it gives the list back. */
  lemma RemoveUndoesAppend(s: seq<Id>, x: Id)
    requires x !in s
    ensures RemoveAll(s + [x], x) == s
  {
    RemoveAllDistributes(s, [x], x);
    RemoveAbsentIsIdentity(s, x);
    assert RemoveAll([x], x) == [];
  }
}
