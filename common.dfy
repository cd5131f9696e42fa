/**
  Vocabulary shared by every part of the maintenance server: identifiers,
  instants, the authenticated user, the error taxonomy of the controllers and
  the whitespace trimming that Mongoose's `trim: true` and express-validator's
  `.trim()` apply to strings.
*/
module Common {

  /** Object ids are opaque strings; the empty string stands for "not given". */
  type Id = string

  /** Instants are abstract integers; the server's `new Date()` is always a parameter. */
  type Date = int

  datatype Option<+T> = None | Some(value: T)

  /** The four roles of the user directory. */
  datatype Role = ADMIN | MANAGER | TECHNICIAN | EMPLOYEE

  /** What the controllers read of `req.user`: its id, its role and its team reference. */
  datatype User = User(id: Id, role: Role, maintenanceTeam: Option<Id>)

  /** The outcomes a controller answers with instead of a success. */
  datatype Error =
    | Unauthorized(message: string)
    | Forbidden(message: string)
    | NotFound(message: string)
    | BadRequest(message: string)
    | ServerError(message: string)

  /** The HTTP status code each error is sent with. */
  function HttpStatus(e: Error): int
  {
    match e
    case Unauthorized(_) => 401
    case Forbidden(_) => 403
    case NotFound(_) => 404
    case BadRequest(_) => 400
    case ServerError(_) => 500
  }

  // The messages the controllers answer with, as the server spells them.
  const EquipmentNotFound: string := "Equipment not found"
  const RequestNotFound: string := "Request not found"
  const TeamNotFound: string := "Team not found"
  const AccessDenied: string := "Access denied to this request"
  const OnlyManagersAssign: string := "Only managers can assign technicians"
  const TechnicianNotInTeam: string := "Technician must belong to the assigned maintenance team"
  const InvalidTechnician: string := "Invalid technician"
  const ScrappedEquipmentRefused: string := "Cannot create request for scrapped equipment"
  const ScheduledDateRequired: string := "Scheduled date is required for preventive maintenance"
  const TransitionRefusedPrefix: string := "Invalid status transition from "
  const ValidationFailed: string := "Validation failed"
  const EquipmentValidationFailed: string := "Equipment validation failed"
  const RequestValidationFailed: string := "MaintenanceRequest validation failed"
  const TeamValidationFailed: string := "MaintenanceTeam validation failed"
  const DuplicateSerial: string := "E11000 duplicate key error collection: equipment index: serialNumber_1"
  const DuplicateTeamName: string := "E11000 duplicate key error collection: maintenanceteams index: name_1"
  const NullTeamId: string := "Cannot read properties of null (reading '_id')"
  const NullTechnicians: string := "Cannot read properties of null (reading 'technicians')"
  const NullToString: string := "Cannot read properties of null (reading 'toString')"
  const EquipmentDeleted: string := "Equipment deleted successfully"
  const TeamDeleted: string := "Team deleted successfully"

  datatype Result<+T> = Ok(value: T) | Err(error: Error)

  /** A query-string value as a filter entry: the empty string is no entry. */
  function Given(text: string): (entry: Option<string>)
    ensures entry.None? <==> text == ""
    ensures entry.Some? ==> entry.value == text
  {
    if text == "" then None else Some(text)
  }

  /** JavaScript's white space and line terminators, the characters `String.prototype.trim` drops. */
  predicate IsSpace(c: char)
  {
    || c == ' ' || c == '\t' || c == '\n' || c == '\r'
    || c == '\U{000B}' || c == '\U{000C}' || c == '\U{00A0}' || c == '\U{1680}'
    || ('\U{2000}' <= c <= '\U{200A}')
    || c == '\U{2028}' || c == '\U{2029}' || c == '\U{202F}' || c == '\U{205F}'
    || c == '\U{3000}' || c == '\U{FEFF}'
  }

  /** A string made of white space only (the empty string included). */
  predicate IsBlank(s: string)
  {
    forall i :: 0 <= i < |s| ==> IsSpace(s[i])
  }

  /** A second update of the same key overrides the first. */
  lemma UpdateTwice<K, V>(m: map<K, V>, k: K, a: V, b: V)
    ensures m[k := a][k := b] == m[k := b]
  {
    assert m[k := a][k := b].Keys == m[k := b].Keys;
  }

  /** `s` with its leading white space removed. */
  function TrimStart(s: string): (r: string)
    ensures |r| <= |s| && r == s[|s| - |r|..]
    ensures IsBlank(s[..|s| - |r|])
    ensures r == [] || !IsSpace(r[0])
  {
    if s != [] && IsSpace(s[0]) then
      var r := TrimStart(s[1..]);
      assert s[..|s| - |r|] == [s[0]] + s[1..][..|s| - 1 - |r|];
      assert s[|s| - |r|..] == s[1..][|s| - 1 - |r|..];
      r
    else s
  }

  /** `s` with its trailing white space removed. */
  function TrimEnd(s: string): (r: string)
    ensures |r| <= |s| && r == s[..|r|]
    ensures IsBlank(s[|r|..])
    ensures r == [] || !IsSpace(r[|r| - 1])
  {
    if s != [] && IsSpace(s[|s| - 1]) then
      var r := TrimEnd(s[..|s| - 1]);
      assert s[|r|..] == s[..|s| - 1][|r|..] + [s[|s| - 1]];
      assert s[..|r|] == s[..|s| - 1][..|r|];
      r
    else s
  }

  /** `String.prototype.trim`. */
  function Trim(s: string): string
  {
    TrimEnd(TrimStart(s))
  }

  /** A string that trimming leaves as it is. */
  predicate Trimmed(s: string)
  {
    s == [] || (!IsSpace(s[0]) && !IsSpace(s[|s| - 1]))
  }

  /** Trimming yields the empty string exactly when the string is blank. */
  lemma TrimEmptyIffBlank(s: string)
    ensures Trim(s) == [] <==> IsBlank(s)
  {
    var t := TrimStart(s);
    if Trim(s) == [] {
      assert IsBlank(t[0..]);
      assert t == [];
      forall i | 0 <= i < |s| ensures IsSpace(s[i]) {
        assert s[i] == s[..|s| - |t|][i];
      }
    }
  }

  /** The trimmed string has no white space at either end, so a second trim changes nothing. */
  lemma TrimIsTrimmed(s: string)
    ensures Trimmed(Trim(s))
    ensures Trim(Trim(s)) == Trim(s)
  {
    var t := TrimStart(s);
    var r := TrimEnd(t);
    if r != [] {
      assert r[0] == t[0];
    }
    TrimmedIsFixed(r);
  }

  /** A trimmed string is its own trim. */
  lemma TrimmedIsFixed(s: string)
    requires Trimmed(s)
    ensures Trim(s) == s
  {
  }
}
