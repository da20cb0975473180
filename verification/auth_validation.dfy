/** The request checks of the C# server's auth area: the group and user
    validators, which gather field errors in a dictionary and throw one
    `ValidationException` carrying all of them, and the update-group
    payload's own check.  The request records themselves are not part of
    this model; each validator takes the fields it reads, null where the
    record's field is nullable. */
module AuthValidation {
  import opened Wrappers
  import opened Text
  import opened DotNetGuid
  import opened DataAnnotations

  /** `ValidationException(message, errors)`: the field errors by field name. */
  datatype ValidationException = ValidationException(message: string, errors: map<string, seq<string>>)

  const LengthMessage: string := "Length must be greater than 0"
  const GuidMessage: string := "Must be a valid non-empty GUID"
  const UserLengthMessage: string := "Length must be greater than to 0"

  /** `Guid.Parse`: the parsed GUID, or the exception (argument-null or
      format) it throws. */
  function Parse(s: Option<string>): (r: Result<Guid, string>)
    ensures r.Success? <==> TryParse(s).Some?
    ensures r.Success? ==> r.value == TryParse(s).value
  {
    match TryParse(s)
    case Some(g) => Success(g)
    case None => Failure(if s.None? then "ArgumentNullException" else "FormatException")
  }

  // ---------------------------------------------------------------------
  // GroupRequestValidator

  /** Checks the user id and the group GUID together; on success the GUID
      is the parsed one, otherwise every failing field is reported. */
  method ValidateAssignUserToGroupRequest(groupGuidStr: Option<string>, userKcId: Option<string>)
    returns (r: Result<Guid, ValidationException>)
    ensures r.Success? <==> !IsNullOrWhiteSpace(userKcId) && TryParse(groupGuidStr).Some?
    ensures r.Success? ==> r.value == TryParse(groupGuidStr).value
    ensures r.Failure? ==> r.error == ValidationException(
      "Failed to validate Assign User to Group Dto",
      (if IsNullOrWhiteSpace(userKcId) then map["keycloakId" := [LengthMessage]] else map[]) +
      (if TryParse(groupGuidStr).None? then map["groupGuid" := [GuidMessage]] else map[]))
  {
    var errors: map<string, seq<string>> := map[];
    var groupGuid: Guid := Empty;

    if IsNullOrWhiteSpace(userKcId) {
      errors := errors["keycloakId" := [LengthMessage]];
    }

    var parsed := TryParse(groupGuidStr);
    BlankTextHasNoGuid(groupGuidStr);
    if IsNullOrWhiteSpace(groupGuidStr) || parsed.None? {
      errors := errors["groupGuid" := [GuidMessage]];
    } else {
      groupGuid := parsed.value;
    }

    if |errors| > 0 {
      return Failure(ValidationException("Failed to validate Assign User to Group Dto", errors));
    }
    return Success(groupGuid);
  }

  /** A group needs a non-blank name and a non-blank description of at
      least ten characters; both failures are reported together. */
  method ValidateAddGroup(name: Option<string>, description: Option<string>)
    returns (r: Result<(), ValidationException>)
    ensures r.Success? <==> !IsNullOrWhiteSpace(name) && !IsNullOrWhiteSpace(description) && |description.value| >= 10
    ensures r.Failure? ==> r.error == ValidationException(
      "Failed to validate Add Group Dto",
      (if IsNullOrWhiteSpace(name) then map["name" := [LengthMessage]] else map[]) +
      (if IsNullOrWhiteSpace(description) || |description.value| < 10
       then map["description" := ["Must be more than 10 characters"]] else map[]))
  {
    var errors: map<string, seq<string>> := map[];

    if IsNullOrWhiteSpace(name) {
      errors := errors["name" := [LengthMessage]];
    }

    if IsNullOrWhiteSpace(description) || |description.value| < 10 {
      errors := errors["description" := ["Must be more than 10 characters"]];
    }

    if |errors| > 0 {
      return Failure(ValidationException("Failed to validate Add Group Dto", errors));
    }
    return Success(());
  }

  /** Reports a blank text and an unparsable one separately, so a blank
      text is reported under both names. */
  method ValidateGetGroup(groupGuidStr: Option<string>) returns (r: Result<Guid, ValidationException>)
    ensures r.Success? <==> TryParse(groupGuidStr).Some?
    ensures r.Success? ==> r.value == TryParse(groupGuidStr).value
    ensures r.Failure? ==> r.error == ValidationException(
      "Failed to validate Get Group",
      (if IsNullOrWhiteSpace(groupGuidStr) then map["groupGuidStr" := [LengthMessage]] else map[]) +
      map["groupGuid" := [GuidMessage]])
  {
    var errors: map<string, seq<string>> := map[];
    var groupGuid: Guid := Empty;

    BlankTextHasNoGuid(groupGuidStr);
    if IsNullOrWhiteSpace(groupGuidStr) {
      errors := errors["groupGuidStr" := [LengthMessage]];
    }

    match Parse(groupGuidStr) {
      case Success(g) => groupGuid := g;
      case Failure(_) => errors := errors["groupGuid" := [GuidMessage]];
    }

    if |errors| > 0 {
      return Failure(ValidationException("Failed to validate Get Group", errors));
    }
    return Success(groupGuid);
  }

  /** Stops at the first failure: a blank text is reported only as
      `groupGuidStr`, an unparsable one only as `groupGuid`. */
  method ValidateDeleteGroup(groupGuidStr: Option<string>) returns (r: Result<Guid, ValidationException>)
    ensures IsNullOrWhiteSpace(groupGuidStr) ==>
      r == Failure(ValidationException("Failed to validate Delete Group", map["groupGuidStr" := [GuidMessage]]))
    ensures !IsNullOrWhiteSpace(groupGuidStr) && TryParse(groupGuidStr).None? ==>
      r == Failure(ValidationException("Failed to validate Group Guid str", map["groupGuid" := [GuidMessage]]))
    ensures r.Success? <==> TryParse(groupGuidStr).Some?
    ensures r.Success? ==> r.value == TryParse(groupGuidStr).value
  {
    var errors: map<string, seq<string>> := map[];
    BlankTextHasNoGuid(groupGuidStr);
    if IsNullOrWhiteSpace(groupGuidStr) {
      errors := errors["groupGuidStr" := [GuidMessage]];
      return Failure(ValidationException("Failed to validate Delete Group", errors));
    }
    match Parse(groupGuidStr) {
      case Success(g) => return Success(g);
      case Failure(_) =>
        errors := errors["groupGuid" := [GuidMessage]];
        return Failure(ValidationException("Failed to validate Group Guid str", errors));
    }
  }

  /** A null or blank text never holds a GUID, so testing for blank
      before parsing adds no case of its own. */
  lemma BlankTextHasNoGuid(groupGuidStr: Option<string>)
    ensures IsNullOrWhiteSpace(groupGuidStr) ==> TryParse(groupGuidStr).None?
  {
    if groupGuidStr.Some? && IsWhiteSpaceOnly(groupGuidStr.value) {
      BlankDoesNotParse(groupGuidStr.value);
    }
  }

  // ---------------------------------------------------------------------
  // UserValidator

  /** `UserValidator.ValidateAddUser`: only the empty id is refused;
      white space passes. */
  function ValidateAddUser(keycloakId: string): (r: Result<(), ValidationException>)
    ensures r.Failure? <==> keycloakId == []
    ensures r.Failure? ==> r.error.errors.Keys == {"keycloakId"}
  {
    if |keycloakId| == 0 then
      Failure(ValidationException("Failed to validate Add User Dto", map["keycloakId" := [UserLengthMessage]]))
    else Success(())
  }

  /** `UserValidator.ValidateAssignUserToGroup` as written: both length
      tests are `is not 0`. */
  function ValidateAssignUserToGroupAsWritten(keycloakId: string, groupGuid: Guid): (r: Result<(), ValidationException>)
    ensures |keycloakId| != 0 ==> r.Failure? && "keycloakId" in r.error.errors
  {
    var idErrors: map<string, seq<string>> :=
      if |keycloakId| != 0 then map["keycloakId" := [UserLengthMessage]] else map[];
    var errors := if |Format(groupGuid)| != 0 then idErrors["groupGuid" := [UserLengthMessage]] else idErrors;
    if |errors| > 0 then Failure(ValidationException("Failed to validate Assign User to Group Dto", errors))
    else Success(())
  }

  /** The written check refuses every input: a GUID's text is never empty. */
  lemma AssignAlwaysFails(keycloakId: string, groupGuid: Guid)
    ensures ValidateAssignUserToGroupAsWritten(keycloakId, groupGuid).Failure?
    ensures "groupGuid" in ValidateAssignUserToGroupAsWritten(keycloakId, groupGuid).error.errors
  {
    assert |Format(groupGuid)| == 36;
  }

  /** The same check with the length tests the messages describe: an
      empty id is refused, and the GUID text test never fires. */
  method ValidateAssignUserToGroup(keycloakId: string, groupGuid: Guid) returns (r: Result<(), ValidationException>)
    ensures r.Failure? <==> keycloakId == []
    ensures r.Failure? ==> r.error == ValidationException(
      "Failed to validate Assign User to Group Dto", map["keycloakId" := [UserLengthMessage]])
    ensures r.Success? <==> ValidateAddUser(keycloakId).Success?
  {
    var errors: map<string, seq<string>> := map[];
    if |keycloakId| == 0 {
      errors := errors["keycloakId" := [UserLengthMessage]];
    }
    if |Format(groupGuid)| == 0 {
      errors := errors["groupGuid" := [UserLengthMessage]];
    }
    if |errors| > 0 {
      return Failure(ValidationException("Failed to validate Assign User to Group Dto", errors));
    }
    return Success(());
  }

  // ---------------------------------------------------------------------
  // UserRequestValidator

  /** `UserRequestValidator.ValidateAddUser`: a null, empty or white-space
      id is refused under the single key `keycloakId`. */
  function ValidateAddUserRequest(userKcId: Option<string>): (r: Result<(), ValidationException>)
    ensures r.Failure? <==> IsNullOrWhiteSpace(userKcId)
    ensures r.Failure? ==> r.error.errors.Keys == {"keycloakId"}
  {
    if IsNullOrWhiteSpace(userKcId) then
      Failure(ValidationException("Failed to validate Add User Dto", map["keycloakId" := [UserLengthMessage]]))
    else Success(())
  }

  /** The request validator is the stricter of the two: whatever it
      accepts the plain one accepts, and a white-space id tells them apart. */
  lemma RequestValidatorIsStricter(id: string)
    ensures ValidateAddUserRequest(Some(id)).Success? ==> ValidateAddUser(id).Success?
    ensures ValidateAddUser(" ").Success? && ValidateAddUserRequest(Some(" ")).Failure?
  {
    assert DotNetWhiteSpace(" "[0]);
    if id == [] {
      assert IsWhiteSpaceOnly(id);
    }
  }

  /** `ValidateGetUser`, `ValidateGetUserRoles` and
      `ValidateDeleteUserByKcId` have empty bodies: they never throw. */
  function ValidateNothing(): (r: Result<(), ValidationException>)
    ensures r.Success?
  {
    Success(())
  }

  // ---------------------------------------------------------------------
  // UpdateGroupDto

  /** `UpdateGroupDto.Validate`: one result exactly when both fields are
      null or white space; a white-space field counts as missing. */
  function ValidateUpdateGroup(name: Option<string>, description: Option<string>): (r: seq<ValidationResult>)
    ensures |r| <= 1
    ensures |r| == 1 <==> IsNullOrWhiteSpace(name) && IsNullOrWhiteSpace(description)
    ensures |r| == 1 ==> r[0].memberNames == ["Name", "Description"]
  {
    if IsNullOrWhiteSpace(name) && IsNullOrWhiteSpace(description) then
      [ValidationResult("At least one of Name or Description must be provided.", ["Name", "Description"])]
    else []
  }

  /** The attributes declared on `UpdateGroupDto`: a name of at least one
      char and a description of at least ten, each one line holding a char
      that is not white space. */
  predicate UpdateGroupDeclared(name: Option<string>, description: Option<string>) {
    MinLength(name, 1) && NonBlankLine(name) && MinLength(description, 10) && NonBlankLine(description)
  }

  /** Under the declared attributes a present field is never blank, so the
      payload is refused exactly when both fields are null. */
  lemma DeclaredUpdateGroup(name: Option<string>, description: Option<string>)
    requires UpdateGroupDeclared(name, description)
    ensures |ValidateUpdateGroup(name, description)| == 1 <==> name.None? && description.None?
  {
  }
}
