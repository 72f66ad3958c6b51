/**
 * The team form shown before a reservation is made: a team name, a member
 * count chosen from 1 to 4, and one name per member. The form validates all
 * three and hands the data on only when nothing is wrong.
 */
module TeamRegistration {
  import opened Wrappers
  import opened Strings
  import opened MemberNames

  /** `TeamData`: what the form hands on when it is complete. */
  datatype TeamData = TeamData(teamName: string, memberCount: int, memberNames: seq<string>)

  /** The error texts, by what they say; `MemberNameRequired(k)` names member `k`, counted from 1. */
  datatype Message = TeamNameRequired | MemberCountOutOfRange | MemberNameRequired(member: nat)

  /**
   * `TeamDataErrors`. `memberNames` is a sparse array: an unset slot, `undefined`
   * and "" all read as "no error" where the form shows it, and are `None` here.
   */
  datatype TeamDataErrors = TeamDataErrors(
    teamName: Option<Message>,
    memberCount: Option<Message>,
    memberNames: Option<seq<Option<Message>>>)

  /** `{}`: no key set. */
  const NoErrors := TeamDataErrors(None, None, None)

  /** `errors.memberNames?.[i]`: the error shown under name `i`. */
  function NameErrorAt(e: TeamDataErrors, i: int): Option<Message> {
    if e.memberNames.Some? && 0 <= i < |e.memberNames.value| then e.memberNames.value[i] else None
  }

  /** The data the form accepts: a team name, 1 to 4 members, and no blank member name. */
  predicate IsComplete(d: TeamData) {
    && !IsBlank(d.teamName)
    && 1 <= d.memberCount <= 4
    && forall i :: 0 <= i < |d.memberNames| ==> !IsBlank(d.memberNames[i])
  }

  /**
   * `e` is what `validateForm` records for `d`: one error per failed check and
   * nothing else; the member-name array is as long as the last blank name's
   * index plus one, and is left out when no name is blank.
   */
  ghost predicate Reports(e: TeamDataErrors, d: TeamData) {
    && e.teamName == (if IsBlank(d.teamName) then Some(TeamNameRequired) else None)
    && e.memberCount == (if d.memberCount < 1 || d.memberCount > 4 then Some(MemberCountOutOfRange) else None)
    && (forall i :: 0 <= i < |d.memberNames| ==> NameErrorAt(e, i) == NameError(d.memberNames, i))
    && (e.memberNames.Some? <==> exists i :: 0 <= i < |d.memberNames| && IsBlank(d.memberNames[i]))
    && (e.memberNames.Some? ==>
          var a := e.memberNames.value;
          0 < |a| <= |d.memberNames| && a[|a| - 1].Some?)
  }

  /** Entry `i` of a sparse error array, `None` past its end. */
  function ErrorAt(a: seq<Option<Message>>, i: int): Option<Message> {
    if 0 <= i < |a| then a[i] else None
  }

  /** The error `validateForm` puts under name `i`. */
  function NameError(names: seq<string>, i: int): Option<Message>
    requires 0 <= i < |names|
  {
    if IsBlank(names[i]) then Some(MemberNameRequired(i + 1)) else None
  }

  /** The `forEach` over the names: an error at the index of every blank name, holes elsewhere. */
  method MemberNameErrors(names: seq<string>) returns (memberNameErrors: seq<Option<Message>>)
    ensures |memberNameErrors| <= |names|
    ensures forall i :: 0 <= i < |names| ==> ErrorAt(memberNameErrors, i) == NameError(names, i)
    ensures memberNameErrors != [] <==> exists i :: 0 <= i < |names| && IsBlank(names[i])
    ensures memberNameErrors != [] ==> memberNameErrors[|memberNameErrors| - 1].Some?
  {
    memberNameErrors := [];
    for index := 0 to |names|
      invariant |memberNameErrors| <= index
      invariant forall i :: 0 <= i < index ==> ErrorAt(memberNameErrors, i) == NameError(names, i)
      invariant memberNameErrors != [] <==> exists i :: 0 <= i < index && IsBlank(names[i])
      invariant memberNameErrors != [] ==> memberNameErrors[|memberNameErrors| - 1].Some?
    {
      if IsBlank(names[index]) {
        ghost var prev := memberNameErrors;
        // Assigning past the end leaves holes up to `index`.
        memberNameErrors := memberNameErrors + seq(index - |memberNameErrors|, _ => None)
          + [Some(MemberNameRequired(index + 1))];
        assert forall i :: 0 <= i < index ==> ErrorAt(memberNameErrors, i) == ErrorAt(prev, i);
        assert ErrorAt(memberNameErrors, index) == NameError(names, index);
      } else {
        assert ErrorAt(memberNameErrors, index) == None;
      }
    }
  }

  /** `validateForm` without the state update: the errors it records and its verdict. */
  method ValidateTeamData(data: TeamData) returns (newErrors: TeamDataErrors, valid: bool)
    ensures Reports(newErrors, data)
    ensures valid <==> newErrors == NoErrors
    ensures valid <==> IsComplete(data)
  {
    var teamNameError: Option<Message> := None;
    if IsBlank(data.teamName) {
      teamNameError := Some(TeamNameRequired);
    }
    var memberCountError: Option<Message> := None;
    if data.memberCount < 1 || data.memberCount > 4 {
      memberCountError := Some(MemberCountOutOfRange);
    }
    var memberNameErrors := MemberNameErrors(data.memberNames);
    var anyNameError := exists k :: 0 <= k < |memberNameErrors| && memberNameErrors[k].Some?;
    assert anyNameError <==> memberNameErrors != [];
    newErrors := TeamDataErrors(teamNameError, memberCountError, if anyNameError then Some(memberNameErrors) else None);
    valid := newErrors == NoErrors;
  }

  /** The component's state: the form data and the errors on display. */
  class TeamRegistrationForm {
    var teamData: TeamData
    var errors: TeamDataErrors

    constructor()
      ensures teamData == TeamData("", 1, [""])
      ensures errors == NoErrors
    {
      teamData := TeamData("", 1, [""]);
      errors := NoErrors;
    }

    /** `updateMemberCount`: the count changes and the names are resized to it. */
    method UpdateMemberCount(newCount: int)
      modifies this
      ensures teamData == old(teamData).(memberCount := newCount, memberNames := Resized(old(teamData.memberNames), newCount))
      ensures errors == old(errors)
    {
      var newMemberNames := ResizeNames(teamData.memberNames, newCount);
      teamData := teamData.(memberCount := newCount, memberNames := newMemberNames);
    }

    /** `validateForm`: records the errors for the current data and says whether there are none. */
    method ValidateForm() returns (valid: bool)
      modifies this
      ensures teamData == old(teamData)
      ensures Reports(errors, teamData)
      ensures valid <==> errors == NoErrors
      ensures valid <==> IsComplete(teamData)
    {
      var newErrors;
      newErrors, valid := ValidateTeamData(teamData);
      errors := newErrors;
    }

    /** `handleSubmit`: the data passed to `onComplete`, which is called only when the form is valid. */
    method HandleSubmit() returns (completed: Option<TeamData>)
      modifies this
      ensures teamData == old(teamData)
      ensures Reports(errors, teamData)
      ensures completed.Some? <==> IsComplete(teamData)
      ensures completed.Some? ==> completed.value == teamData
    {
      var valid := ValidateForm();
      completed := if valid then Some(teamData) else None;
    }

    /** `handleInputChange("teamName", value)`: the new name, and its error cleared if one was shown. */
    method HandleTeamNameChange(value: string)
      modifies this
      ensures teamData == old(teamData).(teamName := value)
      ensures errors == old(errors).(teamName := None)
    {
      teamData := teamData.(teamName := value);
      if errors.teamName.Some? {
        errors := errors.(teamName := None);
      }
    }

    /**
     * `handleMemberNameChange`: only name `index` changes, and an error shown
     * under it is cleared; the other names and errors stay as they were.
     */
    method HandleMemberNameChange(index: nat, value: string)
      requires index < |teamData.memberNames|
      modifies this
      ensures teamData == old(teamData).(memberNames := old(teamData.memberNames)[index := value])
      ensures errors.teamName == old(errors.teamName) && errors.memberCount == old(errors.memberCount)
      ensures NameErrorAt(errors, index) == None
      ensures forall i :: i != index ==> NameErrorAt(errors, i) == NameErrorAt(old(errors), i)
    {
      var newMemberNames := teamData.memberNames[index := value];
      teamData := teamData.(memberNames := newMemberNames);
      if NameErrorAt(errors, index).Some? {
        var newMemberErrors := errors.memberNames.value[index := None];
        errors := errors.(memberNames := Some(newMemberErrors));
      }
    }
  }
}
