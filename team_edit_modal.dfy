/**
 * The dialog that edits the team attached to a reservation: it is filled from
 * the existing team when it opens, resizes the name list when the member
 * count changes, validates name lengths, a count of 1 to 10 and duplicate
 * names, and saves trimmed data under the team's id, or -1 when the
 * reservation has no team yet.
 */
module TeamEditModal {
  import opened Wrappers
  import opened Strings
  import opened Seqs
  import opened MemberNames

  datatype Player = Player(id: string, name: string)

  /** `userReservation.team`. */
  datatype Team = Team(id: int, name: string, headcount: int, players: seq<Player>)

  /** The keys of the error object: `teamName`, `memberCount`, `memberName<i>`, `duplicate`. */
  datatype ErrorKey = TeamNameKey | MemberCountKey | MemberNameKey(index: nat) | DuplicateKey

  /** The error texts, by what they say; `member` counts from 1. */
  datatype Message =
    | TeamNameRequired
    | TeamNameTooLong
    | MemberCountOutOfRange
    | MemberNameRequired(member: nat)
    | MemberNameTooLong(member: nat)
    | DuplicateNames

  /** The `teamData` argument of `onSave`. */
  datatype TeamPayload = TeamPayload(name: string, headcount: int, memberNames: seq<string>)

  const MaxTeamNameLength: nat := 50
  const MaxMemberNameLength: nat := 30
  const MaxMembers: nat := 10

  /** `name.trim().toLowerCase()`: the form of a name the duplicate check compares. */
  function NormalizedName(name: string): string {
    ToLower(Trim(name))
  }

  /** `memberNames.map(name => name.trim().toLowerCase())`. */
  function NormalizedNames(names: seq<string>): (r: seq<string>)
    ensures |r| == |names| && forall i :: 0 <= i < |names| ==> r[i] == NormalizedName(names[i])
  {
    seq(|names|, i requires 0 <= i < |names| => NormalizedName(names[i]))
  }

  /** Two names are the same once trimmed and lower-cased. */
  predicate HasDuplicateNames(names: seq<string>) {
    exists i, j :: 0 <= i < j < |names| && NormalizedName(names[i]) == NormalizedName(names[j])
  }

  /** The set built from the normalized names is smaller than the list exactly when two names coincide. */
  lemma DuplicateIffSetSmaller(names: seq<string>)
    ensures |Elements(NormalizedNames(names))| != |names| <==> HasDuplicateNames(names)
  {
    var keys := NormalizedNames(names);
    ElementsCount(keys);
    if !Distinct(keys) {
      var i, j :| 0 <= i < j < |keys| && keys[i] == keys[j];
      assert NormalizedName(names[i]) == NormalizedName(names[j]);
    }
  }

  predicate NameOk(name: string) {
    !IsBlank(name) && |name| <= MaxMemberNameLength
  }

  /** The data `validateForm` accepts. */
  predicate IsValidTeam(teamName: string, memberCount: int, memberNames: seq<string>) {
    && !IsBlank(teamName) && |teamName| <= MaxTeamNameLength
    && 1 <= memberCount <= MaxMembers
    && (forall i :: 0 <= i < |memberNames| ==> NameOk(memberNames[i]))
    && !HasDuplicateNames(memberNames)
  }

  /** The error `validateForm` records for name `i`, if any: blank wins over too long. */
  function NameError(names: seq<string>, i: int): Option<Message>
    requires 0 <= i < |names|
  {
    if IsBlank(names[i]) then Some(MemberNameRequired(i + 1))
    else if |names[i]| > MaxMemberNameLength then Some(MemberNameTooLong(i + 1))
    else None
  }

  /** The `forEach` over the names: one `memberName<i>` entry per name that is blank or too long. */
  method MemberNameErrors(memberNames: seq<string>, errors: map<ErrorKey, Message>)
    returns (newErrors: map<ErrorKey, Message>)
    requires forall k :: k in errors ==> !k.MemberNameKey?
    ensures forall k :: k in newErrors && !k.MemberNameKey? ==> k in errors && newErrors[k] == errors[k]
    ensures forall k :: k in errors ==> k in newErrors
    ensures forall i: nat :: MemberNameKey(i) in newErrors <==> i < |memberNames| && !NameOk(memberNames[i])
    ensures forall i: nat :: MemberNameKey(i) in newErrors ==> Some(newErrors[MemberNameKey(i)]) == NameError(memberNames, i)
  {
    newErrors := errors;
    for index := 0 to |memberNames|
      invariant forall k :: k in newErrors && !k.MemberNameKey? ==> k in errors && newErrors[k] == errors[k]
      invariant forall k :: k in errors ==> k in newErrors
      invariant forall i: nat :: MemberNameKey(i) in newErrors <==> i < index && !NameOk(memberNames[i])
      invariant forall i: nat :: MemberNameKey(i) in newErrors ==> Some(newErrors[MemberNameKey(i)]) == NameError(memberNames, i)
    {
      var name := memberNames[index];
      if IsBlank(name) {
        newErrors := newErrors[MemberNameKey(index) := MemberNameRequired(index + 1)];
      } else if |name| > MaxMemberNameLength {
        newErrors := newErrors[MemberNameKey(index) := MemberNameTooLong(index + 1)];
      }
    }
  }

  /**
   * `errors` is the error object `validateForm` records for this data: each
   * key set exactly when its check fails, with the message that check gives.
   */
  ghost predicate Records(errors: map<ErrorKey, Message>, teamName: string, memberCount: int, memberNames: seq<string>) {
    && (TeamNameKey in errors <==> IsBlank(teamName) || |teamName| > MaxTeamNameLength)
    && (TeamNameKey in errors ==>
          errors[TeamNameKey] == if IsBlank(teamName) then TeamNameRequired else TeamNameTooLong)
    && (MemberCountKey in errors <==> memberCount < 1 || memberCount > MaxMembers)
    && (MemberCountKey in errors ==> errors[MemberCountKey] == MemberCountOutOfRange)
    && (forall i: nat :: MemberNameKey(i) in errors <==> i < |memberNames| && !NameOk(memberNames[i]))
    && (forall i: nat :: MemberNameKey(i) in errors ==> Some(errors[MemberNameKey(i)]) == NameError(memberNames, i))
    && (DuplicateKey in errors <==> HasDuplicateNames(memberNames))
    && (DuplicateKey in errors ==> errors[DuplicateKey] == DuplicateNames)
  }

  /** `validateForm` without the state update: the error object it builds. */
  method ValidateTeam(teamName: string, memberCount: int, memberNames: seq<string>)
    returns (newErrors: map<ErrorKey, Message>)
    ensures TeamNameKey in newErrors <==> IsBlank(teamName) || |teamName| > MaxTeamNameLength
    ensures TeamNameKey in newErrors ==>
      newErrors[TeamNameKey] == if IsBlank(teamName) then TeamNameRequired else TeamNameTooLong
    ensures MemberCountKey in newErrors <==> memberCount < 1 || memberCount > MaxMembers
    ensures MemberCountKey in newErrors ==> newErrors[MemberCountKey] == MemberCountOutOfRange
    ensures forall i: nat :: MemberNameKey(i) in newErrors <==> i < |memberNames| && !NameOk(memberNames[i])
    ensures forall i: nat :: MemberNameKey(i) in newErrors ==> Some(newErrors[MemberNameKey(i)]) == NameError(memberNames, i)
    ensures DuplicateKey in newErrors <==> HasDuplicateNames(memberNames)
    ensures DuplicateKey in newErrors ==> newErrors[DuplicateKey] == DuplicateNames
    ensures newErrors == map[] <==> IsValidTeam(teamName, memberCount, memberNames)
  {
    newErrors := map[];
    if IsBlank(teamName) {
      newErrors := newErrors[TeamNameKey := TeamNameRequired];
    } else if |teamName| > MaxTeamNameLength {
      newErrors := newErrors[TeamNameKey := TeamNameTooLong];
    }
    if memberCount < 1 || memberCount > MaxMembers {
      newErrors := newErrors[MemberCountKey := MemberCountOutOfRange];
    }
    // The duplicate check runs after the loop in the form; the entries are independent, so it is done first here.
    var duplicate := DuplicateCheck(memberNames);
    if duplicate {
      newErrors := newErrors[DuplicateKey := DuplicateNames];
    }
    assert forall k :: k in newErrors ==> !k.MemberNameKey?;
    var checked := newErrors;
    newErrors := MemberNameErrors(memberNames, checked);
    assert TeamNameKey in newErrors <==> TeamNameKey in checked;
    assert MemberCountKey in newErrors <==> MemberCountKey in checked;
    assert DuplicateKey in newErrors <==> DuplicateKey in checked;
    NoErrorsIffValid(teamName, memberCount, memberNames, newErrors);
  }

  /** `new Set(normalized names).size !== memberNames.length`. */
  method DuplicateCheck(memberNames: seq<string>) returns (duplicate: bool)
    ensures duplicate <==> HasDuplicateNames(memberNames)
  {
    var uniqueNames := Elements(NormalizedNames(memberNames));
    DuplicateIffSetSmaller(memberNames);
    duplicate := |uniqueNames| != |memberNames|;
  }

  /** An error object with exactly the keys of the failed checks is empty exactly when the data is valid. */
  lemma NoErrorsIffValid(teamName: string, memberCount: int, memberNames: seq<string>, errors: map<ErrorKey, Message>)
    requires TeamNameKey in errors <==> IsBlank(teamName) || |teamName| > MaxTeamNameLength
    requires MemberCountKey in errors <==> memberCount < 1 || memberCount > MaxMembers
    requires forall i: nat :: MemberNameKey(i) in errors <==> i < |memberNames| && !NameOk(memberNames[i])
    requires DuplicateKey in errors <==> HasDuplicateNames(memberNames)
    ensures errors == map[] <==> IsValidTeam(teamName, memberCount, memberNames)
  {
    if errors == map[] {
      forall i | 0 <= i < |memberNames| ensures NameOk(memberNames[i]) {
        assert MemberNameKey(i) !in errors;
      }
    }
    if IsValidTeam(teamName, memberCount, memberNames) {
      forall k ensures k !in errors {
        if k.MemberNameKey? && k.index < |memberNames| {
          assert NameOk(memberNames[k.index]);
        }
      }
      assert errors.Keys == {};
    }
  }

  /** `memberNames.map(name => name.trim())`. */
  function TrimAll(names: seq<string>): (r: seq<string>)
    ensures |r| == |names| && forall i :: 0 <= i < |names| ==> r[i] == Trim(names[i])
  {
    seq(|names|, i requires 0 <= i < |names| => Trim(names[i]))
  }

  /** What `handleSave` sends: the trimmed name, the count, the trimmed member names. */
  function Payload(teamName: string, memberCount: int, memberNames: seq<string>): TeamPayload {
    TeamPayload(Trim(teamName), memberCount, TrimAll(memberNames))
  }

  /** `onSave`'s first argument: the team's own id, or -1 to ask for a new team. */
  function SaveTeamId(team: Option<Team>): (id: int)
    ensures team.Some? ==> id == team.value.id
    ensures team.None? ==> id == -1
  {
    match team
    case Some(t) => t.id
    case None => -1
  }

  /**
   * Data that passed validation is saved clean: every name trimmed and
   * non-empty, within its length limit, and still free of duplicates.
   */
  lemma PayloadOfValidTeam(teamName: string, memberCount: int, memberNames: seq<string>)
    requires IsValidTeam(teamName, memberCount, memberNames)
    ensures var p := Payload(teamName, memberCount, memberNames);
      && p.name != "" && IsTrimmed(p.name) && |p.name| <= MaxTeamNameLength
      && 1 <= p.headcount <= MaxMembers
      && |p.memberNames| == |memberNames|
      && (forall i :: 0 <= i < |p.memberNames| ==>
            p.memberNames[i] != "" && IsTrimmed(p.memberNames[i]) && |p.memberNames[i]| <= MaxMemberNameLength)
      && !HasDuplicateNames(p.memberNames)
  {
    var p := Payload(teamName, memberCount, memberNames);
    BlankIffTrimEmpty(teamName);
    forall i | 0 <= i < |memberNames|
      ensures p.memberNames[i] != "" && |p.memberNames[i]| <= MaxMemberNameLength
      ensures NormalizedName(p.memberNames[i]) == NormalizedName(memberNames[i])
    {
      BlankIffTrimEmpty(memberNames[i]);
      TrimIdempotent(memberNames[i]);
    }
  }

  /** The dialog's state. */
  class TeamEditForm {
    var teamName: string
    var memberCount: int
    var memberNames: seq<string>
    var errors: map<ErrorKey, Message>

    constructor()
      ensures teamName == "" && memberCount == 1 && memberNames == [""] && errors == map[]
    {
      teamName := "";
      memberCount := 1;
      memberNames := [""];
      errors := map[];
    }

    /**
     * The effect run when the dialog opens: with a team, its name and
     * headcount are copied and the players' names padded with "" up to the
     * headcount; the list is not cut when there are more players than that.
     */
    method OpenEffect(isOpen: bool, team: Option<Team>)
      modifies this
      ensures errors == old(errors)
      ensures !(isOpen && team.Some?) ==>
        teamName == old(teamName) && memberCount == old(memberCount) && memberNames == old(memberNames)
      ensures isOpen && team.Some? ==>
        var t := team.value;
        && teamName == t.name && memberCount == t.headcount
        && |memberNames| == (if t.headcount > |t.players| then t.headcount else |t.players|)
        && (forall i :: 0 <= i < |t.players| ==> memberNames[i] == t.players[i].name)
        && (forall i :: |t.players| <= i < |memberNames| ==> memberNames[i] == "")
    {
      if isOpen && team.Some? {
        var t := team.value;
        teamName := t.name;
        memberCount := t.headcount;
        var existingNames := seq(|t.players|, i requires 0 <= i < |t.players| => t.players[i].name);
        var names := PadNames(existingNames, t.headcount);
        assert forall i :: 0 <= i < |t.players| ==> names[i] == names[..|existingNames|][i];
        memberNames := names;
      }
    }

    /** The effect run when the member count changes: the names are resized to the count. */
    method MemberCountEffect()
      modifies this
      ensures memberNames == Resized(old(memberNames), memberCount)
      ensures teamName == old(teamName) && memberCount == old(memberCount) && errors == old(errors)
    {
      memberNames := ResizeNames(memberNames, memberCount);
    }

    /** The count selector's `onChange`: the new count, and its error removed. */
    method ChangeMemberCount(newCount: int)
      modifies this
      ensures memberCount == newCount && errors == old(errors) - {MemberCountKey}
      ensures teamName == old(teamName) && memberNames == old(memberNames)
    {
      memberCount := newCount;
      if MemberCountKey in errors {
        errors := errors - {MemberCountKey};
      }
    }

    /** The team-name input's `onChange`: the new name, and its error removed. */
    method ChangeTeamName(value: string)
      modifies this
      ensures teamName == value && errors == old(errors) - {TeamNameKey}
      ensures memberCount == old(memberCount) && memberNames == old(memberNames)
    {
      teamName := value;
      if TeamNameKey in errors {
        errors := errors - {TeamNameKey};
      }
    }

    /** `handleMemberNameChange`: only name `index` changes, and only its error is removed. */
    method HandleMemberNameChange(index: nat, value: string)
      requires index < |memberNames|
      modifies this
      ensures memberNames == old(memberNames)[index := value]
      ensures errors == old(errors) - {MemberNameKey(index)}
      ensures teamName == old(teamName) && memberCount == old(memberCount)
    {
      memberNames := memberNames[index := value];
      if MemberNameKey(index) in errors {
        errors := errors - {MemberNameKey(index)};
      }
    }

    /** `validateForm`: records the error object and says whether it is empty. */
    method ValidateForm() returns (valid: bool)
      modifies this
      ensures teamName == old(teamName) && memberCount == old(memberCount) && memberNames == old(memberNames)
      ensures valid <==> errors == map[]
      ensures valid <==> IsValidTeam(teamName, memberCount, memberNames)
      ensures Records(errors, teamName, memberCount, memberNames)
    {
      var newErrors := ValidateTeam(teamName, memberCount, memberNames);
      errors := newErrors;
      valid := |newErrors| == 0;
    }

    /**
     * `handleSave`: nothing is sent unless the form is valid; then `onSave`
     * gets the team's id (or -1) and the trimmed data.
     */
    method HandleSave(team: Option<Team>) returns (saved: Option<(int, TeamPayload)>)
      modifies this
      ensures teamName == old(teamName) && memberCount == old(memberCount) && memberNames == old(memberNames)
      ensures Records(errors, teamName, memberCount, memberNames)
      ensures errors == map[] <==> IsValidTeam(teamName, memberCount, memberNames)
      ensures saved.Some? <==> IsValidTeam(teamName, memberCount, memberNames)
      ensures saved.Some? ==> saved.value == (SaveTeamId(team), Payload(teamName, memberCount, memberNames))
    {
      var valid := ValidateForm();
      if !valid {
        return None;
      }
      var teamData := TeamPayload(Trim(teamName), memberCount, TrimAll(memberNames));
      if team.Some? {
        saved := Some((team.value.id, teamData));
      } else {
        saved := Some((-1, teamData));
      }
    }

    /** `handleClose`: the errors are cleared. */
    method HandleClose()
      modifies this
      ensures errors == map[]
      ensures teamName == old(teamName) && memberCount == old(memberCount) && memberNames == old(memberNames)
    {
      errors := map[];
    }
  }
}
