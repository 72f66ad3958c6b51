/**
 * The member-name list both team forms keep beside a member count: padding it
 * with empty names and resizing it to a new count. Both forms copy the list,
 * push "" while it is too short, and `splice` it when it is too long.
 */
module MemberNames {

  /** `n` empty names. */
  function Blanks(n: nat): (r: seq<string>)
    ensures |r| == n && forall i :: 0 <= i < n ==> r[i] == ""
  {
    seq(n, _ => "")
  }

  /**
   * Where `arr.splice(start)` cuts an array of length `len`: a negative start
   * counts from the end, and the result is clamped to `0..len`.
   */
  function SpliceStart(len: nat, start: int): (k: nat)
    ensures k <= len
  {
    if start < 0 then (if len + start < 0 then 0 else len + start)
    else if start > len then len
    else start
  }

  /** `names` followed by "" up to `count` entries; never shorter than `names`. */
  function Padded(names: seq<string>, count: int): (r: seq<string>)
    ensures |r| == if count > |names| then count else |names|
    ensures r[..|names|] == names
    ensures forall i :: |names| <= i < |r| ==> r[i] == ""
  {
    if count > |names| then names + Blanks(count - |names|) else names
  }

  /**
   * The list after the count changes to `count`: padded with "" when it grows,
   * cut to `count` entries when it shrinks. A negative count cuts that many
   * entries off the end, as `splice` does.
   */
  function Resized(names: seq<string>, count: int): (r: seq<string>)
    ensures count >= 0 ==> |r| == count
    ensures count < 0 ==> |r| == SpliceStart(|names|, count) && r == names[..|r|]
    ensures forall i :: 0 <= i < |r| && i < |names| ==> r[i] == names[i]
    ensures forall i :: |names| <= i < |r| ==> r[i] == ""
  {
    if count > |names| then Padded(names, count)
    else if count < |names| then names[..SpliceStart(|names|, count)]
    else names
  }

  /** Any list of length `count` that keeps the old names and fills the rest with "" is the resized list. */
  lemma ResizedUnique(names: seq<string>, count: nat, r: seq<string>)
    requires |r| == count
    requires forall i :: 0 <= i < |r| && i < |names| ==> r[i] == names[i]
    requires forall i :: |names| <= i < |r| ==> r[i] == ""
    ensures r == Resized(names, count)
  {
    var s := Resized(names, count);
    assert |s| == |r|;
    forall i | 0 <= i < |r| ensures r[i] == s[i] {
    }
  }

  /** Shrinking in two steps is shrinking once: the names kept are the same prefix. */
  lemma ResizedShrinkTwice(names: seq<string>, m: nat, n: nat)
    requires n <= m
    ensures Resized(Resized(names, m), n) == Resized(names, n)
  {
    var once := Resized(names, m);
    var twice := Resized(once, n);
    ResizedUnique(names, n, twice);
  }

  /** Growing the list and shrinking it back returns the original names. */
  lemma ResizedGrowThenShrink(names: seq<string>, m: nat)
    requires |names| <= m
    ensures Resized(Resized(names, m), |names|) == names
  {
    ResizedUnique(names, |names|, names);
    ResizedShrinkTwice(names, m, |names|);
  }

  /** The `while (names.length < count) names.push("")` loop. */
  method PadNames(existing: seq<string>, count: int) returns (names: seq<string>)
    ensures names == Padded(existing, count)
  {
    names := existing;
    while |names| < count
      invariant |existing| <= |names|
      invariant names == existing + Blanks(|names| - |existing|)
      invariant |names| > |existing| ==> |names| <= count
      decreases count - |names|
    {
      names := names + [""];
    }
  }

  /** The resize both forms run on a copy of the list: push "" while too short, `splice(count)` when too long. */
  method ResizeNames(memberNames: seq<string>, count: int) returns (newMemberNames: seq<string>)
    ensures newMemberNames == Resized(memberNames, count)
  {
    newMemberNames := memberNames;
    if count > |newMemberNames| {
      newMemberNames := PadNames(newMemberNames, count);
    } else if count < |newMemberNames| {
      newMemberNames := newMemberNames[..SpliceStart(|newMemberNames|, count)];
    }
  }
}
