/**
 * The request schemas of the REST API. Each schema is a list of object
 * fields; parsing a JSON body against it either yields the body stripped to
 * the schema's keys or fails with one issue per failed check. The id schema
 * reads a path parameter with `parseInt` and demands a positive integer.
 */
module Schemas {
  import opened Wrappers
  import opened Strings

  /** A parsed JSON value; numbers are exact reals, as a JSON document writes them. */
  datatype Json =
    | JNull
    | JBool(b: bool)
    | JNum(n: real)
    | JStr(s: string)
    | JArr(items: seq<Json>)
    | JObj(fields: map<string, Json>)

  /** `Number.isInteger`. */
  predicate IsInteger(r: real) {
    r.Floor as real == r
  }

  /** The checks chained after `z.number()`: `.int()`, `.positive()` and `.min(bound)`. */
  datatype NumberCheck = Int | Positive | Min(bound: int)

  /** The checks chained after `z.string()`: `.min(length)` and `.datetime()`. */
  datatype StringCheck = MinLength(length: nat) | Datetime

  /** The type of one field, with its checks in the order they are chained. */
  datatype Kind = Number(numberChecks: seq<NumberCheck>) | Text(stringChecks: seq<StringCheck>)

  /** One key of a `z.object` shape; `optional` is `.optional()`. */
  datatype Field = Field(name: string, kind: Kind, optional: bool)

  /** What an issue reports, by its kind. */
  datatype Problem = Required | InvalidType | NotInteger | TooSmall | InvalidDatetime

  /** A Zod issue: the key it concerns ("" for the body itself) and what is wrong. */
  datatype Issue = Issue(path: string, problem: Problem)

  /** Whether `r` passes one number check. */
  predicate NumberHolds(c: NumberCheck, r: real) {
    match c
    case Int => IsInteger(r)
    case Positive => r > 0.0
    case Min(bound) => r >= bound as real
  }

  /** Whether `s` passes one string check; ISO-8601 recognition is the parameter `isDatetime`. */
  predicate StringHolds(c: StringCheck, s: string, isDatetime: string -> bool) {
    match c
    case MinLength(length) => |s| >= length
    case Datetime => isDatetime(s)
  }

  function NumberProblem(c: NumberCheck): Problem {
    match c
    case Int => NotInteger
    case Positive => TooSmall
    case Min(_) => TooSmall
  }

  function StringProblem(c: StringCheck): Problem {
    match c
    case MinLength(_) => TooSmall
    case Datetime => InvalidDatetime
  }

  /** Every check of the chain runs, and each one that fails adds its problem. */
  function NumberProblems(checks: seq<NumberCheck>, r: real): (ps: seq<Problem>)
    ensures ps == [] <==> forall i :: 0 <= i < |checks| ==> NumberHolds(checks[i], r)
    ensures |ps| <= |checks|
  {
    if checks == [] then []
    else
      (if NumberHolds(checks[0], r) then [] else [NumberProblem(checks[0])])
        + NumberProblems(checks[1..], r)
  }

  /** Every check of the chain runs, and each one that fails adds its problem. */
  function StringProblems(checks: seq<StringCheck>, s: string, isDatetime: string -> bool): (ps: seq<Problem>)
    ensures ps == [] <==> forall i :: 0 <= i < |checks| ==> StringHolds(checks[i], s, isDatetime)
    ensures |ps| <= |checks|
  {
    if checks == [] then []
    else
      (if StringHolds(checks[0], s, isDatetime) then [] else [StringProblem(checks[0])])
        + StringProblems(checks[1..], s, isDatetime)
  }

  /** The value meets the field's type and every one of its checks. */
  predicate Satisfies(v: Json, kind: Kind, isDatetime: string -> bool) {
    match kind
    case Number(checks) => v.JNum? && forall i :: 0 <= i < |checks| ==> NumberHolds(checks[i], v.n)
    case Text(checks) => v.JStr? && forall i :: 0 <= i < |checks| ==> StringHolds(checks[i], v.s, isDatetime)
  }

  /** A value of the wrong type stops at one type issue; otherwise every failed check is reported. */
  function ValueProblems(v: Json, kind: Kind, isDatetime: string -> bool): (ps: seq<Problem>)
    ensures ps == [] <==> Satisfies(v, kind, isDatetime)
  {
    match kind
    case Number(checks) => if v.JNum? then NumberProblems(checks, v.n) else [InvalidType]
    case Text(checks) => if v.JStr? then StringProblems(checks, v.s, isDatetime) else [InvalidType]
  }

  /** The field is acceptable: present and satisfying its kind, or absent and optional. */
  predicate FieldOk(o: map<string, Json>, f: Field, isDatetime: string -> bool) {
    if f.name in o then Satisfies(o[f.name], f.kind, isDatetime) else f.optional
  }

  /** The issues one field contributes, each under the field's name. */
  function FieldIssues(o: map<string, Json>, f: Field, isDatetime: string -> bool): (issues: seq<Issue>)
    ensures issues == [] <==> FieldOk(o, f, isDatetime)
    ensures forall i :: 0 <= i < |issues| ==> issues[i].path == f.name
  {
    if f.name !in o then (if f.optional then [] else [Issue(f.name, Required)])
    else
      var ps := ValueProblems(o[f.name], f.kind, isDatetime);
      seq(|ps|, i requires 0 <= i < |ps| => Issue(f.name, ps[i]))
  }

  /** The issues of all fields, in the order of the shape. */
  function ObjectIssues(o: map<string, Json>, fields: seq<Field>, isDatetime: string -> bool): (issues: seq<Issue>)
    ensures issues == [] <==> forall i :: 0 <= i < |fields| ==> FieldOk(o, fields[i], isDatetime)
  {
    if fields == [] then []
    else FieldIssues(o, fields[0], isDatetime) + ObjectIssues(o, fields[1..], isDatetime)
  }

  /** The names a shape declares. */
  function Names(fields: seq<Field>): set<string> {
    set i | 0 <= i < |fields| :: fields[i].name
  }

  /**
   * `schema.safeParse(body)`: a body that is not an object fails with one type
   * issue; an object fails with all its fields' issues, or succeeds with the
   * object stripped to the declared keys.
   */
  function Parse(body: Json, fields: seq<Field>, isDatetime: string -> bool): (r: Result<map<string, Json>, seq<Issue>>)
    ensures r.Success? <==> body.JObj? && forall i :: 0 <= i < |fields| ==> FieldOk(body.fields, fields[i], isDatetime)
    ensures r.Success? ==> r.value.Keys == body.fields.Keys * Names(fields)
    ensures r.Success? ==> forall k :: k in r.value ==> r.value[k] == body.fields[k]
    ensures r.Failure? ==> r.error != []
  {
    if !body.JObj? then Failure([Issue("", InvalidType)])
    else
      var issues := ObjectIssues(body.fields, fields, isDatetime);
      if issues != [] then Failure(issues)
      else
        var names := Names(fields);
        Success(map k | k in body.fields && k in names :: body.fields[k])
  }

  /** `.optional()` applied to every field of a shape. */
  function AllOptional(fields: seq<Field>): (r: seq<Field>)
    ensures |r| == |fields|
    ensures forall i :: 0 <= i < |r| ==> r[i] == fields[i].(optional := true)
  {
    seq(|fields|, i requires 0 <= i < |fields| => fields[i].(optional := true))
  }

  /** An optional field accepts exactly: its absence, or a value the required field accepts. */
  lemma OptionalFieldOk(o: map<string, Json>, f: Field, isDatetime: string -> bool)
    ensures FieldOk(o, f.(optional := true), isDatetime) <==> (f.name in o ==> FieldOk(o, f, isDatetime))
  {
  }

  /**
   * A shape made all optional accepts an object exactly when every field it
   * holds would pass the required shape; in particular it accepts `{}`.
   */
  lemma AllOptionalParse(o: map<string, Json>, fields: seq<Field>, isDatetime: string -> bool)
    ensures Parse(JObj(o), AllOptional(fields), isDatetime).Success?
      <==> forall i :: 0 <= i < |fields| && fields[i].name in o ==> FieldOk(o, fields[i], isDatetime)
    ensures Parse(JObj(map[]), AllOptional(fields), isDatetime).Success?
  {
    var opt := AllOptional(fields);
    forall i | 0 <= i < |fields|
      ensures FieldOk(o, opt[i], isDatetime) <==> (fields[i].name in o ==> FieldOk(o, fields[i], isDatetime))
    {
      OptionalFieldOk(o, fields[i], isDatetime);
    }
  }

  /** `z.number().int().positive()`. */
  const PositiveInt := Number([Int, Positive])

  /** `z.number().int()`. */
  const Integer := Number([Int])

  /** `z.number().int().positive().min(1)`, the head count. */
  const HeadCount := Number([Int, Positive, Min(1)])

  /** `z.string().min(1)`. */
  const NonEmptyString := Text([MinLength(1)])

  /** `z.string().datetime()`. */
  const DatetimeString := Text([Datetime])

  const CreateUserSchema := [Field("name", NonEmptyString, false)]

  const UpdateUserSchema := [Field("name", NonEmptyString, true)]

  const CreateScoreSchema := [Field("userId", PositiveInt, false), Field("score", Integer, false)]

  const UpdateScoreSchema := [Field("score", Integer, true)]

  const CreateReservationSchema := [
    Field("userId", PositiveInt, false),
    Field("receiptNumber", NonEmptyString, false),
    Field("numberOfPeople", HeadCount, false),
    Field("startTime", DatetimeString, false),
    Field("endTime", DatetimeString, false)]

  const UpdateReservationSchema := [
    Field("receiptNumber", NonEmptyString, true),
    Field("numberOfPeople", HeadCount, true),
    Field("startTime", DatetimeString, true),
    Field("endTime", DatetimeString, true)]

  /** A JSON number that is a positive integer. */
  predicate IsPositiveInt(v: Json) {
    v.JNum? && IsInteger(v.n) && v.n > 0.0
  }

  /** What each field type of the schemas accepts, check by check. */
  lemma KindsMean(v: Json, isDatetime: string -> bool)
    ensures Satisfies(v, PositiveInt, isDatetime) <==> IsPositiveInt(v)
    ensures Satisfies(v, Integer, isDatetime) <==> v.JNum? && IsInteger(v.n)
    ensures Satisfies(v, HeadCount, isDatetime) <==> v.JNum? && IsInteger(v.n) && v.n >= 1.0
    ensures Satisfies(v, NonEmptyString, isDatetime) <==> v.JStr? && |v.s| >= 1
    ensures Satisfies(v, DatetimeString, isDatetime) <==> v.JStr? && isDatetime(v.s)
  {
    assert PositiveInt.numberChecks[0] == Int && PositiveInt.numberChecks[1] == Positive;
    assert Integer.numberChecks[0] == Int;
    assert HeadCount.numberChecks[0] == Int && HeadCount.numberChecks[1] == Positive;
    assert HeadCount.numberChecks[2] == Min(1);
    assert NonEmptyString.stringChecks[0] == MinLength(1);
    assert DatetimeString.stringChecks[0] == Datetime;
  }

  /**
   * The update schemas are the create schemas made optional, minus the
   * owning user's id, which an update cannot change.
   */
  lemma UpdateSchemasAreOptionalCreate()
    ensures UpdateUserSchema == AllOptional(CreateUserSchema)
    ensures UpdateScoreSchema == AllOptional(CreateScoreSchema[1..])
    ensures UpdateReservationSchema == AllOptional(CreateReservationSchema[1..])
  {
  }

  /** A user is created only with a name of at least one character. */
  lemma CreateUserAccepts(o: map<string, Json>, isDatetime: string -> bool)
    ensures Parse(JObj(o), CreateUserSchema, isDatetime).Success?
      <==> "name" in o && o["name"].JStr? && |o["name"].s| >= 1
  {
    var fs := CreateUserSchema;
    assert (forall i :: 0 <= i < |fs| ==> FieldOk(o, fs[i], isDatetime)) <==> FieldOk(o, fs[0], isDatetime);
    if "name" in o {
      KindsMean(o["name"], isDatetime);
    }
  }

  /** A score needs a positive-integer user id and any integer score, negative ones included. */
  lemma CreateScoreAccepts(o: map<string, Json>, isDatetime: string -> bool)
    ensures Parse(JObj(o), CreateScoreSchema, isDatetime).Success?
      <==> "userId" in o && IsPositiveInt(o["userId"]) && "score" in o && o["score"].JNum? && IsInteger(o["score"].n)
  {
    var fs := CreateScoreSchema;
    assert (forall i :: 0 <= i < |fs| ==> FieldOk(o, fs[i], isDatetime))
      <==> FieldOk(o, fs[0], isDatetime) && FieldOk(o, fs[1], isDatetime);
    if "userId" in o {
      KindsMean(o["userId"], isDatetime);
    }
    if "score" in o {
      KindsMean(o["score"], isDatetime);
    }
  }

  /**
   * A reservation needs a positive-integer user id, a non-empty receipt
   * number, an integer head count of at least 1, and two date-time strings.
   */
  lemma CreateReservationAccepts(o: map<string, Json>, isDatetime: string -> bool)
    ensures Parse(JObj(o), CreateReservationSchema, isDatetime).Success? <==>
      && "userId" in o && IsPositiveInt(o["userId"])
      && "receiptNumber" in o && o["receiptNumber"].JStr? && |o["receiptNumber"].s| >= 1
      && "numberOfPeople" in o && o["numberOfPeople"].JNum? && IsInteger(o["numberOfPeople"].n) && o["numberOfPeople"].n >= 1.0
      && "startTime" in o && o["startTime"].JStr? && isDatetime(o["startTime"].s)
      && "endTime" in o && o["endTime"].JStr? && isDatetime(o["endTime"].s)
  {
    var fs := CreateReservationSchema;
    assert (forall i :: 0 <= i < |fs| ==> FieldOk(o, fs[i], isDatetime))
      <==> && FieldOk(o, fs[0], isDatetime) && FieldOk(o, fs[1], isDatetime) && FieldOk(o, fs[2], isDatetime)
           && FieldOk(o, fs[3], isDatetime) && FieldOk(o, fs[4], isDatetime);
    if "userId" in o {
      KindsMean(o["userId"], isDatetime);
    }
    if "receiptNumber" in o {
      KindsMean(o["receiptNumber"], isDatetime);
    }
    if "numberOfPeople" in o {
      KindsMean(o["numberOfPeople"], isDatetime);
    }
    if "startTime" in o {
      KindsMean(o["startTime"], isDatetime);
    }
    if "endTime" in o {
      KindsMean(o["endTime"], isDatetime);
    }
  }

  /** The keys of `UpdateReservationSchema`. */
  const UpdateReservationKeys: set<string> := {"receiptNumber", "numberOfPeople", "startTime", "endTime"}

  /** A body the create schema accepts holds all five keys, and its two times are strings. */
  lemma CreateReservationParsed(body: Json, isDatetime: string -> bool)
    requires Parse(body, CreateReservationSchema, isDatetime).Success?
    ensures var v := Parse(body, CreateReservationSchema, isDatetime).value;
      && "userId" in v && "receiptNumber" in v && "numberOfPeople" in v
      && "startTime" in v && v["startTime"].JStr? && "endTime" in v && v["endTime"].JStr?
  {
    var fs := CreateReservationSchema;
    CreateReservationAccepts(body.fields, isDatetime);
    assert fs[0].name in Names(fs) && fs[1].name in Names(fs) && fs[2].name in Names(fs);
    assert fs[3].name in Names(fs) && fs[4].name in Names(fs);
  }

  /**
   * A body the update schema accepts is stripped to the schema's four keys,
   * and whichever of the two times it holds are strings.
   */
  lemma UpdateReservationParsed(body: Json, isDatetime: string -> bool)
    requires Parse(body, UpdateReservationSchema, isDatetime).Success?
    ensures var v := Parse(body, UpdateReservationSchema, isDatetime).value;
      && v.Keys <= UpdateReservationKeys
      && ("startTime" in v ==> v["startTime"].JStr?)
      && ("endTime" in v ==> v["endTime"].JStr?)
  {
    var fs := UpdateReservationSchema;
    var o := body.fields;
    assert Names(fs) == {fs[0].name, fs[1].name, fs[2].name, fs[3].name};
    assert FieldOk(o, fs[2], isDatetime) && FieldOk(o, fs[3], isDatetime);
    if "startTime" in o {
      KindsMean(o["startTime"], isDatetime);
    }
    if "endTime" in o {
      KindsMean(o["endTime"], isDatetime);
    }
  }

  /**
   * The update schema accepts exactly the objects whose present fields meet
   * the create schema's constraints; the empty object is accepted.
   */
  lemma UpdateReservationAccepts(o: map<string, Json>, isDatetime: string -> bool)
    ensures Parse(JObj(o), UpdateReservationSchema, isDatetime).Success?
      <==> forall i :: 1 <= i < |CreateReservationSchema| && CreateReservationSchema[i].name in o
             ==> FieldOk(o, CreateReservationSchema[i], isDatetime)
    ensures Parse(JObj(map[]), UpdateReservationSchema, isDatetime).Success?
  {
    var create := CreateReservationSchema;
    UpdateSchemasAreOptionalCreate();
    AllOptionalParse(o, create[1..], isDatetime);
    assert forall i :: 1 <= i < |create| ==> create[i] == create[1..][i - 1];
  }

  /** Scores may be negative: the schema only asks for an integer. */
  lemma NegativeScoreAccepted(isDatetime: string -> bool)
    ensures Parse(JObj(map["userId" := JNum(1.0), "score" := JNum(-5.0)]), CreateScoreSchema, isDatetime).Success?
  {
    CreateScoreAccepts(map["userId" := JNum(1.0), "score" := JNum(-5.0)], isDatetime);
  }

  /** The user and score update schemas accept the empty object. */
  lemma UpdatesAcceptEmpty(isDatetime: string -> bool)
    ensures Parse(JObj(map[]), UpdateUserSchema, isDatetime).Success?
    ensures Parse(JObj(map[]), UpdateScoreSchema, isDatetime).Success?
  {
    UpdateSchemasAreOptionalCreate();
    AllOptionalParse(map[], CreateUserSchema, isDatetime);
    AllOptionalParse(map[], CreateScoreSchema[1..], isDatetime);
  }

  /**
   * `IdParamSchema`: `parseInt(s, 10)`, then `z.number().int().positive()`.
   * NaN fails the type check and a number of at most 0 fails `positive`.
   */
  function ParseId(s: string): (r: Result<int, Problem>)
    ensures r.Success? <==> ParseInt(s).Some? && ParseInt(s).value > 0
    ensures r.Success? ==> Some(r.value) == ParseInt(s)
    ensures ParseInt(s).None? ==> r == Failure(InvalidType)
  {
    match ParseInt(s)
    case None => Failure(InvalidType)
    case Some(n) => if n > 0 then Success(n) else Failure(TooSmall)
  }

  /** Every id the API writes into a path reads back as itself. */
  lemma ParseIdDecimalString(n: nat)
    requires n > 0
    ensures ParseId(DecimalString(n)) == Success(n)
  {
    ParseIntDecimalString(n);
  }

  /** `parseInt` stops at the first non-digit, so digits followed by anything else still give their number. */
  lemma ParseIntStopsAtNonDigit(digits: string, rest: string)
    requires digits != [] && AllDigits(digits)
    requires rest == [] || !IsDigit(rest[0])
    ensures ParseInt(digits + rest) == Some(DigitsValue(digits))
  {
    var s := digits + rest;
    assert s[0] == digits[0];
    assert !IsSpace(s[0]) && s[0] != '-' && s[0] != '+';
    assert LeadingSpace(s) == 0;
    DigitPrefixJoin(digits, rest);
  }

  lemma {:induction false} DigitPrefixJoin(digits: string, rest: string)
    requires AllDigits(digits)
    requires rest == [] || !IsDigit(rest[0])
    ensures DigitPrefix(digits + rest) == digits
  {
    if digits != [] {
      assert (digits + rest)[1..] == digits[1..] + rest;
      DigitPrefixJoin(digits[1..], rest);
    }
  }

  /** "12abc" is accepted as id 12. */
  lemma TrailingGarbageAccepted()
    ensures ParseId("12abc") == Success(12)
  {
    assert "12abc" == "12" + "abc";
    assert DigitsValue("12") == 12 by {
      assert "12"[..1] == "1";
    }
    ParseIntStopsAtNonDigit("12", "abc");
  }

  /** "0" and "-3" parse as numbers but are not positive, so they are rejected. */
  lemma ZeroAndNegativeRejected()
    ensures ParseId("0") == Failure(TooSmall)
    ensures ParseId("-3") == Failure(TooSmall)
  {
    ParseIntIntString(0);
    ParseIntIntString(-3);
    assert IntString(0) == "0";
    assert IntString(-3) == "-3";
  }
}
