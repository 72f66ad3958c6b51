/**
 * The REST handlers for users, scores and reservations. Each handler reads
 * the body, validates the path id and the body with the schemas, makes one
 * database call, and maps whatever was thrown to a status in its catch block.
 * The database is not modelled: a handler is given the outcome of its call
 * and reports the call it made, if any, next to the status it returns.
 */
module Api {
  import opened Wrappers
  import opened Strings
  import opened Schemas

  /** The request body as `c.req.json()` reads it. */
  datatype Body = Malformed | Parsed(json: Json)

  /** What reaches a catch block: a `ZodError`, or an error with or without a `code`. */
  datatype Thrown = Validation | Coded(code: string) | Uncoded

  /** How the database call ended: done, or a Prisma error with its code when it has one. */
  datatype DbResult = DbOk | DbFailed(code: Option<string>)

  /** A stored value: a validated JSON value, or a `Date` made from a date-time string. */
  datatype Value = Plain(json: Json) | Date(ms: int)

  /** The database call a handler makes, with its arguments. */
  datatype DbCall =
    | Create(data: map<string, Value>)
    | Update(id: int, data: map<string, Value>)
    | Delete(id: int)
    | FindUnique(id: int)
    | FindByUser(userId: int)

  /** The status a handler returns and the database call it made on the way, if any. */
  datatype Response = Response(status: int, call: Option<DbCall>)

  /** The error a failed database call throws. */
  function ThrownBy(db: DbResult): Thrown
    requires db.DbFailed?
  {
    if db.code.Some? then Coded(db.code.value) else Uncoded
  }

  /** The create handlers for scores and reservations turn a missing user (`P2003`) into 400. */
  const CreateHandled: map<string, int> := map["P2003" := 400]

  /** The update and delete handlers turn a missing record (`P2025`) into 404. */
  const WriteHandled: map<string, int> := map["P2025" := 404]

  /** The read handlers and the user create handler test no code. */
  const NothingHandled: map<string, int> := map[]

  /**
   * A catch block: a validation error is 400, a code the handler tests gets
   * that handler's status, anything else is 500.
   */
  function CatchStatus(handled: map<string, int>, e: Thrown): (status: int)
    ensures e.Validation? ==> status == 400
    ensures e.Coded? && e.code in handled ==> status == handled[e.code]
    ensures (e.Uncoded? || (e.Coded? && e.code !in handled)) ==> status == 500
  {
    match e
    case Validation => 400
    case Coded(code) => if code in handled then handled[code] else 500
    case Uncoded => 500
  }

  /** The three catch tables, side by side: which errors give 400, which 404, and that all else is 500. */
  lemma CatchTables(e: Thrown)
    ensures CatchStatus(CreateHandled, e) == 400 <==> e.Validation? || e == Coded("P2003")
    ensures CatchStatus(CreateHandled, e) != 404
    ensures CatchStatus(WriteHandled, e) == 404 <==> e == Coded("P2025")
    ensures CatchStatus(WriteHandled, e) == 400 <==> e.Validation?
    ensures CatchStatus(NothingHandled, e) == (if e.Validation? then 400 else 500)
    ensures CatchStatus(CreateHandled, e) in {400, 500} && CatchStatus(WriteHandled, e) in {400, 404, 500}
  {
  }

  /** The response once the database call has been made: `ok` on success, the catch block otherwise. */
  function AfterCall(call: DbCall, db: DbResult, ok: int, handled: map<string, int>): (r: Response)
    ensures r.call == Some(call)
    ensures db.DbOk? ==> r.status == ok
    ensures db.DbFailed? ==> r.status == CatchStatus(handled, ThrownBy(db))
  {
    Response(if db.DbOk? then ok else CatchStatus(handled, ThrownBy(db)), Some(call))
  }

  /** `schema.parse(body)` for the users and scores handlers: the stripped body, every value kept as it is. */
  function PlainData(v: map<string, Json>): (data: map<string, Value>)
    ensures data.Keys == v.Keys
    ensures forall k :: k in data ==> data[k] == Plain(v[k])
  {
    map k | k in v :: Plain(v[k])
  }

  /** The users and scores schemas hold no date-time field, so their parse never asks. */
  function NoDatetime(s: string): bool {
    false
  }

  /**
   * `POST /users` and `POST /scores`: an unreadable body is 500, a body the
   * schema rejects is 400, and otherwise the stripped body is created, 201.
   * Only the score handler tests for a missing user (`P2003`).
   */
  function PostEntity(body: Body, fields: seq<Field>, testsMissingUser: bool, db: DbResult): (r: Response)
    ensures body.Malformed? ==> r == Response(500, None)
    ensures r.call.Some? <==> body.Parsed? && Parse(body.json, fields, NoDatetime).Success?
    ensures r.call.Some? ==> r.call.value == Create(PlainData(Parse(body.json, fields, NoDatetime).value))
    ensures r.call.None? ==> r.status in {400, 500}
    ensures r.status == 201 <==> r.call.Some? && db.DbOk?
    ensures r.call.Some? && db == DbFailed(Some("P2003")) ==> r.status == (if testsMissingUser then 400 else 500)
  {
    var handled := if testsMissingUser then CreateHandled else NothingHandled;
    if body.Malformed? then Response(CatchStatus(handled, Uncoded), None)
    else
      match Parse(body.json, fields, NoDatetime)
      case Failure(_) => Response(CatchStatus(handled, Validation), None)
      case Success(v) => AfterCall(Create(PlainData(v)), db, 201, handled)
  }

  /** The last step of an update or a delete: the call is made; 200 if it succeeds, else the catch block. */
  function WriteCall(call: DbCall, db: DbResult): (r: Response)
    ensures r.call == Some(call)
    ensures r.status == 200 <==> db.DbOk?
    ensures r.status == 404 <==> db == DbFailed(Some("P2025"))
    ensures db.DbFailed? && db != DbFailed(Some("P2025")) ==> r.status == 500
  {
    AfterCall(call, db, 200, WriteHandled)
  }

  /**
   * `PUT /users/:id` and `PUT /scores/:id`: the body is read first (500 if
   * unreadable), then the id and then the body are validated (400), and the
   * stripped body is the update.
   */
  function PutEntity(id: string, body: Body, fields: seq<Field>, db: DbResult): (r: Response)
    ensures body.Malformed? ==> r == Response(500, None)
    ensures body.Parsed? && ParseId(id).Failure? ==> r == Response(400, None)
    ensures body.Parsed? && ParseId(id).Success? && Parse(body.json, fields, NoDatetime).Failure? ==> r == Response(400, None)
    ensures body.Parsed? && ParseId(id).Success? && Parse(body.json, fields, NoDatetime).Success? ==>
      r == WriteCall(Update(ParseId(id).value, PlainData(Parse(body.json, fields, NoDatetime).value)), db)
  {
    if body.Malformed? then Response(CatchStatus(WriteHandled, Uncoded), None)
    else
      match ParseId(id)
      case Failure(_) => Response(CatchStatus(WriteHandled, Validation), None)
      case Success(n) =>
        match Parse(body.json, fields, NoDatetime)
        case Failure(_) => Response(CatchStatus(WriteHandled, Validation), None)
        case Success(v) => WriteCall(Update(n, PlainData(v)), db)
  }

  /** `DELETE /:id` on any of the three tables: 400 for a bad id, 404 for a missing record. */
  function DeleteById(id: string, db: DbResult): (r: Response)
    ensures r.call.Some? <==> ParseId(id).Success?
    ensures r.call.Some? ==> r.call.value == Delete(ParseId(id).value)
    ensures r.call.None? ==> r.status == 400
    ensures r.status == 404 <==> r.call.Some? && db == DbFailed(Some("P2025"))
    ensures r.status == 200 <==> r.call.Some? && db.DbOk?
  {
    match ParseId(id)
    case Failure(_) => Response(CatchStatus(WriteHandled, Validation), None)
    case Success(n) => WriteCall(Delete(n), db)
  }

  /** How a lookup by id ended: a record, no record, or an error. */
  datatype Lookup = Found | NotFound | LookupFailed(code: Option<string>)

  /** `GET /:id` on any of the three tables: 400 for a bad id, 404 when no record has it, 500 on an error. */
  function GetById(id: string, lookup: Lookup): (r: Response)
    ensures r.call.Some? <==> ParseId(id).Success?
    ensures r.call.Some? ==> r.call.value == FindUnique(ParseId(id).value)
    ensures r.status == 200 <==> r.call.Some? && lookup.Found?
    ensures r.status == 404 <==> r.call.Some? && lookup.NotFound?
    ensures r.status == 400 <==> r.call.None?
  {
    match ParseId(id)
    case Failure(_) => Response(CatchStatus(NothingHandled, Validation), None)
    case Success(n) =>
      match lookup
      case Found => Response(200, Some(FindUnique(n)))
      case NotFound => Response(404, Some(FindUnique(n)))
      case LookupFailed(code) =>
        Response(CatchStatus(NothingHandled, if code.Some? then Coded(code.value) else Uncoded), Some(FindUnique(n)))
  }

  /**
   * The data `POST /reservations` creates: the three plain fields as given,
   * and the two times as the instants of their strings.
   */
  function CreateData(v: map<string, Json>, start: int, end: int): (data: map<string, Value>)
    requires "userId" in v && "receiptNumber" in v && "numberOfPeople" in v
    ensures data.Keys == {"userId", "receiptNumber", "numberOfPeople", "startTime", "endTime"}
  {
    map["userId" := Plain(v["userId"]), "receiptNumber" := Plain(v["receiptNumber"]),
        "numberOfPeople" := Plain(v["numberOfPeople"]), "startTime" := Date(start), "endTime" := Date(end)]
  }

  /** The two instants of an accepted create body. */
  function Times(v: map<string, Json>, instant: string -> int): (int, int)
    requires "startTime" in v && v["startTime"].JStr? && "endTime" in v && v["endTime"].JStr?
  {
    (instant(v["startTime"].s), instant(v["endTime"].s))
  }

  /** Whether a create body that the schema accepted also passes the order check. */
  predicate InOrder(v: map<string, Json>, instant: string -> int)
    requires "startTime" in v && v["startTime"].JStr? && "endTime" in v && v["endTime"].JStr?
  {
    Times(v, instant).0 < Times(v, instant).1
  }

  /**
   * `POST /reservations` after validation: a start not before its end is 400
   * and creates nothing; otherwise the reservation is created, 201, and a
   * missing user (`P2003`) is 400.
   */
  function CreateChecked(v: map<string, Json>, instant: string -> int, db: DbResult): (r: Response)
    requires "userId" in v && "receiptNumber" in v && "numberOfPeople" in v
    requires "startTime" in v && v["startTime"].JStr? && "endTime" in v && v["endTime"].JStr?
    ensures !InOrder(v, instant) ==> r == Response(400, None)
    ensures InOrder(v, instant) ==> r.call == Some(Create(CreateData(v, Times(v, instant).0, Times(v, instant).1)))
    ensures r.status == 201 <==> InOrder(v, instant) && db.DbOk?
    ensures InOrder(v, instant) && db == DbFailed(Some("P2003")) ==> r.status == 400
  {
    var (start, end) := Times(v, instant);
    if start >= end then Response(400, None)
    else AfterCall(Create(CreateData(v, start, end)), db, 201, CreateHandled)
  }

  /**
   * `POST /reservations`: an unreadable body is 500, a body the schema
   * rejects is 400, and an accepted body goes on to the order check.
   * `instant` is `new Date(s).getTime()` for the date-time strings the schema accepts.
   */
  function PostReservation(body: Body, isDatetime: string -> bool, instant: string -> int, db: DbResult): (r: Response)
    ensures body.Malformed? ==> r == Response(500, None)
    ensures body.Parsed? && Parse(body.json, CreateReservationSchema, isDatetime).Failure? ==> r == Response(400, None)
    ensures body.Parsed? && Parse(body.json, CreateReservationSchema, isDatetime).Success? ==>
      var v := Parse(body.json, CreateReservationSchema, isDatetime).value;
      "userId" in v && "receiptNumber" in v && "numberOfPeople" in v &&
      "startTime" in v && v["startTime"].JStr? && "endTime" in v && v["endTime"].JStr? &&
      r == CreateChecked(v, instant, db)
  {
    if body.Malformed? then Response(CatchStatus(CreateHandled, Uncoded), None)
    else
      match Parse(body.json, CreateReservationSchema, isDatetime)
      case Failure(_) => Response(CatchStatus(CreateHandled, Validation), None)
      case Success(v) =>
        CreateReservationParsed(body.json, isDatetime);
        CreateChecked(v, instant, db)
  }

  /** A reservation is created, with status 201, only from a valid body whose start comes before its end. */
  lemma CreatedOnlyInOrder(body: Body, isDatetime: string -> bool, instant: string -> int, db: DbResult)
    ensures var r := PostReservation(body, isDatetime, instant, db);
      r.call.Some? ==> body.Parsed? && Parse(body.json, CreateReservationSchema, isDatetime).Success?
    ensures var r := PostReservation(body, isDatetime, instant, db);
      r.status == 201 ==> body.Parsed? && Parse(body.json, CreateReservationSchema, isDatetime).Success? && db.DbOk?
  {
  }

  /** The validated update body holds its times, if any, as strings. */
  predicate TimesAreStrings(validated: map<string, Json>) {
    && ("startTime" in validated ==> validated["startTime"].JStr?)
    && ("endTime" in validated ==> validated["endTime"].JStr?)
  }

  /**
   * `updateData` for `PUT /reservations/:id`: exactly the update fields the
   * validated body holds, the times turned into instants and the rest as given.
   */
  function UpdateData(validated: map<string, Json>, instant: string -> int): (data: map<string, Value>)
    requires TimesAreStrings(validated)
    ensures data.Keys == validated.Keys * UpdateReservationKeys
    ensures forall k :: k in data && k != "startTime" && k != "endTime" ==> data[k] == Plain(validated[k])
    ensures "startTime" in data ==> data["startTime"] == Date(instant(validated["startTime"].s))
    ensures "endTime" in data ==> data["endTime"] == Date(instant(validated["endTime"].s))
  {
    map k | k in validated && k in UpdateReservationKeys ::
      if k == "startTime" || k == "endTime" then Date(instant(validated[k].s)) else Plain(validated[k])
  }

  /** The four `if (validatedData.x !== undefined) updateData.x = ...` statements. */
  method BuildUpdateData(validatedData: map<string, Json>, instant: string -> int) returns (updateData: map<string, Value>)
    requires TimesAreStrings(validatedData)
    ensures updateData == UpdateData(validatedData, instant)
  {
    updateData := map[];
    if "receiptNumber" in validatedData {
      updateData := updateData["receiptNumber" := Plain(validatedData["receiptNumber"])];
    }
    if "numberOfPeople" in validatedData {
      updateData := updateData["numberOfPeople" := Plain(validatedData["numberOfPeople"])];
    }
    if "startTime" in validatedData {
      updateData := updateData["startTime" := Date(instant(validatedData["startTime"].s))];
    }
    if "endTime" in validatedData {
      updateData := updateData["endTime" := Date(instant(validatedData["endTime"].s))];
    }
    assert updateData.Keys == validatedData.Keys * UpdateReservationKeys;
  }

  /** The order check of an update: only when both times are being set, and then start must come first. */
  predicate TimesOutOfOrder(data: map<string, Value>) {
    "startTime" in data && "endTime" in data && data["startTime"].Date? && data["endTime"].Date?
      && data["startTime"].ms >= data["endTime"].ms
  }

  /**
   * `PUT /reservations/:id` after validation: a start not before its end, when
   * both are given, is 400 and updates nothing; otherwise the update is made.
   */
  function UpdateChecked(n: int, v: map<string, Json>, instant: string -> int, db: DbResult): (r: Response)
    requires TimesAreStrings(v)
    ensures TimesOutOfOrder(UpdateData(v, instant)) ==> r == Response(400, None)
    ensures !TimesOutOfOrder(UpdateData(v, instant)) ==> r == WriteCall(Update(n, UpdateData(v, instant)), db)
  {
    var data := UpdateData(v, instant);
    if TimesOutOfOrder(data) then Response(400, None)
    else WriteCall(Update(n, data), db)
  }

  /**
   * `PUT /reservations/:id`: an unreadable body is 500; a bad id, then a
   * rejected body, is 400; an accepted body goes on to the order check.
   */
  function PutReservation(id: string, body: Body, isDatetime: string -> bool, instant: string -> int, db: DbResult): (r: Response)
    ensures body.Malformed? ==> r == Response(500, None)
    ensures body.Parsed? && ParseId(id).Failure? ==> r == Response(400, None)
    ensures body.Parsed? && ParseId(id).Success? && Parse(body.json, UpdateReservationSchema, isDatetime).Failure? ==>
      r == Response(400, None)
    ensures body.Parsed? && ParseId(id).Success? && Parse(body.json, UpdateReservationSchema, isDatetime).Success? ==>
      var v := Parse(body.json, UpdateReservationSchema, isDatetime).value;
      TimesAreStrings(v) && r == UpdateChecked(ParseId(id).value, v, instant, db)
  {
    if body.Malformed? then Response(CatchStatus(WriteHandled, Uncoded), None)
    else
      match ParseId(id)
      case Failure(_) => Response(CatchStatus(WriteHandled, Validation), None)
      case Success(n) =>
        match Parse(body.json, UpdateReservationSchema, isDatetime)
        case Failure(_) => Response(CatchStatus(WriteHandled, Validation), None)
        case Success(v) =>
          UpdateReservationParsed(body.json, isDatetime);
          UpdateChecked(n, v, instant, db)
  }

  /**
   * An update that sets only one of the two times is never refused for its
   * order, however it compares with the stored other time.
   */
  lemma SingleTimeNotChecked(id: string, json: Json, isDatetime: string -> bool, instant: string -> int, db: DbResult)
    requires ParseId(id).Success? && Parse(json, UpdateReservationSchema, isDatetime).Success?
    requires var v := Parse(json, UpdateReservationSchema, isDatetime).value;
      !("startTime" in v && "endTime" in v)
    ensures PutReservation(id, Parsed(json), isDatetime, instant, db).call.Some?
  {
    UpdateReservationParsed(json, isDatetime);
  }

  /** The update writes exactly the fields the validated body holds, and no others. */
  lemma UpdateHoldsExactlyTheBody(json: Json, isDatetime: string -> bool, instant: string -> int)
    requires Parse(json, UpdateReservationSchema, isDatetime).Success?
    ensures var v := Parse(json, UpdateReservationSchema, isDatetime).value;
      TimesAreStrings(v) && UpdateData(v, instant).Keys == v.Keys
  {
    UpdateReservationParsed(json, isDatetime);
  }

  /** An update that sets both times, the start not before the end, is 400 and updates nothing. */
  lemma BothTimesChecked(id: string, json: Json, isDatetime: string -> bool, instant: string -> int, db: DbResult)
    requires ParseId(id).Success? && Parse(json, UpdateReservationSchema, isDatetime).Success?
    requires var v := Parse(json, UpdateReservationSchema, isDatetime).value;
      && "startTime" in v && v["startTime"].JStr? && "endTime" in v && v["endTime"].JStr?
      && instant(v["startTime"].s) >= instant(v["endTime"].s)
    ensures PutReservation(id, Parsed(json), isDatetime, instant, db) == Response(400, None)
  {
    UpdateReservationParsed(json, isDatetime);
  }

  /**
   * `GET /users/reservations` and `GET /users/scores`: a missing or empty
   * `userId` is 400 before any parsing, an id `parseInt` cannot read as a
   * positive integer is 400, and otherwise that user's records are fetched.
   */
  function ByUser(userId: Option<string>, db: DbResult): (r: Response)
    ensures userId.None? || userId == Some("") ==> r == Response(400, None)
    ensures r.call.Some? <==> userId.Some? && userId.value != "" && ParseId(userId.value).Success?
    ensures r.call.Some? ==> r.call.value == FindByUser(ParseId(userId.value).value)
    ensures r.call.None? ==> r.status == 400
    ensures r.status == 200 <==> r.call.Some? && db.DbOk?
  {
    if userId.None? || userId.value == "" then Response(400, None)
    else
      match ParseId(userId.value)
      case Failure(_) => Response(CatchStatus(NothingHandled, Validation), None)
      case Success(n) => AfterCall(FindByUser(n), db, 200, NothingHandled)
  }
}
