/** The form-response API route: POST creates a response record, PUT
    updates one. The request body is what `request.json()` produced (or
    `None` when it is not JSON); the database is a function from the record
    sent to what the call returns or throws; the clock is the instant
    `now`. */
module ResponseRoute {
  import opened Prelude
  import opened CommonTypes
  import opened ApiResponse

  /** A record as sent to or returned by the database, by column name. */
  type Record = map<string, JsValue>

  /** `x || fallback`. */
  function OrElse(x: JsValue, fallback: JsValue): (r: JsValue)
    ensures Truthy(x) ==> r == x
    ensures !Truthy(x) ==> r == fallback
  {
    if Truthy(x) then x else fallback
  }

  /** The record POST creates from the parsed body `b`. */
  function CreateDto(b: JsValue, now: int): (dto: Record)
    ensures dto.Keys == {"formId", "notified", "userId", "partialSave", "status", "data", "startedAt", "updatedAt"}
    ensures dto["formId"] == Prop(b, "formId")
    ensures dto["notified"] == Bool(false)
    ensures dto["userId"] == (if Truthy(Prop(b, "userId")) then Prop(b, "userId") else Null)
    ensures dto["partialSave"] == (if Truthy(Prop(b, "partialSave")) then Prop(b, "partialSave") else Bool(false))
    ensures dto["status"] == Prop(b, "status") && dto["data"] == Prop(b, "data")
    ensures dto["startedAt"] == dto["updatedAt"] == Date(now)
  {
    map[
      "formId" := Prop(b, "formId"),
      "notified" := Bool(false),
      "userId" := OrElse(Prop(b, "userId"), Null),
      "partialSave" := OrElse(Prop(b, "partialSave"), Bool(false)),
      "status" := Prop(b, "status"),
      "data" := Prop(b, "data"),
      "startedAt" := Date(now),
      "updatedAt" := Date(now)]
  }

  /** The changes PUT sends: never `formId` or `startedAt`, and
      `submittedAt` exactly when the status is "COMPLETED". */
  function UpdateDto(b: JsValue, now: int): (dto: Record)
    ensures "formId" !in dto && "startedAt" !in dto
    ensures "submittedAt" in dto <==> Prop(b, "status") == Str("COMPLETED")
    ensures "submittedAt" in dto ==> dto["submittedAt"] == Date(now)
    ensures dto.Keys - {"submittedAt"} == {"notified", "userId", "partialSave", "status", "data", "updatedAt"}
    ensures dto["notified"] == Bool(false) && dto["updatedAt"] == Date(now)
    ensures dto["userId"] == (if Truthy(Prop(b, "userId")) then Prop(b, "userId") else Null)
    ensures dto["partialSave"] == (if Truthy(Prop(b, "partialSave")) then Prop(b, "partialSave") else Bool(false))
    ensures dto["status"] == Prop(b, "status") && dto["data"] == Prop(b, "data")
  {
    var base := UpdateFields(b, now);
    if Prop(b, "status") == Str("COMPLETED") then base["submittedAt" := Date(now)] else base
  }

  /** The columns every PUT sends. */
  function UpdateFields(b: JsValue, now: int): (base: Record)
    ensures base.Keys == {"notified", "userId", "partialSave", "status", "data", "updatedAt"}
    ensures base["notified"] == Bool(false) && base["updatedAt"] == Date(now)
    ensures base["userId"] == OrElse(Prop(b, "userId"), Null)
    ensures base["partialSave"] == OrElse(Prop(b, "partialSave"), Bool(false))
    ensures base["status"] == Prop(b, "status") && base["data"] == Prop(b, "data")
  {
    map[
      "notified" := Bool(false),
      "userId" := OrElse(Prop(b, "userId"), Null),
      "partialSave" := OrElse(Prop(b, "partialSave"), Bool(false)),
      "status" := Prop(b, "status"),
      "data" := Prop(b, "data"),
      "updatedAt" := Date(now)]
  }

  /** The columns an update actually writes: Prisma skips a column whose
      value is `undefined`. */
  function Written(dto: Record): (w: Record)
    ensures w.Keys == set k | k in dto && !dto[k].Undefined?
    ensures forall k :: k in w ==> w[k] == dto[k] && !w[k].Undefined?
  {
    map k | k in dto && !dto[k].Undefined? :: dto[k]
  }

  /** An update overwrites the columns it gives a value and keeps the
      others, including those it sends as `undefined`. */
  function ApplyUpdate(stored: Record, dto: Record): (r: Record)
    ensures r.Keys == stored.Keys + (set k | k in dto && !dto[k].Undefined?)
    ensures forall k :: k in dto && !dto[k].Undefined? ==> r[k] == dto[k]
    ensures forall k :: k in stored && (k !in dto || dto[k].Undefined?) ==> r[k] == stored[k]
  {
    stored + Written(dto)
  }

  /** PUT keeps the form a response belongs to and when it was started,
      keeps the stored status and data when the body omits them, and an
      update that omits `partialSave` resets it to false. */
  lemma UpdateKeepsOrigin(stored: Record, b: JsValue, now: int)
    ensures var r := ApplyUpdate(stored, UpdateDto(b, now));
      ("formId" in stored ==> "formId" in r && r["formId"] == stored["formId"]) &&
      ("startedAt" in stored ==> "startedAt" in r && r["startedAt"] == stored["startedAt"]) &&
      (Prop(b, "status").Undefined? && "status" in stored ==> r["status"] == stored["status"]) &&
      (Prop(b, "data").Undefined? && "data" in stored ==> r["data"] == stored["data"]) &&
      (Prop(b, "partialSave").Undefined? ==> r["partialSave"] == Bool(false))
  {
  }

  /** What a route handler did: the record it sent to the database (if
      any) and what the wrapped handler produced. */
  datatype RouteResult = RouteResult(sent: Option<Record>, reply: Handled<Response<JsValue>>)

  /** The handler's own outcome once the database has answered: a falsy
      record is "Failed to …", anything else a success with the record. */
  function Saved(stored: Outcome<JsValue>, failure: string, success: string): (o: Outcome<Response<JsValue>>)
    ensures stored.Threw? ==> o == Threw(stored.error)
    ensures stored.Returned? && !Truthy(stored.value) ==> o == Returned(GetErrorResponse(failure, None))
    ensures stored.Returned? && Truthy(stored.value) ==> o == Returned(GetSuccessResponse(stored.value, Some(success), None))
  {
    match stored
    case Threw(e) => Threw(e)
    case Returned(v) =>
      if !Truthy(v) then Returned(GetErrorResponse(failure, None))
      else Returned(GetSuccessResponse(v, Some(success), None))
  }

  /** What `parseRequestBody` throws for a body that is not JSON. */
  const InvalidJsonError: JsValue :=
    Object(map["name" := Str("Error"), "message" := Str("Invalid JSON in request body")])

  /** What reading a property of a `null` body throws. */
  const NullBodyError: JsValue := Object(map["name" := Str("TypeError")])

  /** The answer the error wrapper gives to a thrown value it does not
      recognise. */
  function UnexpectedError(): (r: Handled<Response<JsValue>>)
    ensures r.Answered? && r.response.status == BAD_REQUEST && !r.response.body.success
  {
    Answered(GetErrorResponse("An unexpected error occurred", None))
  }

  function Post(body: Option<JsValue>, now: int, create: Record -> Outcome<JsValue>): (r: RouteResult)
    ensures body.None? ==> r == RouteResult(None, WithErrorHandler<Response<JsValue>>(Threw(InvalidJsonError)))
    ensures body == Some(Null) ==> r == RouteResult(None, WithErrorHandler<Response<JsValue>>(Threw(NullBodyError)))
    ensures body.Some? && body.value != Null ==>
      r.sent == Some(CreateDto(body.value, now)) &&
      r.reply == WithErrorHandler(Saved(create(CreateDto(body.value, now)),
        "Failed to save form response", "Form response saved successfully"))
  {
    if body.None? then RouteResult(None, WithErrorHandler(Threw(InvalidJsonError)))
    else if body.value.Null? then RouteResult(None, WithErrorHandler(Threw(NullBodyError)))
    else
      var dto := CreateDto(body.value, now);
      RouteResult(Some(dto), WithErrorHandler(Saved(create(dto), "Failed to save form response", "Form response saved successfully")))
  }

  function Put(body: Option<JsValue>, now: int, update: (JsValue, Record) -> Outcome<JsValue>): (r: RouteResult)
    ensures body.None? ==> r == RouteResult(None, WithErrorHandler<Response<JsValue>>(Threw(InvalidJsonError)))
    ensures body == Some(Null) ==> r == RouteResult(None, WithErrorHandler<Response<JsValue>>(Threw(NullBodyError)))
    ensures body.Some? && body.value != Null && !Truthy(Prop(body.value, "id")) ==>
      r.sent.None? && r.reply == Passed(GetErrorResponse("Response ID is required for update", None))
    ensures body.Some? && body.value != Null && Truthy(Prop(body.value, "id")) ==>
      r.sent == Some(UpdateDto(body.value, now)) &&
      r.reply == WithErrorHandler(Saved(update(Prop(body.value, "id"), UpdateDto(body.value, now)),
        "Failed to update form response", "Form response updated successfully"))
  {
    if body.None? then RouteResult(None, WithErrorHandler(Threw(InvalidJsonError)))
    else if body.value.Null? then RouteResult(None, WithErrorHandler(Threw(NullBodyError)))
    else
      var b := body.value;
      var id := Prop(b, "id");
      if !Truthy(id) then
        RouteResult(None, WithErrorHandler(Returned(GetErrorResponse("Response ID is required for update", None))))
      else
        var dto := UpdateDto(b, now);
        RouteResult(Some(dto), WithErrorHandler(Saved(update(id, dto), "Failed to update form response", "Form response updated successfully")))
  }

  /** A PUT without an id answers 400 and reaches no database call. */
  lemma PutWithoutIdRejected(b: JsValue, now: int, update: (JsValue, Record) -> Outcome<JsValue>)
    requires b != Null && !Truthy(Prop(b, "id"))
    ensures Put(Some(b), now, update).sent.None?
    ensures var reply := Put(Some(b), now, update).reply;
      reply.Passed? && reply.value.status == BAD_REQUEST && !reply.value.body.success
  {
  }

  /** A body that is not JSON, or is `null`, reaches no database call, and
      both routes answer it with the wrapper's generic 400. */
  lemma MalformedBodyRejected(body: Option<JsValue>, now: int,
                              create: Record -> Outcome<JsValue>, update: (JsValue, Record) -> Outcome<JsValue>)
    requires body.None? || body == Some(Null)
    ensures Post(body, now, create).sent.None? && Put(body, now, update).sent.None?
    ensures Post(body, now, create).reply == UnexpectedError()
    ensures Put(body, now, update).reply == UnexpectedError()
  {
    assert Classify(InvalidJsonError) == GenericRoute;
    assert Classify(NullBodyError) == GenericRoute;
  }
}
