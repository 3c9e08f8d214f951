/** The JSON envelopes the API routes answer with, the Prisma error mapping,
    pagination metadata, required-field validation and the error
    classification of the route wrapper. */
module ApiResponse {
  import opened Prelude
  import opened CommonTypes

  const OK := 200
  const BAD_REQUEST := 400
  const FORBIDDEN := 403
  const NOT_FOUND := 404
  const CONFLICT := 409
  const UNPROCESSABLE_ENTITY := 422
  const INTERNAL_SERVER_ERROR := 500

  /** The body of an `ActionResponse`; `None` is a property that is absent
      (`undefined`) in the JSON. */
  datatype Envelope<T> = Envelope(
    success: bool,
    data: Option<T>,
    message: Option<string>,
    isError: Option<bool>,
    isWarning: Option<bool>,
    totalItems: Option<real>)

  /** A JSON response: its body and its HTTP status. */
  datatype Response<T> = Response(body: Envelope<T>, status: int)

  /** The second argument of `getErrorResponse`. */
  datatype ErrorOptions = ErrorOptions(isWarning: Option<bool>, errors: Option<JsValue>, status: Option<int>)

  /** The options object used when none is passed. */
  const DefaultErrorOptions := ErrorOptions(Some(false), Some(Object(map[])), Some(BAD_REQUEST))

  /** The status a response is sent with: `NextResponse.json` answers 200
      when the `status` option is `undefined`. */
  function SentStatus(status: Option<int>): (s: int)
    ensures status.Some? ==> s == status.value
    ensures status.None? ==> s == OK
  {
    if status.Some? then status.value else OK
  }

  /** `{ message: [message] }`. */
  function MessageErrors(message: string): JsValue
  {
    Object(map["message" := Array([Str(message)])])
  }

  function GetSuccessResponse<T>(data: T, message: Option<string>, totalItems: Option<real>): (r: Response<T>)
    ensures r.status == OK && r.body.success
    ensures r.body.data == Some(data) && r.body.message == message && r.body.totalItems == totalItems
    ensures r.body.isError.None? && r.body.isWarning.None?
  {
    Response(Envelope(true, Some(data), message, None, None, totalItems), OK)
  }

  /** `getErrorResponse(message, options)`. The defaults apply only when no
      options object is passed at all; `isError` is `!isWarning`, so an
      absent `isWarning` gives `isError: true`. */
  function GetErrorResponse(message: string, options: Option<ErrorOptions>): (r: Response<JsValue>)
    ensures !r.body.success && r.body.message == Some(message) && r.body.totalItems == Some(0.0)
    ensures options.None? ==>
      r.status == BAD_REQUEST && r.body.isError == Some(true) &&
      r.body.isWarning == Some(false) && r.body.data == Some(Object(map[]))
    ensures options.Some? ==>
      r.status == SentStatus(options.value.status) &&
      r.body.isWarning == options.value.isWarning &&
      r.body.data == options.value.errors &&
      (r.body.isError == Some(true) <==> options.value.isWarning != Some(true))
    ensures r.body.isError.Some?
  {
    var o := if options.Some? then options.value else DefaultErrorOptions;
    var isError := !(o.isWarning == Some(true));
    Response(Envelope(false, o.errors, Some(message), Some(isError), o.isWarning, Some(0.0)), SentStatus(o.status))
  }

  /** `createValidationErrorResponse`: status 422, an error (not a
      warning), the errors as data; the message defaults to
      "Validation failed". */
  function CreateValidationErrorResponse(errors: JsValue, message: Option<string>): (r: Response<JsValue>)
    ensures r.status == UNPROCESSABLE_ENTITY && !r.body.success
    ensures r.body.isError == Some(true) && r.body.isWarning.None?
    ensures r.body.data == Some(errors)
    ensures r.body.message == Some(if message.Some? then message.value else "Validation failed")
  {
    GetErrorResponse(if message.Some? then message.value else "Validation failed",
                     Some(ErrorOptions(None, Some(errors), Some(UNPROCESSABLE_ENTITY))))
  }

  /** The four warning responses: the given status, `isWarning: true`,
      `isError: false` and `{ message: [message] }` as data. */
  function WarningResponse(message: string, status: int): (r: Response<JsValue>)
    ensures r.status == status && !r.body.success
    ensures r.body.isWarning == Some(true) && r.body.isError == Some(false)
    ensures r.body.data == Some(MessageErrors(message)) && r.body.message == Some(message)
  {
    GetErrorResponse(message, Some(ErrorOptions(Some(true), Some(MessageErrors(message)), Some(status))))
  }

  function Or(message: Option<string>, default: string): string
  {
    if message.Some? then message.value else default
  }

  function CreateForbiddenResponse(message: Option<string>): (r: Response<JsValue>)
    ensures r == WarningResponse(Or(message, "Insufficient permissions"), FORBIDDEN)
  {
    WarningResponse(Or(message, "Insufficient permissions"), FORBIDDEN)
  }

  function CreateNotFoundResponse(message: Option<string>): (r: Response<JsValue>)
    ensures r == WarningResponse(Or(message, "Resource not found"), NOT_FOUND)
  {
    WarningResponse(Or(message, "Resource not found"), NOT_FOUND)
  }

  function CreateConflictResponse(message: Option<string>): (r: Response<JsValue>)
    ensures r == WarningResponse(Or(message, "Resource already exists"), CONFLICT)
  {
    WarningResponse(Or(message, "Resource already exists"), CONFLICT)
  }

  function CreateDatabaseErrorResponse(message: Option<string>): (r: Response<JsValue>)
    ensures r == WarningResponse(Or(message, "Database operation failed"), INTERNAL_SERVER_ERROR)
  {
    WarningResponse(Or(message, "Database operation failed"), INTERNAL_SERVER_ERROR)
  }

  /** `error.code === c` for an object that has a `code` property. */
  predicate HasCode(error: JsValue, c: string)
  {
    error.Object? && "code" in error.fields && error.fields["code"] == Str(c)
  }

  /** `handlePrismaError`: P2002 is a conflict (409), P2025 not found (404),
      P2003 and P2014 validation errors (422), anything else a database
      error (500). */
  function HandlePrismaError(error: JsValue): (r: Response<JsValue>)
    ensures HasCode(error, "P2002") ==> r.status == CONFLICT && r.body.message == Some("A record with this data already exists")
    ensures HasCode(error, "P2025") ==> r.status == NOT_FOUND && r.body.message == Some("The requested record was not found")
    ensures HasCode(error, "P2003") ==> r.status == UNPROCESSABLE_ENTITY && r.body.message == Some("Invalid reference")
    ensures HasCode(error, "P2014") ==> r.status == UNPROCESSABLE_ENTITY && r.body.message == Some("Missing required relation")
    ensures !HasCode(error, "P2002") && !HasCode(error, "P2025") && !HasCode(error, "P2003") && !HasCode(error, "P2014") ==>
      r.status == INTERNAL_SERVER_ERROR && r.body.message == Some("An unexpected database error occurred")
    ensures !r.body.success
  {
    if HasCode(error, "P2002") then
      CreateConflictResponse(Some("A record with this data already exists"))
    else if HasCode(error, "P2025") then
      CreateNotFoundResponse(Some("The requested record was not found"))
    else if HasCode(error, "P2003") then
      CreateValidationErrorResponse(Object(map["reference" := Array([Str("Referenced record does not exist")])]), Some("Invalid reference"))
    else if HasCode(error, "P2014") then
      CreateValidationErrorResponse(Object(map["relation" := Array([Str("Required relation is missing")])]), Some("Missing required relation"))
    else
      CreateDatabaseErrorResponse(Some("An unexpected database error occurred"))
  }

  // ---------------------------------------------------------------------
  // Pagination

  /** `Math.ceil` on a real. */
  function Ceil(x: real): (n: int)
    ensures (n - 1) as real < x <= n as real
  {
    -((-x).Floor)
  }

  /** The value of `Math.ceil(total / limit)`: a whole number, or one of the
      non-finite results of dividing by zero. */
  datatype PageCount = Pages(n: int) | PositiveInfinity | NegativeInfinity | NotANumber

  function TotalPages(total: real, limit: real): (p: PageCount)
    ensures limit != 0.0 <==> p.Pages?
    ensures limit == 0.0 ==> (p.NotANumber? <==> total == 0.0)
  {
    if limit != 0.0 then Pages(Ceil(total / limit))
    else if total > 0.0 then PositiveInfinity
    else if total < 0.0 then NegativeInfinity
    else NotANumber
  }

  /** With a positive page size the pages hold all items and the last page
      is not empty. */
  lemma {:induction false} TotalPagesCover(total: real, limit: real)
    requires limit > 0.0 && total >= 0.0
    ensures TotalPages(total, limit).Pages?
    ensures var n := TotalPages(total, limit).n;
      n >= 0 && total <= n as real * limit &&
      (total > 0.0 ==> ((n - 1) as real) * limit < total) &&
      (total == 0.0 ==> n == 0)
  {
    var n := TotalPages(total, limit).n;
    var q := total / limit;
    assert q * limit == total;
    assert (n - 1) as real < q <= n as real;
    assert total <= n as real * limit by {
      assert q * limit <= n as real * limit;
    }
    var m := (n - 1) as real;
    var below := m * limit;
    var whole := q * limit;
    assert whole == total;
    assert below < whole by {
      assert (q - m) * limit > 0.0;
      assert (q - m) * limit == whole - below;
    }
    assert n == TotalPages(total, limit).n;
  }

  datatype Pagination = Pagination(page: real, limit: real, total: real, totalPages: PageCount)
  datatype Paginated<T> = Paginated(items: seq<T>, pagination: Pagination)

  function CreatePaginatedResponse<T>(data: seq<T>, page: real, limit: real, total: real, message: Option<string>): (r: Response<Paginated<T>>)
    ensures r.status == OK && r.body.success
    ensures r.body.data.Some? && r.body.data.value.items == data
    ensures r.body.data.value.pagination == Pagination(page, limit, total, TotalPages(total, limit))
    ensures r.body.message == Some(Or(message, "Data retrieved successfully"))
  {
    GetSuccessResponse(Paginated(data, Pagination(page, limit, total, TotalPages(total, limit))),
                       Some(Or(message, "Data retrieved successfully")), None)
  }

  // ---------------------------------------------------------------------
  // validateRequiredFields

  /** A required field is missing when its value is falsy or a string of
      white space only. */
  predicate IsMissing(body: map<string, JsValue>, field: string)
  {
    var v := if field in body then body[field] else Undefined;
    !Truthy(v) || (v.Str? && IsBlank(v.s))
  }

  function RequiredMessage(field: string): seq<string>
  {
    [field + " is required"]
  }

  /** `validateRequiredFields`: `None` (`null`) when no listed field is
      missing, else exactly the missing listed fields, each mapped to
      "<field> is required". */
  method ValidateRequiredFields(body: map<string, JsValue>, requiredFields: seq<string>)
    returns (r: Option<map<string, seq<string>>>)
    ensures r.None? <==> forall f :: f in requiredFields ==> !IsMissing(body, f)
    ensures r.Some? ==> r.value.Keys == set f | f in requiredFields && IsMissing(body, f)
    ensures r.Some? ==> forall f :: f in r.value ==> r.value[f] == RequiredMessage(f)
  {
    var errors: map<string, seq<string>> := map[];
    var i := 0;
    while i < |requiredFields|
      invariant 0 <= i <= |requiredFields|
      invariant errors.Keys == set f | f in requiredFields[..i] && IsMissing(body, f)
      invariant forall f :: f in errors ==> errors[f] == RequiredMessage(f)
    {
      var field := requiredFields[i];
      if IsMissing(body, field) {
        errors := errors[field := RequiredMessage(field)];
      }
      assert requiredFields[..i + 1] == requiredFields[..i] + [field];
      i := i + 1;
    }
    assert requiredFields[..i] == requiredFields;
    assert forall f :: f in requiredFields && IsMissing(body, f) ==> f in errors.Keys;
    if |errors| > 0 {
      r := Some(errors);
    } else {
      assert errors.Keys == {};
      r := None;
    }
  }

  // ---------------------------------------------------------------------
  // withErrorHandler

  /** A property read `v[key]` on a non-nullish value (`undefined` when the
      value has no such own property). */
  function Prop(v: JsValue, key: string): JsValue
  {
    if v.Object? && key in v.fields then v.fields[key] else Undefined
  }

  /** What the wrapped handler did: returned a value or threw one. */
  datatype Outcome<R> = Returned(value: R) | Threw(error: JsValue)

  /** What the wrapper produces: the handler's own value, an error response,
      or a `TypeError` raised inside the catch block itself (when the thrown
      value is `null`/`undefined`, or its truthy `code` is not a string). */
  datatype Handled<R> = Passed(value: R) | Answered(response: Response<JsValue>) | CatchFailed

  /** The route the catch block takes for a thrown value. */
  datatype ErrorRoute = PrismaRoute | ValidationRoute | GenericRoute | FailsInCatch

  function Classify(error: JsValue): (k: ErrorRoute)
    ensures k == PrismaRoute <==>
      !error.Undefined? && !error.Null? && Prop(error, "code").Str? &&
      Prop(error, "code").s != "" && StartsWith(Prop(error, "code").s, "P")
    ensures k == FailsInCatch <==>
      error.Undefined? || error.Null? || (Truthy(Prop(error, "code")) && !Prop(error, "code").Str?)
    ensures k == ValidationRoute <==>
      k != FailsInCatch && k != PrismaRoute && Prop(error, "name") == Str("ValidationError")
    ensures k == GenericRoute <==>
      k != FailsInCatch && k != PrismaRoute && Prop(error, "name") != Str("ValidationError")
  {
    if error.Undefined? || error.Null? then FailsInCatch
    else
      var code := Prop(error, "code");
      if Truthy(code) && !code.Str? then FailsInCatch
      else if Truthy(code) && StartsWith(code.s, "P") then PrismaRoute
      else if Prop(error, "name") == Str("ValidationError") then ValidationRoute
      else GenericRoute
  }

  function WithErrorHandler<R>(outcome: Outcome<R>): (h: Handled<R>)
    ensures outcome.Returned? ==> h == Passed(outcome.value)
    ensures outcome.Threw? && Classify(outcome.error) == PrismaRoute ==>
      h == Answered(HandlePrismaError(outcome.error))
    ensures outcome.Threw? && Classify(outcome.error) == ValidationRoute ==>
      var errors := Prop(outcome.error, "errors");
      var message := Prop(outcome.error, "message");
      h == Answered(CreateValidationErrorResponse(
        if Truthy(errors) then errors else Object(map[]),
        Some(if Truthy(message) && message.Str? then message.s else "Validation failed")))
    ensures outcome.Threw? && Classify(outcome.error) == GenericRoute ==>
      h.Answered? && h.response.status == BAD_REQUEST &&
      h.response.body.message == Some("An unexpected error occurred")
    ensures outcome.Threw? && Classify(outcome.error) == FailsInCatch ==> h == CatchFailed
    ensures outcome.Threw? ==>
      (h == CatchFailed <==>
        (outcome.error.Undefined? || outcome.error.Null? ||
         (Truthy(Prop(outcome.error, "code")) && !Prop(outcome.error, "code").Str?)))
  {
    match outcome
    case Returned(v) => Passed(v)
    case Threw(e) =>
      match Classify(e)
      case PrismaRoute => Answered(HandlePrismaError(e))
      case ValidationRoute =>
        var errors := Prop(e, "errors");
        var message := Prop(e, "message");
        Answered(CreateValidationErrorResponse(
          if Truthy(errors) then errors else Object(map[]),
          Some(if Truthy(message) && message.Str? then message.s else "Validation failed")))
      case GenericRoute => Answered(GetErrorResponse("An unexpected error occurred", None))
      case FailsInCatch => CatchFailed
  }

  /** A validation error is answered with 422, its own errors as data and
      its own message; without them, `{}` and "Validation failed". */
  lemma ValidationErrorPayload(errors: map<string, JsValue>, message: string)
    ensures var e := Object(map["name" := Str("ValidationError"), "errors" := Object(errors), "message" := Str(message)]);
      var h := WithErrorHandler<int>(Threw(e));
      h.Answered? && h.response.status == UNPROCESSABLE_ENTITY &&
      h.response.body.data == Some(Object(errors)) &&
      h.response.body.message == Some(if message != "" then message else "Validation failed")
    ensures var h := WithErrorHandler<int>(Threw(Object(map["name" := Str("ValidationError")])));
      h.Answered? && h.response.body.data == Some(Object(map[])) &&
      h.response.body.message == Some("Validation failed")
  {
    var e := Object(map["name" := Str("ValidationError"), "errors" := Object(errors), "message" := Str(message)]);
    assert Prop(e, "code") == Undefined && Prop(e, "name") == Str("ValidationError");
    assert Classify(Object(map["name" := Str("ValidationError")])) == ValidationRoute;
  }

  /** A Prisma code takes precedence over the validation name, so a
      validation error carrying a `P…` code is answered as a Prisma error. */
  lemma PrismaCodeWins(name: string, code: string)
    requires code != "" && code[0] == 'P'
    ensures var e := Object(map["code" := Str(code), "name" := Str(name)]);
      WithErrorHandler<int>(Threw(e)) == Answered(HandlePrismaError(e))
  {
    var e := Object(map["code" := Str(code), "name" := Str(name)]);
    assert Prop(e, "code") == Str(code);
  }
}
