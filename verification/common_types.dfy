/** The shared shapes of the form front end: JavaScript values as they
    travel through answer maps and request bodies, questions with their
    metadata, the country record, and the server-action envelopes with their
    two constructors. */
module CommonTypes {
  import opened Prelude

  /** A JavaScript value as the components and the API routes see it. Dates
      are instants in milliseconds since the epoch. */
  datatype JsValue =
    | Undefined
    | Null
    | Bool(b: bool)
    | Number(n: real)
    | Str(s: string)
    | Date(ms: int)
    | Array(items: seq<JsValue>)
    | Object(fields: map<string, JsValue>)

  /** JavaScript truthiness: `undefined`, `null`, `false`, `0` and `""` are
      falsy; every object (arrays and dates included) is truthy. */
  predicate Truthy(v: JsValue)
  {
    match v
    case Undefined => false
    case Null => false
    case Bool(b) => b
    case Number(n) => n != 0.0
    case Str(s) => s != ""
    case Date(_) => true
    case Array(_) => true
    case Object(_) => true
  }

  /** `typeof x === 'number'`, seen through an optional metadata bound
      (`number | Date | undefined`). */
  datatype Bound = NoBound | NumBound(n: real) | DateBound(ms: int)

  /** The metadata fields of a question that the form components read.
      `toggles` holds the optional boolean switches of the address field
      (`address`, `addressRequired`, …) by property name; a missing key is
      `undefined`. */
  datatype Metadata = Metadata(
    min: Bound,
    max: Bound,
    pattern: Option<string>,
    allowAnyCountry: Option<bool>,
    allowedCountries: Option<seq<string>>,
    starCount: Option<real>,
    toggles: map<string, bool>)

  /** `question.metadata || {}` for a question without metadata. */
  const NoMetadata := Metadata(NoBound, NoBound, None, None, None, None, map[])

  /** `metadata.min` / `metadata.max` when it is a number, else absent
      (`typeof metadata.min === 'number' ? metadata.min : undefined`). */
  function NumberOf(b: Bound): (r: Option<real>)
    ensures r.Some? <==> b.NumBound?
    ensures r.Some? ==> r.value == b.n
  {
    if b.NumBound? then Some(b.n) else None
  }

  /** A bound that is a truthy number (`metadata.min && typeof metadata.min
      === 'number'`): a numeric bound of 0 is ignored. */
  function TruthyNumberOf(b: Bound): (r: Option<real>)
    ensures r.Some? <==> b.NumBound? && b.n != 0.0
    ensures r.Some? ==> r.value == b.n
  {
    if b.NumBound? && b.n != 0.0 then Some(b.n) else None
  }

  /** An answer option; `caption` is the option's `label` (which may be
      missing). */
  datatype QuestionOption = QuestionOption(id: string, value: string, caption: Option<string>)

  /** A question of a form. `qtype` is the QuestionType tag as a string;
      missing `options` are the empty list. */
  datatype Question = Question(
    id: string,
    qtype: string,
    title: string,
    required: bool,
    metadata: Metadata,
    options: seq<QuestionOption>)

  /** One entry of the country table used by the phone and address
      fields. */
  datatype CountryOption = CountryOption(code: string, dialCode: string, name: string)

  /** The result of a server action: `ActionSuccess` (`success: true`) or
      `ActionError` (`success: false`). */
  datatype ActionResult<T> =
    | ActionSuccess(data: T, message: Option<string>)
    | ActionError(error: string, message: Option<string>)
  {
    predicate success() { ActionSuccess? }
  }

  function CreateSuccessResponse<T>(data: T, message: Option<string>): (r: ActionResult<T>)
    ensures r.success()
    ensures r.data == data && r.message == message
  {
    ActionSuccess(data, message)
  }

  function CreateErrorResponse<T>(error: string, message: Option<string>): (r: ActionResult<T>)
    ensures !r.success()
    ensures r.error == error && r.message == message
  {
    ActionError(error, message)
  }
}
