/** The date field: the required and range rules, the change handler that
    keeps the previous date when the new one fails, and Next/Submit gated
    by validation. Dates are instants in milliseconds. */
module DateField {
  import opened Prelude
  import opened CommonTypes

  /** `new Date(x)` keeps the integer part of a numeric time value. */
  function Trunc(x: real): (n: int)
    ensures x >= 0.0 ==> n as real <= x < (n + 1) as real
    ensures x < 0.0 ==> (n - 1) as real < x <= n as real
  {
    if x >= 0.0 then x.Floor else -((-x).Floor)
  }

  /** `metadata.min ? new Date(metadata.min) : undefined`: a falsy bound
      (absent, or the number 0) imposes nothing. */
  function DateOf(b: Bound): (d: Option<int>)
    ensures d.None? <==> b.NoBound? || b == NumBound(0.0)
    ensures b.DateBound? ==> d == Some(b.ms)
  {
    match b
    case NoBound => None
    case NumBound(n) => if n == 0.0 then None else Some(Trunc(n))
    case DateBound(ms) => Some(ms)
  }

  /** The messages of `validateDate`; the bounds are carried as instants. */
  datatype DateError =
    | Required                           // "This question is required"
    | NotBetween(min: int, max: int)     // "Date must be between <min> and <max>"
    | OnOrAfter(min: int)                // "Date must be on or after <min>"
    | OnOrBefore(max: int)               // "Date must be on or before <max>"

  /** The date lies within every bound, the bounds themselves included. */
  predicate InDateRange(min: Option<int>, max: Option<int>, t: int)
  {
    (min.Some? ==> min.value <= t) && (max.Some? ==> t <= max.value)
  }

  /** The range rule for a present date: at most one message, and none
      exactly when the date is within the bounds. */
  function RangeErrors(min: Option<int>, max: Option<int>, t: int): (r: seq<DateError>)
    ensures |r| <= 1
    ensures r == [] <==> InDateRange(min, max, t)
    ensures r != [] && min.Some? && max.Some? ==> r == [NotBetween(min.value, max.value)]
    ensures r != [] && min.Some? && max.None? ==> r == [OnOrAfter(min.value)]
    ensures r != [] && min.None? && max.Some? ==> r == [OnOrBefore(max.value)]
  {
    if min.Some? && max.Some? then
      if t < min.value || t > max.value then [NotBetween(min.value, max.value)] else []
    else if min.Some? then
      if t < min.value then [OnOrAfter(min.value)] else []
    else if max.Some? then
      if t > max.value then [OnOrBefore(max.value)] else []
    else []
  }

  /** `validateDate(date)`: the date checked is `date || selectedDate`. A
      required field with neither gets exactly the required message; an
      optional one gets nothing. */
  function DateErrors(q: Question, date: Option<int>, selected: Option<int>): (r: seq<DateError>)
    ensures var t := if date.Some? then date else selected;
      (t.None? && q.required ==> r == [Required]) &&
      (t.None? && !q.required ==> r == []) &&
      (t.Some? ==> r == RangeErrors(DateOf(q.metadata.min), DateOf(q.metadata.max), t.value))
  {
    var t := if date.Some? then date else selected;
    if q.required && t.None? then [Required]
    else if t.None? then []
    else RangeErrors(DateOf(q.metadata.min), DateOf(q.metadata.max), t.value)
  }

  /** The rule evidently meant for a change: the new date alone is
      checked, so clearing a required date is always refused. */
  function ChangeErrors(q: Question, date: Option<int>): (r: seq<DateError>)
    ensures date.None? && q.required ==> r == [Required]
    ensures date.None? && !q.required ==> r == []
    ensures date.Some? ==> r == RangeErrors(DateOf(q.metadata.min), DateOf(q.metadata.max), date.value)
  {
    DateErrors(q, date, None)
  }

  /** As written, clearing a required date is refused only when no date
      was selected before; a selected date within range lets the clearing
      through. */
  lemma ClearingFallsBackToSelection(q: Question, selected: int)
    requires q.required
    requires InDateRange(DateOf(q.metadata.min), DateOf(q.metadata.max), selected)
    ensures DateErrors(q, None, Some(selected)) == []
    ensures ChangeErrors(q, None) == [Required]
  {
  }

  class DateInput {
    const question: Question
    var selectedDate: Option<int>
    var validationError: seq<DateError>
    var shouldShake: bool

    /** The selection starts as the value prop when it is truthy: `value`
        is the instant `new Date(value)` denotes, and `None` stands for a
        falsy prop (absent, `""` or `0`). */
    constructor (question: Question, value: Option<int>)
      ensures this.question == question
      ensures selectedDate == value && validationError == [] && !shouldShake
    {
      this.question := question;
      selectedDate := value;
      validationError := [];
      shouldShake := false;
    }

    /** `validateDate`: shows the errors and reports whether there are
        any. */
    method ValidateDate(date: Option<int>) returns (failed: bool)
      modifies this
      ensures validationError == DateErrors(question, date, old(selectedDate))
      ensures failed <==> validationError != []
      ensures selectedDate == old(selectedDate) && shouldShake == old(shouldShake)
    {
      validationError := [];
      var temp := if date.Some? then date else selectedDate;
      if question.required && temp.None? {
        validationError := [Required];
        return true;
      }
      if temp.None? {
        return false;
      }
      var err := RangeErrors(DateOf(question.metadata.min), DateOf(question.metadata.max), temp.value);
      validationError := err;
      return |err| > 0;
    }

    /** `handleDateChange`: a date that fails leaves the selection as it
        was and reports nothing; otherwise it becomes the selection and is
        reported (`None` is `null`). */
    method DateChange(date: Option<int>) returns (reported: Emit<Option<int>>)
      modifies this
      ensures validationError == DateErrors(question, date, old(selectedDate))
      ensures reported.Called? <==> validationError == []
      ensures reported.NotCalled? ==> selectedDate == old(selectedDate)
      ensures reported.Called? ==> selectedDate == date && reported.arg == date
      ensures shouldShake == old(shouldShake)
    {
      var failed := ValidateDate(date);
      if failed {
        return NotCalled;
      }
      selectedDate := date;
      reported := Called(date);
    }

    /** The change handler with the rule of `ChangeErrors`. */
    method DateChangeCheckingNewDate(date: Option<int>) returns (reported: Emit<Option<int>>)
      modifies this
      ensures validationError == ChangeErrors(question, date)
      ensures reported.Called? <==> validationError == []
      ensures reported.NotCalled? ==> selectedDate == old(selectedDate)
      ensures reported.Called? ==> selectedDate == date && reported.arg == date
      ensures question.required && date.None? ==> reported.NotCalled?
      ensures shouldShake == old(shouldShake)
    {
      var err := ChangeErrors(question, date);
      validationError := err;
      if err != [] {
        return NotCalled;
      }
      selectedDate := date;
      reported := Called(date);
    }

    /** `onNextClick`: Next fires exactly when the current selection
        passes; a failure shakes the field. */
    method NextClick() returns (next: Emit<int>)
      modifies this
      ensures validationError == DateErrors(question, None, selectedDate)
      ensures selectedDate == old(selectedDate)
      ensures next.Called? <==> validationError == []
      ensures next.Called? ==> next.arg == 1
      ensures next.NotCalled? ==> shouldShake
    {
      var failed := ValidateDate(None);
      if failed {
        shouldShake := true;
        return NotCalled;
      }
      next := Called(1);
    }

    /** `onSubmitClick`: the form is submitted exactly when the current
        selection passes. */
    method SubmitClick() returns (submitted: bool)
      modifies this
      ensures validationError == DateErrors(question, None, selectedDate)
      ensures selectedDate == old(selectedDate)
      ensures submitted <==> validationError == []
      ensures !submitted ==> shouldShake
    {
      var failed := ValidateDate(None);
      if failed {
        shouldShake := true;
        return false;
      }
      submitted := true;
    }

    /** The value-sync effect: a truthy value becomes the selection, and
        the validation it runs still sees the selection from before. */
    method ValueChanged(value: Option<int>)
      modifies this
      ensures value.Some? ==> (selectedDate == value &&
        validationError == DateErrors(question, None, old(selectedDate)))
      ensures value.None? ==> selectedDate == old(selectedDate) && validationError == old(validationError)
      ensures shouldShake == old(shouldShake)
    {
      if value.Some? {
        var _ := ValidateDate(None);
        selectedDate := value;
      }
    }
  }
}
