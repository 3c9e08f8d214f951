/** The short-text field: the required, length and pattern rules, their
    evaluation on Next/Submit and on every edit, and Enter as Next. The
    question's own regular expression is an input (`matches`). */
module TextShortField {
  import opened Prelude
  import opened CommonTypes

  /** The messages the field shows; the bounds are carried as numbers. */
  datatype TextError =
    | Required            // "This question is required"
    | TooShort(min: real) // "Minimum <min> characters required"
    | TooLong(max: real)  // "Maximum <max> characters allowed"
    | BadFormat           // "Please enter a valid format"

  /** The position of a rule in the order it is checked. */
  function Rank(e: TextError): nat
  {
    match e
    case Required => 0
    case TooShort(_) => 1
    case TooLong(_) => 2
    case BadFormat => 3
  }

  /** The rules checked for a non-empty text, in order: minimum length,
      maximum length, pattern. Length bounds count only when they are
      truthy numbers; the pattern only when it is a non-empty string. */
  function RuleErrors(m: Metadata, text: string, matches: string -> bool): (r: seq<TextError>)
    ensures forall i, j :: 0 <= i < j < |r| ==> Rank(r[i]) < Rank(r[j])
    ensures Required !in r
    ensures (exists e :: e in r && e.TooShort?) <==>
      TruthyNumberOf(m.min).Some? && (|text| as real) < TruthyNumberOf(m.min).value
    ensures (exists e :: e in r && e.TooLong?) <==>
      TruthyNumberOf(m.max).Some? && (|text| as real) > TruthyNumberOf(m.max).value
    ensures BadFormat in r <==> m.pattern.Some? && m.pattern.value != "" && !matches(text)
  {
    var min := TruthyNumberOf(m.min);
    var max := TruthyNumberOf(m.max);
    var short := if min.Some? && (|text| as real) < min.value then [TooShort(min.value)] else [];
    var long := if max.Some? && (|text| as real) > max.value then [TooLong(max.value)] else [];
    var format := if m.pattern.Some? && m.pattern.value != "" && !matches(text) then [BadFormat] else [];
    assert short == [] || short[0] == TooShort(min.value);
    assert long == [] || long[0] == TooLong(max.value);
    short + long + format
  }

  /** `validateField` for the current value: a required, empty field has
      exactly the required error and no other rule is run; otherwise a
      non-empty value gets the rule errors and an empty one none. */
  function FieldErrors(q: Question, value: string, matches: string -> bool): (r: seq<TextError>)
    ensures q.required && value == "" ==> r == [Required]
    ensures !q.required && value == "" ==> r == []
    ensures value != "" ==> r == RuleErrors(q.metadata, value, matches)
  {
    if q.required && value == "" then [Required]
    else if value != "" then RuleErrors(q.metadata, value, matches)
    else []
  }

  /** The errors an edit leaves: the rules for a non-empty text, none for
      an empty one (the required rule is not run on edits). */
  function ChangeErrors(m: Metadata, text: string, matches: string -> bool): (r: seq<TextError>)
    ensures text == "" ==> r == []
    ensures Required !in r
  {
    if text != "" then RuleErrors(m, text, matches) else []
  }

  /** With a minimum not above the maximum, a text is never both too short
      and too long. */
  lemma LengthErrorsExclusive(m: Metadata, text: string, matches: string -> bool)
    requires m.min.NumBound? && m.max.NumBound? && m.min.n <= m.max.n
    ensures !((exists e :: e in RuleErrors(m, text, matches) && e.TooShort?) &&
              (exists e :: e in RuleErrors(m, text, matches) && e.TooLong?))
  {
  }

  /** Bounds of 0 are ignored, so a non-empty text under `min: 0` and
      `max: 0` and without pattern is accepted. */
  lemma ZeroBoundsIgnored(q: Question, value: string, matches: string -> bool)
    requires q.metadata.min == NumBound(0.0) && q.metadata.max == NumBound(0.0)
    requires q.metadata.pattern.None? && value != ""
    ensures FieldErrors(q, value, matches) == []
  {
  }

  class TextShort {
    const question: Question
    const matches: string -> bool
    var validationError: seq<TextError>
    var shouldShake: bool

    constructor (question: Question, matches: string -> bool)
      ensures this.question == question && this.matches == matches
      ensures validationError == [] && !shouldShake
    {
      this.question := question;
      this.matches := matches;
      validationError := [];
      shouldShake := false;
    }

    /** `validateField`: shows the errors of `value` and reports whether
        there are any (`true` means the field is not acceptable). */
    method ValidateField(value: string) returns (failed: bool)
      modifies this
      ensures validationError == FieldErrors(question, value, matches)
      ensures failed <==> validationError != []
      ensures shouldShake == old(shouldShake)
    {
      validationError := [];
      if question.required && value == "" {
        validationError := [Required];
        return true;
      }
      if value != "" {
        var errors := RuleErrors(question.metadata, value, matches);
        validationError := errors;
        return |errors| > 0;
      }
      return false;
    }

    /** `onNextClick`: `onNextQuestionTrigger(1)` is called exactly when
        validation passes; a failure shakes the field instead. */
    method NextClick(value: string) returns (next: Emit<int>)
      modifies this
      ensures validationError == FieldErrors(question, value, matches)
      ensures next.Called? <==> validationError == []
      ensures next.Called? ==> next.arg == 1
      ensures next.NotCalled? ==> shouldShake
    {
      var failed := ValidateField(value);
      if failed {
        shouldShake := true;
        return NotCalled;
      }
      next := Called(1);
    }

    /** `onSubmitClick`: `onFormSubmit()` is called exactly when validation
        passes. */
    method SubmitClick(value: string) returns (submitted: bool)
      modifies this
      ensures validationError == FieldErrors(question, value, matches)
      ensures submitted <==> validationError == []
      ensures !submitted ==> shouldShake
    {
      var failed := ValidateField(value);
      if failed {
        shouldShake := true;
        return false;
      }
      submitted := true;
    }

    /** The shake ends after its timer. */
    method ShakeEnded()
      modifies this
      ensures !shouldShake && validationError == old(validationError)
    {
      shouldShake := false;
    }

    /** `handleInputChange`: the new text is reported first, then the edit
        rules are shown. */
    method InputChange(newValue: string) returns (reported: Emit<string>)
      modifies this
      ensures reported == Called(newValue)
      ensures validationError == ChangeErrors(question.metadata, newValue, matches)
      ensures shouldShake == old(shouldShake)
    {
      reported := Called(newValue);
      if newValue != "" {
        validationError := RuleErrors(question.metadata, newValue, matches);
      } else {
        validationError := [];
      }
    }

    /** `handleKeyDown`: Enter without Shift runs the Next path, also on the
        last question; other keys do nothing. */
    method KeyDown(key: string, shiftKey: bool, value: string) returns (next: Emit<int>)
      modifies this
      ensures key == "Enter" && !shiftKey ==>
        validationError == FieldErrors(question, value, matches) &&
        (next.Called? <==> validationError == [])
      ensures !(key == "Enter" && !shiftKey) ==>
        next.NotCalled? && validationError == old(validationError) && shouldShake == old(shouldShake)
    {
      if key == "Enter" && !shiftKey {
        next := NextClick(value);
      } else {
        next := NotCalled;
      }
    }
  }
}
