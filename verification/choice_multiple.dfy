/** The multiple-choice field: labelled options, a capped toggle, and the
    required/min/max rules that gate Next and Submit. */
module ChoiceMultipleField {
  import opened Prelude
  import opened CommonTypes
  import opened Selection

  /** The messages of `validateField`; the bounds are carried as numbers. */
  datatype ChoiceError =
    | Required          // "This question is required"
    | TooFew(min: real) // "Please select at least <min> option(s)"
    | TooMany(max: real) // "Please select no more than <max> option(s)"

  /** `validateField`: the rules accumulate in order — required, then
      minimum, then maximum — and the required rule does not stop the
      others. Bounds count when they are truthy numbers. */
  function ChoiceErrors(q: Question, count: nat): (r: seq<ChoiceError>)
    ensures Required in r <==> q.required && count == 0
    ensures (exists e :: e in r && e.TooFew?) <==>
      TruthyNumberOf(q.metadata.min).Some? && (count as real) < TruthyNumberOf(q.metadata.min).value
    ensures (exists e :: e in r && e.TooMany?) <==>
      TruthyNumberOf(q.metadata.max).Some? && (count as real) > TruthyNumberOf(q.metadata.max).value
    ensures |r| > 0 && r[0] != Required ==> Required !in r
    ensures forall i, j :: 0 <= i < j < |r| ==> r[i].Required? || (r[i].TooFew? && r[j].TooMany?)
  {
    var min := TruthyNumberOf(q.metadata.min);
    var max := TruthyNumberOf(q.metadata.max);
    var required := if q.required && count == 0 then [Required] else [];
    var few := if min.Some? && (count as real) < min.value then [TooFew(min.value)] else [];
    var many := if max.Some? && (count as real) > max.value then [TooMany(max.value)] else [];
    assert few == [] || few[0].TooFew?;
    assert many == [] || many[0].TooMany?;
    required + few + many
  }

  /** A required question with a minimum of 2 and nothing selected gets
      both the required and the minimum message. */
  lemma RequiredDoesNotStopMinimum(q: Question)
    requires q.required && q.metadata.min == NumBound(2.0)
    ensures ChoiceErrors(q, 0)[..2] == [Required, TooFew(2.0)]
  {
  }

  class ChoiceMultiple {
    const question: Question
    const options: seq<QuestionOption>
    var selectedValues: seq<string>
    var validationError: seq<ChoiceError>
    var shouldShake: bool

    /** The selection starts as the value when it is an array; the options
        are the labelled ones. */
    constructor (question: Question, value: Option<seq<string>>)
      ensures this.question == question && options == LabelledOptions(question.options)
      ensures selectedValues == (if value.Some? then value.value else [])
      ensures validationError == [] && !shouldShake
    {
      this.question := question;
      options := LabelledOptions(question.options);
      selectedValues := if value.Some? then value.value else [];
      validationError := [];
      shouldShake := false;
    }

    /** `handleToggle`: the selection becomes the toggled one and is
        reported, unless the cap refuses the addition. */
    method HandleToggle(v: string) returns (reported: Emit<seq<string>>)
      modifies this
      ensures var t := Toggle(old(selectedValues), v, Cap(question.metadata));
        (t.None? ==> reported.NotCalled? && selectedValues == old(selectedValues)) &&
        (t.Some? ==> reported == Called(t.value) && selectedValues == t.value)
      ensures validationError == old(validationError) && shouldShake == old(shouldShake)
    {
      var maxSelections := Cap(question.metadata);
      var newValues: seq<string>;
      if v in selectedValues {
        newValues := Without(selectedValues, v);
      } else {
        if maxSelections.Some? && |selectedValues| as real >= maxSelections.value {
          return NotCalled;
        }
        newValues := selectedValues + [v];
      }
      selectedValues := newValues;
      reported := Called(newValues);
    }

    /** `validateField`: shows the errors of the current selection and
        reports whether there are any. */
    method ValidateField() returns (failed: bool)
      modifies this
      ensures validationError == ChoiceErrors(question, |selectedValues|)
      ensures failed <==> validationError != []
      ensures selectedValues == old(selectedValues) && shouldShake == old(shouldShake)
    {
      var errors := ChoiceErrors(question, |selectedValues|);
      validationError := errors;
      failed := |errors| > 0;
    }

    /** `onNextClick`: Next fires exactly when there is no error. */
    method NextClick() returns (next: Emit<int>)
      modifies this
      ensures validationError == ChoiceErrors(question, |selectedValues|)
      ensures selectedValues == old(selectedValues)
      ensures next.Called? <==> validationError == []
      ensures next.Called? ==> next.arg == 1
      ensures next.NotCalled? ==> shouldShake
    {
      var failed := ValidateField();
      if failed {
        shouldShake := true;
        return NotCalled;
      }
      next := Called(1);
    }

    /** `onSubmitClick`: the form is submitted exactly when there is no
        error. */
    method SubmitClick() returns (submitted: bool)
      modifies this
      ensures validationError == ChoiceErrors(question, |selectedValues|)
      ensures selectedValues == old(selectedValues)
      ensures submitted <==> validationError == []
      ensures !submitted ==> shouldShake
    {
      var failed := ValidateField();
      if failed {
        shouldShake := true;
        return false;
      }
      submitted := true;
    }

    /** The value-sync effect: an array value replaces the selection. */
    method ValueChanged(value: Option<seq<string>>)
      modifies this
      ensures selectedValues == (if value.Some? then value.value else old(selectedValues))
      ensures validationError == old(validationError) && shouldShake == old(shouldShake)
    {
      if value.Some? {
        selectedValues := value.value;
      }
    }
  }

  /** Starting from a selection without duplicates and within an integral
      `max`, any sequence of toggles keeps both. */
  method ToggleSequence(q: Question, start: seq<string>, toggles: seq<string>, k: nat)
    returns (final: seq<string>)
    requires q.metadata.max == NumBound(k as real) && k > 0
    requires Distinct(start) && |start| <= k
    ensures Distinct(final) && |final| <= k
  {
    var field := new ChoiceMultiple(q, Some(start));
    var i := 0;
    while i < |toggles|
      invariant 0 <= i <= |toggles|
      invariant field.question == q
      invariant Distinct(field.selectedValues) && |field.selectedValues| <= k
    {
      var before := field.selectedValues;
      var _ := field.HandleToggle(toggles[i]);
      if Toggle(before, toggles[i], Cap(q.metadata)).Some? {
        ToggleKeepsDistinct(before, toggles[i], Cap(q.metadata));
        ToggleKeepsWithinCap(before, toggles[i], k);
      }
      i := i + 1;
    }
    final := field.selectedValues;
  }
}
