/** The picture-choice field: every option is offered, a click selects its
    value, images that fail to load are remembered by index, and a required
    question needs a selection before Next or Submit. */
module ChoicePictureField {
  import opened Prelude
  import opened CommonTypes
  import opened Selection

  /** `validateField`: exactly the required message when the question is
      required and nothing (or "") is selected, else nothing. */
  function PictureErrors(required: bool, selected: Option<string>): (r: seq<string>)
    ensures r != [] <==> required && (selected.None? || selected.value == "")
    ensures r != [] ==> r == ["This question is required"]
  {
    if required && (selected.None? || selected.value == "") then ["This question is required"] else []
  }

  class ChoicePicture {
    const question: Question
    const options: seq<QuestionOption>
    var selectedValue: Option<string>
    var imageErrors: set<int>
    var validationError: seq<string>
    var shouldShake: bool

    /** The options are not filtered by label. */
    constructor (question: Question, value: Option<string>)
      ensures this.question == question && options == question.options
      ensures selectedValue == value && imageErrors == {}
      ensures validationError == [] && !shouldShake
    {
      this.question := question;
      options := question.options;
      selectedValue := value;
      imageErrors := {};
      validationError := [];
      shouldShake := false;
    }

    /** The options that show as selected: those whose value is the
        selection. */
    function SelectedIndices(): (r: set<int>)
      reads this
      ensures forall i :: i in r <==> 0 <= i < |options| && selectedValue == Some(options[i].value)
    {
      set i | 0 <= i < |options| && selectedValue == Some(options[i].value)
    }

    /** `handleSelect`: the option's value becomes the selection and is
        reported. */
    method HandleSelect(i: nat) returns (reported: Emit<string>)
      requires i < |options|
      modifies this
      ensures selectedValue == Some(options[i].value)
      ensures reported == Called(options[i].value)
      ensures i in SelectedIndices()
      ensures imageErrors == old(imageErrors) && validationError == old(validationError)
      ensures shouldShake == old(shouldShake)
    {
      selectedValue := Some(options[i].value);
      reported := Called(options[i].value);
    }

    /** `handleImageError`: the index joins the set of broken images. */
    method HandleImageError(i: int)
      modifies this
      ensures imageErrors == old(imageErrors) + {i}
      ensures selectedValue == old(selectedValue) && validationError == old(validationError)
      ensures shouldShake == old(shouldShake)
    {
      imageErrors := imageErrors + {i};
    }

    method ValidateField() returns (failed: bool)
      modifies this
      ensures validationError == PictureErrors(question.required, selectedValue)
      ensures failed <==> validationError != []
      ensures selectedValue == old(selectedValue) && imageErrors == old(imageErrors)
      ensures shouldShake == old(shouldShake)
    {
      validationError := [];
      if question.required && (selectedValue.None? || selectedValue.value == "") {
        validationError := ["This question is required"];
        return true;
      }
      return false;
    }

    /** `onNextClick`: Next fires exactly when validation passes. */
    method NextClick() returns (next: Emit<int>)
      modifies this
      ensures validationError == PictureErrors(question.required, selectedValue)
      ensures selectedValue == old(selectedValue)
      ensures next.Called? <==> validationError == []
      ensures next.Called? ==> next.arg == 1
      ensures next.NotCalled? ==> shouldShake
    {
      var failed := ValidateField();
      if failed {
        shouldShake := true;
        return NotCalled;
      }
      next := Called(1);
    }

    /** `onSubmitClick`: the form is submitted exactly when validation
        passes. */
    method SubmitClick() returns (submitted: bool)
      modifies this
      ensures validationError == PictureErrors(question.required, selectedValue)
      ensures selectedValue == old(selectedValue)
      ensures submitted <==> validationError == []
      ensures !submitted ==> shouldShake
    {
      var failed := ValidateField();
      if failed {
        shouldShake := true;
        return false;
      }
      submitted := true;
    }

    /** The value-sync effect: only a truthy value overwrites the
        selection. */
    method ValueChanged(value: Option<string>)
      modifies this
      ensures selectedValue == Synced(old(selectedValue), value)
      ensures imageErrors == old(imageErrors) && validationError == old(validationError)
      ensures shouldShake == old(shouldShake)
    {
      if value.Some? && value.value != "" {
        selectedValue := value;
      }
    }
  }

  /** Reporting broken images is idempotent and never forgets an index. */
  method ImageErrorsOnlyGrow(q: Question, reports: seq<int>) returns (broken: set<int>)
    ensures broken == set i | i in reports
  {
    var field := new ChoicePicture(q, None);
    var k := 0;
    while k < |reports|
      invariant 0 <= k <= |reports|
      invariant field.imageErrors == set i | i in reports[..k]
    {
      field.HandleImageError(reports[k]);
      assert reports[..k + 1] == reports[..k] + [reports[k]];
      k := k + 1;
    }
    assert reports[..k] == reports;
    broken := field.imageErrors;
  }
}
