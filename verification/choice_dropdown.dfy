/** The drop-down field: a select over the labelled options. */
module ChoiceDropDownField {
  import opened Prelude
  import opened CommonTypes
  import opened Selection

  class ChoiceDropDown {
    const question: Question
    const options: seq<QuestionOption>
    var selectedValue: Option<string>

    constructor (question: Question, value: Option<string>)
      ensures this.question == question && options == LabelledOptions(question.options)
      ensures selectedValue == value
    {
      this.question := question;
      options := LabelledOptions(question.options);
      selectedValue := value;
    }

    /** `handleValueChange`: the new value becomes the selection and is
        reported. */
    method HandleValueChange(newValue: string) returns (reported: Emit<string>)
      modifies this
      ensures selectedValue == Some(newValue)
      ensures reported == Called(newValue)
    {
      selectedValue := Some(newValue);
      reported := Called(newValue);
    }

    /** The value-sync effect: only a truthy value overwrites the
        selection. */
    method ValueChanged(value: Option<string>)
      modifies this
      ensures selectedValue == Synced(old(selectedValue), value)
    {
      if value.Some? && value.value != "" {
        selectedValue := value;
      }
    }

    /** Next fires without a required check. */
    method NextClick() returns (next: Emit<int>)
      ensures next == Called(1)
    {
      next := Called(1);
    }
  }

  /** The listed items are exactly the options with a non-blank label. */
  lemma ListedItems(q: Question, o: QuestionOption)
    ensures o in LabelledOptions(q.options) <==> o in q.options && o.caption.Some? && Trim(o.caption.value) != []
  {
  }
}
