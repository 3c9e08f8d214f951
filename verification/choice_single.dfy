/** The single-choice field: a radio group over the labelled options. */
module ChoiceSingleField {
  import opened Prelude
  import opened CommonTypes
  import opened Selection

  class ChoiceSingle {
    const question: Question
    const options: seq<QuestionOption>
    var selectedValue: Option<string>

    /** The selection starts as the value prop, whatever it is. */
    constructor (question: Question, value: Option<string>)
      ensures this.question == question && options == LabelledOptions(question.options)
      ensures selectedValue == value
    {
      this.question := question;
      options := LabelledOptions(question.options);
      selectedValue := value;
    }

    /** `handleSelect`: the choice becomes the selection and is reported. */
    method HandleSelect(choice: string) returns (reported: Emit<string>)
      modifies this
      ensures selectedValue == Some(choice)
      ensures reported == Called(choice)
    {
      selectedValue := Some(choice);
      reported := Called(choice);
    }

    /** The radio item highlighted for an option. */
    function IsSelected(o: QuestionOption): (selected: bool)
      reads this
      ensures selected <==> selectedValue == Some(o.value)
    {
      selectedValue == Some(o.value)
    }

    /** The value-sync effect: only a truthy value overwrites the
        selection. */
    method ValueChanged(value: Option<string>)
      modifies this
      ensures selectedValue == Synced(old(selectedValue), value)
    {
      if value.Some? && value.value != "" {
        selectedValue := value;
      }
    }

    /** Next fires without a required check. */
    method NextClick() returns (next: Emit<int>)
      ensures next == Called(1)
    {
      next := Called(1);
    }
  }

  /** After an option is chosen, exactly the options with that value are
      highlighted. */
  method SelectHighlightsChoice(q: Question, choice: string) returns (highlighted: seq<bool>)
    ensures var options := LabelledOptions(q.options);
      |highlighted| == |options| &&
      forall j :: 0 <= j < |options| ==> (highlighted[j] <==> options[j].value == choice)
  {
    var field := new ChoiceSingle(q, None);
    var _ := field.HandleSelect(choice);
    highlighted := seq(|field.options|, j requires 0 <= j < |field.options| reads field => field.IsSelected(field.options[j]));
  }

  /** After a selection, a sync with an empty or missing value keeps it. */
  method SelectThenEmptySync(q: Question, choice: string, value: Option<string>)
    returns (kept: Option<string>)
    requires value.None? || value.value == ""
    ensures kept == Some(choice)
  {
    var field := new ChoiceSingle(q, None);
    var _ := field.HandleSelect(choice);
    field.ValueChanged(value);
    kept := field.selectedValue;
  }
}
