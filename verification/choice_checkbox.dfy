/** The checkbox field: the same capped toggle over option ids, with no
    validation before Next or Submit. */
module ChoiceCheckboxField {
  import opened Prelude
  import opened CommonTypes
  import opened Selection

  class ChoiceCheckbox {
    const question: Question
    const options: seq<QuestionOption>
    var selectedValues: seq<string>

    constructor (question: Question, value: Option<seq<string>>)
      ensures this.question == question && options == LabelledOptions(question.options)
      ensures selectedValues == (if value.Some? then value.value else [])
    {
      this.question := question;
      options := LabelledOptions(question.options);
      selectedValues := if value.Some? then value.value else [];
    }

    /** `handleToggle`: as for the multiple-choice field; the checked
        state of an option is membership of its id. */
    method HandleToggle(id: string) returns (reported: Emit<seq<string>>)
      modifies this
      ensures var t := Toggle(old(selectedValues), id, Cap(question.metadata));
        (t.None? ==> reported.NotCalled? && selectedValues == old(selectedValues)) &&
        (t.Some? ==> reported == Called(t.value) && selectedValues == t.value)
    {
      var t := Toggle(selectedValues, id, Cap(question.metadata));
      if t.None? {
        return NotCalled;
      }
      selectedValues := t.value;
      reported := Called(t.value);
    }

    /** Whether the option with this id shows as checked. */
    function IsChecked(id: string): (checked: bool)
      reads this
      ensures checked <==> id in selectedValues
    {
      id in selectedValues
    }

    /** The value-sync effect: only an array value replaces the selection. */
    method ValueChanged(value: Option<seq<string>>)
      modifies this
      ensures selectedValues == (if value.Some? then value.value else old(selectedValues))
    {
      if value.Some? {
        selectedValues := value.value;
      }
    }

    /** Next fires without any min, max or required check. */
    method NextClick() returns (next: Emit<int>)
      ensures next == Called(1)
    {
      next := Called(1);
    }
  }

  /** A click on an unchecked option checks it unless the cap is reached;
      a click on a checked option always unchecks it. */
  lemma ClickFlipsChecked(selected: seq<string>, id: string, m: Metadata)
    ensures id in selected ==> id !in Toggle(selected, id, Cap(m)).value
    ensures id !in selected && Toggle(selected, id, Cap(m)).Some? ==> id in Toggle(selected, id, Cap(m)).value
    ensures id !in selected && Toggle(selected, id, Cap(m)).None? ==>
      Cap(m).Some? && |selected| as real >= Cap(m).value
  {
  }

  /** A click on a box flips its checked state, unless the cap refuses an
      unchecked box; the other boxes keep theirs. */
  method ClickFlipsIsChecked(field: ChoiceCheckbox, id: string) returns (reported: Emit<seq<string>>)
    modifies field
    ensures old(field.IsChecked(id)) ==> !field.IsChecked(id) && reported.Called?
    ensures !old(field.IsChecked(id)) ==> (field.IsChecked(id) <==> reported.Called?)
    ensures !old(field.IsChecked(id)) && reported.NotCalled? ==>
      Cap(field.question.metadata).Some? && |field.selectedValues| as real >= Cap(field.question.metadata).value
    ensures forall x :: x != id ==> (field.IsChecked(x) <==> old(field.IsChecked(x)))
  {
    ClickFlipsChecked(field.selectedValues, id, field.question.metadata);
    reported := field.HandleToggle(id);
  }
}
