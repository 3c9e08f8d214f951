/** The segmented switch: a set of selected option ids, in single mode
    replaced by the clicked id and in multiple mode toggled member by
    member. */
module SwitchButtonWidget {
  import opened Prelude

  /** An option of the switch; `disabled` is `false` when not given. */
  datatype SwitchOption = SwitchOption(id: string, disabled: bool)

  /** The callbacks one click invokes: the option's own `onClick`, and
      `onSelectionChange` with an id. */
  datatype ClickEffects = ClickEffects(optionClicked: bool, selectionChange: Emit<string>)

  /** The initial selection: `{defaultSelected}` when it is given and not
      empty, else nothing. */
  function InitialSelection(defaultSelected: Option<string>): (s: set<string>)
    ensures defaultSelected.Some? && defaultSelected.value != "" ==> s == {defaultSelected.value}
    ensures defaultSelected.None? || defaultSelected.value == "" ==> s == {}
  {
    if defaultSelected.Some? && defaultSelected.value != "" then {defaultSelected.value} else {}
  }

  class SwitchButton {
    const allowMultiple: bool
    var selectedIds: set<string>

    constructor (defaultSelected: Option<string>, allowMultiple: bool)
      ensures this.allowMultiple == allowMultiple
      ensures selectedIds == InitialSelection(defaultSelected)
    {
      this.allowMultiple := allowMultiple;
      if defaultSelected.Some? && defaultSelected.value != "" {
        selectedIds := {defaultSelected.value};
      } else {
        selectedIds := {};
      }
    }

    /** `handleButtonClick`: a disabled option does nothing. Otherwise the
        multiple mode flips the membership of the clicked id and no other,
        and the single mode selects exactly the clicked id; the option's
        `onClick` runs on every enabled click and `onSelectionChange` only
        in single mode, with the clicked id. */
    method ButtonClick(option: SwitchOption) returns (effects: ClickEffects)
      modifies this
      ensures option.disabled ==>
        selectedIds == old(selectedIds) && effects == ClickEffects(false, NotCalled)
      ensures !option.disabled ==> effects.optionClicked
      ensures !option.disabled && allowMultiple ==>
        (option.id in selectedIds <==> option.id !in old(selectedIds)) &&
        (forall x :: x != option.id ==> (x in selectedIds <==> x in old(selectedIds))) &&
        effects.selectionChange == NotCalled
      ensures !option.disabled && !allowMultiple ==>
        selectedIds == {option.id} && effects.selectionChange == Called(option.id)
    {
      if option.disabled {
        return ClickEffects(false, NotCalled);
      }
      var newSelectedIds: set<string>;
      if allowMultiple {
        newSelectedIds := selectedIds;
        if option.id in newSelectedIds {
          newSelectedIds := newSelectedIds - {option.id};
        } else {
          newSelectedIds := newSelectedIds + {option.id};
        }
      } else {
        newSelectedIds := {option.id};
      }
      selectedIds := newSelectedIds;
      var change: Emit<string> := NotCalled;
      if !allowMultiple && |newSelectedIds| > 0 {
        change := Called(option.id);
      }
      effects := ClickEffects(true, change);
    }
  }

  /** In multiple mode two clicks on the same enabled option give back the
      selection from before. */
  method ClickTwiceRestores(start: Option<string>, option: SwitchOption) returns (before: set<string>, after: set<string>)
    requires !option.disabled
    ensures before == InitialSelection(start)
    ensures after == before
  {
    var switch := new SwitchButton(start, true);
    before := switch.selectedIds;
    var _ := switch.ButtonClick(option);
    var _ := switch.ButtonClick(option);
    after := switch.selectedIds;
    assert forall x :: x in after <==> x in before;
  }

  /** In single mode the selection never holds more than one id, whatever
      sequence of options is clicked. */
  method SingleModeHoldsAtMostOne(start: Option<string>, clicks: seq<SwitchOption>) returns (selected: set<string>)
    ensures |selected| <= 1
  {
    var switch := new SwitchButton(start, false);
    var i := 0;
    while i < |clicks|
      invariant 0 <= i <= |clicks|
      invariant !switch.allowMultiple
      invariant |switch.selectedIds| <= 1
    {
      var _ := switch.ButtonClick(clicks[i]);
      i := i + 1;
    }
    selected := switch.selectedIds;
  }
}
