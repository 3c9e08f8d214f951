/** The multi-select dropdown: a controlled list of selected values that a
    click toggles, the options it shows as selected, the summary on its
    trigger button and the open state of its dropdown. */
module MultiSelectWidget {
  import opened Prelude
  import opened Selection

  datatype MultiSelectOption = MultiSelectOption(caption: string, value: string)

  /** `options.filter(o => value.includes(o.value))`: the options whose
      value is selected, in the order of `options` (not of `value`). */
  function SelectedOptions(options: seq<MultiSelectOption>, value: seq<string>): (r: seq<MultiSelectOption>)
    ensures forall o :: o in r <==> o in options && o.value in value
    ensures IsSubsequence(r, options)
  {
    FilterIsSubsequence(options, (o: MultiSelectOption) => o.value in value);
    Filter(options, (o: MultiSelectOption) => o.value in value)
  }

  /** What the trigger button shows. */
  datatype TriggerView =
    | PlaceholderView(text: string)
    | CustomView(selected: seq<MultiSelectOption>)   // `renderTriggerValue(selectedOptions)`
    | TextView(text: string)

  function Labels(options: seq<MultiSelectOption>): (r: seq<string>)
    ensures |r| == |options| && forall i :: 0 <= i < |r| ==> r[i] == options[i].caption
  {
    seq(|options|, i requires 0 <= i < |options| => options[i].caption)
  }

  /** The trigger summary: the placeholder (by default "Select options")
      when nothing is selected, else the custom renderer when one is given,
      else "N items selected" for more than three, else the labels joined
      by ", ". */
  function TriggerSummary(selected: seq<MultiSelectOption>, placeholder: Option<string>, customRenderer: bool): (v: TriggerView)
    ensures selected == [] ==> v == PlaceholderView(if placeholder.Some? then placeholder.value else "Select options")
    ensures selected != [] && customRenderer ==> v == CustomView(selected)
    ensures selected != [] && !customRenderer && |selected| > 3 ==>
      v == TextView(NatToString(|selected|) + " items selected")
    ensures selected != [] && !customRenderer && |selected| <= 3 ==>
      v == TextView(Join(Labels(selected), ", "))
  {
    if selected == [] then PlaceholderView(if placeholder.Some? then placeholder.value else "Select options")
    else if customRenderer then CustomView(selected)
    else if |selected| > 3 then TextView(NatToString(|selected|) + " items selected")
    else TextView(Join(Labels(selected), ", "))
  }

  /** A summary of more than three options starts with their number. */
  lemma CountSummaryReadsBack(selected: seq<MultiSelectOption>, placeholder: Option<string>)
    requires |selected| > 3
    ensures var text := TriggerSummary(selected, placeholder, false).text;
      var digits := NatToString(|selected|);
      StartsWith(text, digits) && DigitsValue(digits) == |selected|
  {
    DigitsRoundTrip(|selected|);
  }

  /** A summary of one to three options names every one of them. */
  lemma LabelSummaryNamesEach(selected: seq<MultiSelectOption>, placeholder: Option<string>, i: nat)
    requires 1 <= |selected| <= 3 && i < |selected|
    ensures IsInfix(selected[i].caption, TriggerSummary(selected, placeholder, false).text)
  {
    JoinHasEach(Labels(selected), ", ", i);
  }

  class MultiSelect {
    const disabled: bool
    var open: bool

    /** The dropdown starts closed. */
    constructor (disabled: bool)
      ensures this.disabled == disabled && !open
    {
      this.disabled := disabled;
      open := false;
    }

    /** `handleSelect`: a selected value is dropped (every occurrence of
        it), an unselected one is appended; the new list goes to
        `onChange` and the dropdown stays open. */
    method HandleSelect(value: seq<string>, v: string) returns (reported: seq<string>)
      modifies this
      ensures Toggle(value, v, None) == Some(reported)
      ensures v in reported <==> v !in value
      ensures forall x :: x != v ==> (x in reported <==> x in value)
      ensures open
    {
      if v in value {
        reported := Without(value, v);
      } else {
        reported := value + [v];
      }
      open := true;
    }

    /** The trigger's click flips the dropdown unless the widget is
        disabled. */
    method TriggerClick()
      modifies this
      ensures disabled ==> open == old(open)
      ensures !disabled ==> open == !old(open)
    {
      if !disabled {
        open := !open;
      }
    }

    /** A mouse press reaches the document listener only from outside the
        dropdown list, whose own handler stops it; there it closes an open
        dropdown unless it landed on the trigger. `inTrigger` and `inList`
        say where the press landed. */
    method MouseDown(inTrigger: bool, inList: bool)
      modifies this
      ensures old(open) && !inTrigger && !inList ==> !open
      ensures inTrigger || inList || !old(open) ==> open == old(open)
    {
      if open && !inList && !inTrigger {
        open := false;
      }
    }
  }

  /** Choosing an option from an opened dropdown keeps it open: the press
      inside the list does not close it, and the selection leaves it open. */
  method ChooseKeepsOpen(value: seq<string>, v: string) returns (openAfterPress: bool, reported: seq<string>, open: bool)
    ensures openAfterPress && open
    ensures v in reported <==> v !in value
  {
    var widget := new MultiSelect(false);
    widget.TriggerClick();
    widget.MouseDown(false, true);
    openAfterPress := widget.open;
    reported := widget.HandleSelect(value, v);
    open := widget.open;
  }

  /** Picking an unselected value and then picking it again reports the
      original list, and the dropdown is open afterwards. */
  method SelectTwice(value: seq<string>, v: string) returns (first: seq<string>, second: seq<string>, open: bool)
    requires v !in value
    ensures first == value + [v]
    ensures second == value
    ensures open
  {
    var widget := new MultiSelect(false);
    first := widget.HandleSelect(value, v);
    second := widget.HandleSelect(first, v);
    ToggleTwiceRestores(value, v, None);
    open := widget.open;
  }

  /** A disabled widget never opens, whatever is clicked. */
  method DisabledStaysClosed(clicks: nat) returns (open: bool)
    ensures !open
  {
    var widget := new MultiSelect(true);
    var i := 0;
    while i < clicks
      invariant 0 <= i <= clicks
      invariant !widget.open
    {
      widget.TriggerClick();
      i := i + 1;
    }
    open := widget.open;
  }
}
