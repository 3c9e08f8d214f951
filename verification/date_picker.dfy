/** The date picker: which calendar days can be picked, the date it holds
    and shows, and its popover. Dates are instants in milliseconds. */
module DatePickerWidget {
  import opened Prelude
  import DateField

  /** The calendar's `disabled` test for one day: everything is disabled
      when the picker is, and otherwise the days before `minDate` or after
      `maxDate`; on an enabled picker a day can be picked exactly when it
      lies within the inclusive range the date field checks. */
  function DayDisabled(pickerDisabled: bool, minDate: Option<int>, maxDate: Option<int>, day: int): (r: bool)
    ensures pickerDisabled ==> r
    ensures !pickerDisabled ==> (r <==> !DateField.InDateRange(minDate, maxDate, day))
  {
    if pickerDisabled then true
    else if minDate.Some? && day < minDate.value then true
    else if maxDate.Some? && day > maxDate.value then true
    else false
  }

  /** The bounds themselves can be picked whenever the range is not
      empty. */
  lemma BoundsSelectable(min: int, max: int)
    requires min <= max
    ensures !DayDisabled(false, Some(min), Some(max), min)
    ensures !DayDisabled(false, Some(min), Some(max), max)
  {
  }

  /** What the button shows: the placeholder when there is no date, else
      the date in the display format. */
  datatype DisplayView = PlaceholderText(text: string) | FormattedDate(ms: int)

  function DisplayDate(date: Option<int>, placeholder: Option<string>): (v: DisplayView)
    ensures date.None? ==> v == PlaceholderText(if placeholder.Some? then placeholder.value else "Select Date")
    ensures date.Some? ==> v == FormattedDate(date.value)
  {
    if date.None? then PlaceholderText(if placeholder.Some? then placeholder.value else "Select Date")
    else FormattedDate(date.value)
  }

  class DatePicker {
    const disabled: bool
    const minDate: Option<int>
    const maxDate: Option<int>
    var open: bool
    var internalDate: Option<int>

    /** The popover starts closed and the picker holds the value prop. */
    constructor (value: Option<int>, disabled: bool, minDate: Option<int>, maxDate: Option<int>)
      ensures this.disabled == disabled && this.minDate == minDate && this.maxDate == maxDate
      ensures internalDate == value && !open
    {
      this.disabled := disabled;
      this.minDate := minDate;
      this.maxDate := maxDate;
      internalDate := value;
      open := false;
    }

    /** `handleDateSelect`: the picked date (or `undefined` when a day is
        unpicked) becomes the held date, is reported, and the popover
        closes. */
    method DateSelect(date: Option<int>) returns (reported: Emit<Option<int>>)
      modifies this
      ensures internalDate == date && reported == Called(date) && !open
    {
      internalDate := date;
      reported := Called(date);
      open := false;
    }

    /** The sync effect: the held date follows every new value prop. */
    method ValueChanged(value: Option<int>)
      modifies this
      ensures internalDate == value && open == old(open)
    {
      internalDate := value;
    }

    /** The popover's `onOpenChange`. */
    method OpenChange(o: bool)
      modifies this
      ensures open == o && internalDate == old(internalDate)
    {
      open := o;
    }

    /** The button shows the placeholder exactly when no date is held. */
    function Display(placeholder: Option<string>): (v: DisplayView)
      reads this
      ensures v.PlaceholderText? <==> internalDate.None?
      ensures v.FormattedDate? ==> Some(v.ms) == internalDate
    {
      DisplayDate(internalDate, placeholder)
    }

    /** Whether the calendar offers `day`. */
    predicate Selectable(day: int)
      reads this
    {
      !DayDisabled(disabled, minDate, maxDate, day)
    }
  }

  /** Picking a date and then clearing the value prop leaves the picker
      showing the placeholder with its popover closed. */
  method PickThenClear(day: int) returns (shown: DisplayView, open: bool)
    ensures shown == PlaceholderText("Select Date") && !open
  {
    var picker := new DatePicker(None, false, None, None);
    picker.OpenChange(true);
    var _ := picker.DateSelect(Some(day));
    picker.ValueChanged(None);
    shown := picker.Display(None);
    open := picker.open;
  }
}
