/** The star rating: a row of stars 1..starCount, filled up to the hovered
    star or else up to the selection, with a Clear button. */
module RatingStarField {
  import opened Prelude
  import opened CommonTypes

  /** `starCount` when the metadata gives a number, else 5. */
  function StarCount(m: Metadata): (c: real)
    ensures m.starCount.Some? ==> c == m.starCount.value
    ensures m.starCount.None? ==> c == 5.0
  {
    if m.starCount.Some? then m.starCount.value else 5.0
  }

  /** `Array.from({ length: starCount }, (_, i) => i + 1)`. */
  function Stars(count: real): (stars: seq<int>)
    ensures |stars| == ArrayLength(count)
    ensures forall i :: 0 <= i < |stars| ==> stars[i] == i + 1
  {
    seq(ArrayLength(count), i => i + 1)
  }

  /** The stars are ascending and start at 1; there are five by default. */
  lemma StarsAscending(m: Metadata)
    ensures forall i, j :: 0 <= i < j < |Stars(StarCount(m))| ==>
      Stars(StarCount(m))[i] < Stars(StarCount(m))[j]
    ensures m.starCount.None? ==> Stars(StarCount(m)) == [1, 2, 3, 4, 5]
  {
  }

  /** Whether a star is drawn filled: while hovering, the stars up to the
      hovered one; otherwise the stars up to the selection, if any. */
  function IsFilled(star: int, hover: Option<int>, selected: Option<real>): (filled: bool)
    ensures hover.Some? ==> (filled <==> star <= hover.value)
    ensures hover.None? ==> (filled <==> selected.Some? && star as real <= selected.value)
  {
    if hover.Some? then star <= hover.value
    else selected.Some? && star as real <= selected.value
  }

  /** With neither hover nor selection no star is filled. */
  lemma NothingFilledAtRest(star: int)
    ensures !IsFilled(star, None, None)
  {
  }

  /** The filled stars always form a prefix of the row. */
  lemma FilledStarsArePrefix(a: int, b: int, hover: Option<int>, selected: Option<real>)
    requires a <= b && IsFilled(b, hover, selected)
    ensures IsFilled(a, hover, selected)
  {
  }

  class RatingStar {
    const question: Question
    var selectedValue: Option<real>
    var hoverValue: Option<int>

    /** The selection starts as the value when it is a number. */
    constructor (question: Question, value: Option<real>)
      ensures this.question == question
      ensures selectedValue == value && hoverValue.None?
    {
      this.question := question;
      selectedValue := value;
      hoverValue := None;
    }

    /** `handleSelect`: a click on a star selects and reports it. */
    method HandleSelect(star: int) returns (reported: Emit<Option<real>>)
      modifies this
      ensures selectedValue == Some(star as real)
      ensures reported == Called(selectedValue)
      ensures hoverValue == old(hoverValue)
    {
      selectedValue := Some(star as real);
      reported := Called(selectedValue);
    }

    /** Clear: the selection and the reported value become `undefined`. */
    method Clear() returns (reported: Emit<Option<real>>)
      modifies this
      ensures selectedValue.None? && reported == Called(None)
      ensures hoverValue == old(hoverValue)
    {
      selectedValue := None;
      reported := Called(None);
    }

    method MouseEnter(star: int)
      modifies this
      ensures hoverValue == Some(star) && selectedValue == old(selectedValue)
    {
      hoverValue := Some(star);
    }

    /** Leaving the row ends the hover, so the selection shows again. */
    method MouseLeave()
      modifies this
      ensures hoverValue.None? && selectedValue == old(selectedValue)
      ensures forall star :: IsFilled(star, hoverValue, selectedValue) <==>
        selectedValue.Some? && star as real <= selectedValue.value
    {
      hoverValue := None;
    }

    /** The value-sync effect: only a numeric value replaces the
        selection. */
    method ValueChanged(value: Option<real>)
      modifies this
      ensures selectedValue == (if value.Some? then value else old(selectedValue))
      ensures hoverValue == old(hoverValue)
    {
      if value.Some? {
        selectedValue := value;
      }
    }
  }
}
