/** The 0–10 rating: one button per integer from `min` to `max`. */
module RatingZeroToTenField {
  import opened Prelude
  import opened CommonTypes

  /** `min` and `max` when they are numbers, else 0 and 10. */
  function RangeOf(m: Metadata): (r: (real, real))
    ensures r.0 == (if m.min.NumBound? then m.min.n else 0.0)
    ensures r.1 == (if m.max.NumBound? then m.max.n else 10.0)
  {
    (if m.min.NumBound? then m.min.n else 0.0, if m.max.NumBound? then m.max.n else 10.0)
  }

  /** `Array.from({ length: max - min + 1 }, (_, i) => min + i)`. */
  function Ratings(min: real, max: real): (r: seq<real>)
    ensures |r| == ArrayLength(max - min + 1.0)
    ensures forall i :: 0 <= i < |r| ==> r[i] == min + i as real
  {
    seq(ArrayLength(max - min + 1.0), i => min + i as real)
  }

  /** The buttons run over consecutive values from `min`; there is none
      exactly when `max < min`, and `max - min + 1` for integral bounds. */
  lemma RatingsShape(min: real, max: real)
    ensures Ratings(min, max) == [] <==> max < min
    ensures Ratings(min, max) != [] ==> Ratings(min, max)[0] == min
    ensures forall i :: 0 < i < |Ratings(min, max)| ==> Ratings(min, max)[i] == Ratings(min, max)[i - 1] + 1.0
    ensures (max - min).Floor as real == max - min && min <= max ==>
      |Ratings(min, max)| == (max - min).Floor + 1
  {
  }

  /** Without bounds the buttons are 0 through 10. */
  lemma DefaultRatings()
    ensures Ratings(RangeOf(NoMetadata).0, RangeOf(NoMetadata).1) ==
      [0.0, 1.0, 2.0, 3.0, 4.0, 5.0, 6.0, 7.0, 8.0, 9.0, 10.0]
  {
  }

  class RatingZeroToTen {
    const question: Question
    var selectedValue: Option<real>

    constructor (question: Question, value: Option<real>)
      ensures this.question == question && selectedValue == value
    {
      this.question := question;
      selectedValue := value;
    }

    /** `handleSelect`: the rating becomes the selection and is reported. */
    method HandleSelect(rating: real) returns (reported: Emit<real>)
      modifies this
      ensures selectedValue == Some(rating) && reported == Called(rating)
    {
      selectedValue := Some(rating);
      reported := Called(rating);
    }

    /** The button highlighted: only the rating equal to the selection. */
    function IsSelected(rating: real): (selected: bool)
      reads this
      ensures selected <==> selectedValue.Some? && selectedValue.value == rating
    {
      selectedValue == Some(rating)
    }

    method ValueChanged(value: Option<real>)
      modifies this
      ensures selectedValue == (if value.Some? then value else old(selectedValue))
    {
      if value.Some? {
        selectedValue := value;
      }
    }

    /** Next fires without a required check. */
    method NextClick() returns (next: Emit<int>)
      ensures next == Called(1)
    {
      next := Called(1);
    }
  }

  /** After selecting a listed rating, exactly one button is highlighted. */
  method SelectHighlightsOne(q: Question, i: nat) returns (highlighted: seq<bool>)
    requires i < |Ratings(RangeOf(q.metadata).0, RangeOf(q.metadata).1)|
    ensures var ratings := Ratings(RangeOf(q.metadata).0, RangeOf(q.metadata).1);
      |highlighted| == |ratings| &&
      forall j :: 0 <= j < |ratings| ==> (highlighted[j] <==> j == i)
  {
    var ratings := Ratings(RangeOf(q.metadata).0, RangeOf(q.metadata).1);
    var field := new RatingZeroToTen(q, None);
    var _ := field.HandleSelect(ratings[i]);
    highlighted := seq(|ratings|, j requires 0 <= j < |ratings| reads field => field.IsSelected(ratings[j]));
  }
}
