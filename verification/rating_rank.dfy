/** The rank rating: a select over the texts "1" to "10" whose choice is
    reported as a number. */
module RatingRankField {
  import opened Prelude

  /** `Array.from({ length: 10 }, (_, i) => (i + 1).toString())`. */
  function RankOptions(): (r: seq<string>)
    ensures |r| == 10
    ensures forall i :: 0 <= i < 10 ==> r[i] == NatToString(i + 1)
  {
    seq(10, i requires 0 <= i < 10 => NatToString(i + 1))
  }

  /** `parseInt` of an option's text. */
  function ParseRank(s: string): (n: nat)
    requires AllChars(s, IsDigit)
  {
    DigitsValue(s)
  }

  /** The options read "1", "2", … "10", and option k parses back to k. */
  lemma {:induction false} OptionsParseBack()
    ensures RankOptions() == ["1", "2", "3", "4", "5", "6", "7", "8", "9", "10"]
    ensures forall i :: 0 <= i < 10 ==> ParseRank(RankOptions()[i]) == i + 1
  {
    forall i | 0 <= i < 10
      ensures ParseRank(RankOptions()[i]) == i + 1
    {
      DigitsRoundTrip(i + 1);
    }
    OptionsText();
  }

  /** The option texts, written out. */
  lemma OptionsText()
    ensures RankOptions() == ["1", "2", "3", "4", "5", "6", "7", "8", "9", "10"]
  {
    var r := RankOptions();
    assert r[0] == "1" && r[1] == "2" && r[2] == "3" && r[3] == "4" && r[4] == "5";
    assert r[5] == "6" && r[6] == "7" && r[7] == "8" && r[8] == "9";
    assert r[9] == NatToString(1) + [DigitChar(0)] == "10";
  }

  class RatingRank {
    var selectedValue: string

    /** The selection starts empty. */
    constructor ()
      ensures selectedValue == ""
    {
      selectedValue := "";
    }

    /** `handleValueChange`: the option becomes the selection and its
        integer is reported. */
    method HandleValueChange(option: string) returns (reported: Emit<nat>)
      requires AllChars(option, IsDigit)
      modifies this
      ensures selectedValue == option && reported == Called(ParseRank(option))
    {
      selectedValue := option;
      reported := Called(ParseRank(option));
    }

    /** The value-sync effect: a truthy number becomes its text; 0 and a
        missing value leave the selection. */
    method ValueChanged(value: Option<nat>)
      modifies this
      ensures value.Some? && value.value != 0 ==> selectedValue == NatToString(value.value)
      ensures value.None? || value.value == 0 ==> selectedValue == old(selectedValue)
    {
      if value.Some? && value.value != 0 {
        selectedValue := NatToString(value.value);
      }
    }

    /** Next fires without a required check. */
    method NextClick() returns (next: Emit<int>)
      ensures next == Called(1)
    {
      next := Called(1);
    }
  }

  /** Choosing option k reports k, and feeding k back as the value selects
      the same option: n → "n" → n round-trips for every rank. */
  method ChooseThenSync(k: nat) returns (reported: Emit<nat>, shown: string)
    requires 1 <= k <= 10
    ensures reported == Called(k)
    ensures shown == RankOptions()[k - 1]
    ensures ParseRank(shown) == k
  {
    OptionsParseBack();
    var field := new RatingRank();
    reported := field.HandleValueChange(RankOptions()[k - 1]);
    field.ValueChanged(Some(reported.arg));
    shown := field.selectedValue;
  }
}
