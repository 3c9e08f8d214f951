/** The long-text field: a local answer that the text area shows, and the
    value each edit reports to the form. */
module TextLongField {
  import opened Prelude

  class TextLong {
    var answer: string

    /** The answer starts empty, whatever value the form holds. */
    constructor ()
      ensures answer == ""
    {
      answer := "";
    }

    /** `handleInputChange` as written: the new text becomes the answer,
        but the report carries the answer from before the edit. */
    method InputChange(newText: string) returns (reported: Emit<string>)
      modifies this
      ensures answer == newText
      ensures reported == Called(old(answer))
    {
      var previous := answer;
      answer := newText;
      reported := Called(previous);
    }

    /** The intended `handleInputChange`: the report carries the new text,
        so the form and the text area agree after every edit. */
    method InputChangeReportingNew(newText: string) returns (reported: Emit<string>)
      modifies this
      ensures answer == newText
      ensures reported == Called(answer)
    {
      answer := newText;
      reported := Called(newText);
    }

    /** Next is not gated by any check. */
    method NextClick() returns (next: Emit<int>)
      ensures next == Called(1)
    {
      next := Called(1);
    }
  }

  /** Typing "a" and then "ab" into a fresh field reports "" and then "a":
      the form never receives the text the field shows. */
  method TypingLagsOneEdit() returns (first: Emit<string>, second: Emit<string>, shown: string)
    ensures first == Called("") && second == Called("a") && shown == "ab"
    ensures second != Called(shown)
  {
    var field := new TextLong();
    first := field.InputChange("a");
    second := field.InputChange("ab");
    shown := field.answer;
  }

  /** With the intended handler the last report is always the shown text. */
  method TypingReportsShownText(edits: seq<string>) returns (last: Emit<string>, shown: string)
    requires |edits| > 0
    ensures shown == edits[|edits| - 1]
    ensures last == Called(shown)
  {
    var field := new TextLong();
    var i := 0;
    last := NotCalled;
    while i < |edits|
      invariant 0 <= i <= |edits|
      invariant i > 0 ==> field.answer == edits[i - 1] && last == Called(field.answer)
    {
      last := field.InputChangeReportingNew(edits[i]);
      i := i + 1;
    }
    shown := field.answer;
  }
}
