/** What the choice fields share: the options they offer, the toggle of a
    multiple selection with its cap, and the sync of a single selection
    from the form's value. */
module Selection {
  import opened Prelude
  import opened CommonTypes

  /** `i.label?.trim().length`: the option has a label that is not blank. */
  predicate HasLabel(o: QuestionOption)
  {
    o.caption.Some? && !IsBlank(o.caption.value)
  }

  /** `question.options?.filter(i => i.label?.trim().length) || []`: the
      options with a label, in their original order. */
  function LabelledOptions(options: seq<QuestionOption>): (r: seq<QuestionOption>)
    ensures forall o :: o in r <==> o in options && HasLabel(o)
    ensures IsSubsequence(r, options)
  {
    FilterIsSubsequence(options, HasLabel);
    Filter(options, HasLabel)
  }

  /** No value occurs twice. */
  predicate Distinct(s: seq<string>)
  {
    forall i, j :: 0 <= i < j < |s| ==> s[i] != s[j]
  }

  /** The selection without `v`: `selectedValues.filter(x => x !== v)`. */
  function Without(s: seq<string>, v: string): (r: seq<string>)
    ensures v !in r
    ensures forall x :: x in r <==> x in s && x != v
    ensures |r| <= |s|
    ensures v in s ==> |r| < |s|
  {
    if s == [] then []
    else
      var rest := Without(s[1..], v);
      assert s == [s[0]] + s[1..];
      if s[0] != v then [s[0]] + rest else rest
  }

  lemma {:induction false} WithoutKeepsDistinct(s: seq<string>, v: string)
    requires Distinct(s)
    ensures Distinct(Without(s, v))
  {
    if s != [] {
      WithoutKeepsDistinct(s[1..], v);
      assert s[0] !in s[1..] by {
        forall k | 0 <= k < |s[1..]| ensures s[1..][k] != s[0] {
          assert s[1..][k] == s[k + 1];
        }
      }
    }
  }

  /** The cap on a multiple selection: `max` when it is a truthy number. */
  function Cap(m: Metadata): (c: Option<real>)
    ensures c == TruthyNumberOf(m.max)
  {
    TruthyNumberOf(m.max)
  }

  /** `handleToggle`: a selected value is removed (every occurrence of it);
      an unselected one is appended unless the selection already holds
      `cap` values, in which case the toggle is refused (`None`: nothing
      changes and nothing is reported). */
  function Toggle(selected: seq<string>, v: string, cap: Option<real>): (r: Option<seq<string>>)
    ensures v in selected ==> r == Some(Without(selected, v))
    ensures v !in selected && cap.Some? && |selected| as real >= cap.value ==> r.None?
    ensures v !in selected && !(cap.Some? && |selected| as real >= cap.value) ==> r == Some(selected + [v])
  {
    if v in selected then Some(Without(selected, v))
    else if cap.Some? && |selected| as real >= cap.value then None
    else Some(selected + [v])
  }

  /** A toggle keeps a selection free of duplicates. */
  lemma ToggleKeepsDistinct(selected: seq<string>, v: string, cap: Option<real>)
    requires Distinct(selected)
    requires Toggle(selected, v, cap).Some?
    ensures Distinct(Toggle(selected, v, cap).value)
  {
    if v in selected {
      WithoutKeepsDistinct(selected, v);
    }
  }

  /** A selection that starts within an integral cap stays within it. */
  lemma ToggleKeepsWithinCap(selected: seq<string>, v: string, k: nat)
    requires |selected| <= k
    requires Toggle(selected, v, Some(k as real)).Some?
    ensures |Toggle(selected, v, Some(k as real)).value| <= k
  {
  }

  /** Without a cap (no `max`, `max: 0`, or a non-numeric `max`), adding is
      never refused. */
  lemma NoCapNeverRefuses(m: Metadata, selected: seq<string>, v: string)
    requires !m.max.NumBound? || m.max.n == 0.0
    ensures Toggle(selected, v, Cap(m)).Some?
  {
  }

  /** Toggling a value on and then off again gives back the selection. */
  lemma {:induction false} ToggleTwiceRestores(selected: seq<string>, v: string, cap: Option<real>)
    requires v !in selected
    requires Toggle(selected, v, cap).Some?
    ensures Toggle(Toggle(selected, v, cap).value, v, cap) == Some(selected)
  {
    WithoutAbsent(selected, v);
    WithoutAppended(selected, v);
  }

  lemma {:induction false} WithoutAbsent(s: seq<string>, v: string)
    requires v !in s
    ensures Without(s, v) == s
  {
    if s != [] {
      WithoutAbsent(s[1..], v);
    }
  }

  lemma {:induction false} WithoutAppended(s: seq<string>, v: string)
    ensures Without(s + [v], v) == Without(s, v)
  {
    if s == [] {
      assert Without([v], v) == Without([], v);
    } else {
      assert (s + [v])[1..] == s[1..] + [v];
      WithoutAppended(s[1..], v);
    }
  }

  /** `if (value) setSelectedValue(value)`: a missing or empty value never
      overwrites the local selection. */
  function Synced(current: Option<string>, value: Option<string>): (r: Option<string>)
    ensures value.Some? && value.value != "" ==> r == value
    ensures value.None? || value.value == "" ==> r == current
  {
    if value.Some? && value.value != "" then value else current
  }
}
