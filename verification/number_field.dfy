/** The number field: the decimal input filter, `parseFloat` on the texts
    the filter lets through, the inclusive range check and the rules that
    decide what reaches `onChange`. */
module NumberField {
  import opened Prelude
  import opened CommonTypes

  /** The length of the longest prefix of decimal digits. */
  function DigitPrefix(s: string): (k: nat)
    ensures k <= |s| && AllChars(s[..k], IsDigit)
    ensures k < |s| ==> !IsDigit(s[k])
  {
    if s == [] || !IsDigit(s[0]) then 0
    else
      var k := 1 + DigitPrefix(s[1..]);
      assert s[..k] == [s[0]] + s[1..][..k - 1];
      k
  }

  /** The text after an optional leading '-'. */
  function Unsigned(s: string): (t: string)
    ensures StartsWith(s, "-") ==> t == s[1..]
    ensures !StartsWith(s, "-") ==> t == s
  {
    if |s| > 0 && s[0] == '-' then s[1..] else s
  }

  /** The input filter `-?\d*\.?\d*` (it accepts "" and "-" too). */
  predicate IsDecimalInput(s: string)
  {
    var t := Unsigned(s);
    var u := t[DigitPrefix(t)..];
    u == [] || (u[0] == '.' && AllChars(u[1..], IsDigit))
  }

  /** A text built from an optional sign, digits, and an optional point
      with digits passes the filter. */
  lemma DecimalInputFromParts(negative: bool, whole: string, point: bool, fraction: string)
    requires AllChars(whole, IsDigit) && AllChars(fraction, IsDigit)
    requires !point ==> fraction == []
    ensures IsDecimalInput((if negative then "-" else "") + whole + (if point then "." else "") + fraction)
  {
    var sign := if negative then "-" else "";
    var pt := if point then "." else "";
    var rest := pt + fraction;
    assert rest == [] || (rest[0] == '.' && rest[1..] == fraction) by {
      if !point { assert rest == fraction == []; } else { assert rest == "." + fraction; }
    }
    WholePrefix(whole, rest);
    SignedDecimal(sign, whole, pt, fraction);
  }

  /** A sign, whole digits, and a rest that is empty or a point followed by
      digits pass the filter. */
  lemma SignedDecimal(sign: string, whole: string, pt: string, fraction: string)
    requires sign == "-" || sign == ""
    requires AllChars(whole, IsDigit) && DigitPrefix(whole + (pt + fraction)) == |whole|
    requires var rest := pt + fraction; rest == [] || (rest[0] == '.' && AllChars(rest[1..], IsDigit))
    ensures IsDecimalInput(sign + whole + pt + fraction)
  {
    var rest := pt + fraction;
    var t := whole + rest;
    assert t == [] || t[0] != '-' by {
      if whole != [] { assert t[0] == whole[0] && IsDigit(whole[0]); }
      else { assert t == rest; }
    }
    UnsignedOfSigned(sign, t);
    assert t[|whole|..] == rest;
    DecimalOf(sign + t, t, |whole|, rest);
    Regroup(sign, whole, pt, fraction);
  }

  lemma UnsignedOfSigned(sign: string, t: string)
    requires sign == "-" || sign == ""
    requires t == [] || t[0] != '-'
    ensures Unsigned(sign + t) == t
  {
    if sign == "-" { assert (sign + t)[1..] == t; } else { assert sign + t == t; }
  }

  lemma DecimalOf(s: string, t: string, k: nat, rest: string)
    requires Unsigned(s) == t && DigitPrefix(t) == k && t[k..] == rest
    requires rest == [] || (rest[0] == '.' && AllChars(rest[1..], IsDigit))
    ensures IsDecimalInput(s)
  {
  }

  lemma Regroup(a: string, b: string, c: string, d: string)
    ensures a + b + c + d == a + (b + (c + d))
  {
  }

  lemma {:induction false} WholePrefix(whole: string, rest: string)
    requires AllChars(whole, IsDigit)
    requires rest == [] || !IsDigit(rest[0])
    ensures DigitPrefix(whole + rest) == |whole|
  {
    if whole != [] {
      assert (whole + rest)[1..] == whole[1..] + rest;
      WholePrefix(whole[1..], rest);
    } else {
      assert whole + rest == rest;
    }
  }

  /** The digits before the point. */
  function WholeDigits(s: string): (w: string)
    ensures AllChars(w, IsDigit)
  {
    var t := Unsigned(s);
    t[..DigitPrefix(t)]
  }

  /** The digits after the point (empty when there is no point). */
  function FractionDigits(s: string): (f: string)
    requires IsDecimalInput(s)
    ensures AllChars(f, IsDigit)
  {
    var t := Unsigned(s);
    var k := DigitPrefix(t);
    if k < |t| then t[k + 1..] else []
  }

  /** The text holds at least one digit. */
  predicate HasDigit(s: string)
  {
    exists i :: 0 <= i < |s| && IsDigit(s[i])
  }

  function Pow10(n: nat): (p: nat)
    ensures p > 0
  {
    if n == 0 then 1 else 10 * Pow10(n - 1)
  }

  /** The value of whole digits `w` and fraction digits `f`: w.f */
  function Magnitude(w: string, f: string): (m: real)
    requires AllChars(w, IsDigit) && AllChars(f, IsDigit)
    ensures m >= 0.0
  {
    var q := Fraction(DigitsValue(f), Pow10(|f|));
    DigitsValue(w) as real + q
  }

  function Fraction(n: nat, d: nat): (q: real)
    requires d > 0
    ensures q >= 0.0
  {
    n as real / d as real
  }

  /** `parseFloat` on a text the filter accepted: `None` (NaN) when there
      is no digit, else the signed value of whole and fractional digits. */
  function ParseDecimal(s: string): (v: Option<real>)
    requires IsDecimalInput(s)
    ensures v.None? <==> WholeDigits(s) == [] && FractionDigits(s) == []
    ensures v.Some? && !StartsWith(s, "-") ==> v.value >= 0.0
    ensures v.Some? && StartsWith(s, "-") ==> v.value <= 0.0
  {
    var w := WholeDigits(s);
    var f := FractionDigits(s);
    if w == [] && f == [] then None
    else
      var magnitude := Magnitude(w, f);
      Some(if StartsWith(s, "-") then -magnitude else magnitude)
  }

  /** On accepted texts, `parseFloat` is NaN exactly when there is no
      digit: "", "-", "." and "-.". */
  lemma {:induction false} NaNIffNoDigit(s: string)
    requires IsDecimalInput(s)
    ensures ParseDecimal(s).None? <==> !HasDigit(s)
  {
    var t := Unsigned(s);
    var k := DigitPrefix(t);
    AcceptedShape(s);
    DigitsAroundPoint(t, k);
    HasDigitUnsigned(s);
  }

  /** What the filter leaves after the whole digits: nothing, or a point
      followed by digits. */
  lemma AcceptedShape(s: string)
    requires IsDecimalInput(s)
    ensures var t := Unsigned(s); var k := DigitPrefix(t);
      k == |t| || (t[k] == '.' && AllChars(t[k + 1..], IsDigit))
  {
    var t := Unsigned(s);
    var k := DigitPrefix(t);
    if k < |t| {
      assert t[k..][1..] == t[k + 1..];
    }
  }

  /** Digits, then optionally a point and digits: there is a digit iff
      there are whole digits or fraction digits. */
  lemma DigitsAroundPoint(t: string, k: nat)
    requires k <= |t| && AllChars(t[..k], IsDigit)
    requires k == |t| || (t[k] == '.' && AllChars(t[k + 1..], IsDigit))
    ensures HasDigit(t) <==> k > 0 || k + 1 < |t|
  {
    if k > 0 {
      assert t[..k][0] == t[0];
    } else if k + 1 < |t| {
      assert t[k + 1..][0] == t[k + 1];
    }
    if HasDigit(t) {
      var i :| 0 <= i < |t| && IsDigit(t[i]);
      assert i != k || k == |t|;
    }
  }

  /** The sign is not a digit. */
  lemma HasDigitUnsigned(s: string)
    ensures HasDigit(s) <==> HasDigit(Unsigned(s))
  {
    var t := Unsigned(s);
    if StartsWith(s, "-") {
      if HasDigit(s) {
        var i :| 0 <= i < |s| && IsDigit(s[i]);
        assert i > 0 && t[i - 1] == s[i];
      }
      if HasDigit(t) {
        var i :| 0 <= i < |t| && IsDigit(t[i]);
        assert s[i + 1] == t[i];
      }
    }
  }

  /** Among the texts the filter accepts, "Please enter a valid number"
      is shown exactly for the non-empty ones without a digit. */
  lemma InvalidExactlyWithoutDigit(m: Metadata, s: string)
    requires IsDecimalInput(s) && s != ""
    ensures ValidateNumber(m, s) == NotANumber <==> !HasDigit(s)
  {
    NaNIffNoDigit(s);
  }

  /** The messages of `validateNumber`. */
  datatype NumberError =
    | NoError
    | NotANumber          // "Please enter a valid number"
    | NotBetween(min: real, max: real) // "Value must be between <min> and <max>"
    | BelowMin(min: real) // "Value must be at least <min>"
    | AboveMax(max: real) // "Value must be at most <max>"

  /** `validateNumber`: the empty text is fine; a numeric bound counts even
      when it is 0, and both bounds are inclusive. */
  function ValidateNumber(m: Metadata, s: string): (e: NumberError)
    requires IsDecimalInput(s)
    ensures s == "" ==> e == NoError
    ensures s != "" ==> (e == NotANumber <==> ParseDecimal(s).None?)
    ensures e.NotBetween? ==> (m.min.NumBound? && m.max.NumBound? &&
      (ParseDecimal(s).value < m.min.n || ParseDecimal(s).value > m.max.n))
    ensures e.BelowMin? ==> m.min.NumBound? && !m.max.NumBound? && ParseDecimal(s).value < m.min.n
    ensures e.AboveMax? ==> !m.min.NumBound? && m.max.NumBound? && ParseDecimal(s).value > m.max.n
    ensures e == NoError && s != "" ==> ParseDecimal(s).Some? && InRange(m, ParseDecimal(s).value)
  {
    if s == "" then NoError
    else
      var v := ParseDecimal(s);
      if v.None? then NotANumber
      else
        var min := NumberOf(m.min);
        var max := NumberOf(m.max);
        if min.Some? && max.Some? then
          if v.value < min.value || v.value > max.value then NotBetween(min.value, max.value) else NoError
        else if min.Some? then
          if v.value < min.value then BelowMin(min.value) else NoError
        else if max.Some? then
          if v.value > max.value then AboveMax(max.value) else NoError
        else NoError
  }

  /** The value lies within every numeric bound; the bounds themselves are
      allowed. */
  predicate InRange(m: Metadata, v: real)
  {
    (m.min.NumBound? ==> m.min.n <= v) && (m.max.NumBound? ==> v <= m.max.n)
  }

  /** The inclusive range is exactly what `validateNumber` accepts. */
  lemma RangeIsInclusive(m: Metadata, s: string)
    requires IsDecimalInput(s) && s != "" && ParseDecimal(s).Some?
    ensures ValidateNumber(m, s) == NoError <==> InRange(m, ParseDecimal(s).value)
  {
  }

  /** What `handleInputChange` reports: the number for a complete,
      error-free text, `undefined` for the empty text, nothing otherwise. */
  function Reported(m: Metadata, s: string): (r: Emit<Option<real>>)
    requires IsDecimalInput(s)
    ensures s == "" ==> r == Called(None)
    ensures r.Called? && r.arg.Some? ==>
      s != "" && ValidateNumber(m, s) == NoError && s[|s| - 1] != '.' &&
      ParseDecimal(s) == r.arg && InRange(m, r.arg.value)
    ensures s != "" && ValidateNumber(m, s) == NoError && s[|s| - 1] != '.' ==> r.Called?
    ensures r.Called? && r.arg.None? ==> s == ""
  {
    var e := ValidateNumber(m, s);
    if s != "" && e == NoError && s != "-" && s != "." && s[|s| - 1] != '.' then Called(ParseDecimal(s))
    else if s == "" then Called(None)
    else NotCalled
  }

  class NumberInput {
    const question: Question
    var answer: string
    var validationError: NumberError

    predicate Valid()
      reads this
    {
      IsDecimalInput(answer)
    }

    /** `answer` starts as the text of the value prop, or "". */
    constructor (question: Question, initial: string)
      requires IsDecimalInput(initial)
      ensures Valid() && this.question == question
      ensures answer == initial && validationError == NoError
    {
      this.question := question;
      answer := initial;
      validationError := NoError;
    }

    /** `handleInputChange`: a text outside the filter changes nothing and
        reports nothing; an accepted one becomes the answer, is validated,
        and is reported as `Reported` says. */
    method InputChange(s: string) returns (reported: Emit<Option<real>>)
      requires Valid()
      modifies this
      ensures Valid()
      ensures !IsDecimalInput(s) ==>
        reported.NotCalled? && answer == old(answer) && validationError == old(validationError)
      ensures IsDecimalInput(s) ==>
        answer == s && validationError == ValidateNumber(question.metadata, s) &&
        reported == Reported(question.metadata, s)
    {
      if s == "" || s == "-" || IsDecimalInput(s) {
        if s == "-" {
          assert Unsigned(s) == [];
        }
        answer := s;
        var errorMsg := ValidateNumber(question.metadata, s);
        validationError := errorMsg;
        if s != "" && errorMsg == NoError && s != "-" && s != "." && s[|s| - 1] != '.' {
          reported := Called(ParseDecimal(s));
        } else if s == "" {
          reported := Called(None);
        } else {
          reported := NotCalled;
        }
      } else {
        reported := NotCalled;
      }
    }

    /** `handleBlur`: a non-empty answer is validated again. */
    method Blur()
      requires Valid()
      modifies this
      ensures Valid() && answer == old(answer)
      ensures old(answer) != "" ==> validationError == ValidateNumber(question.metadata, answer)
      ensures old(answer) == "" ==> validationError == old(validationError)
    {
      if answer != "" {
        validationError := ValidateNumber(question.metadata, answer);
      }
    }

    /** Next and Submit are not gated by validation. */
    method NextClick() returns (next: Emit<int>)
      ensures next == Called(1)
    {
      next := Called(1);
    }
  }
}
