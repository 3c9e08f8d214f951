/** The phone field: the character and length checks, the countries on
    offer, the stored text `<dialCode>-<number>` and its parse back into a
    country and a number. */
module InfoPhoneField {
  import opened Prelude
  import opened CommonTypes
  import opened Constants

  /** `[\d\s()+-]`. */
  predicate IsPhoneChar(c: char)
  {
    IsDigit(c) || IsSpace(c) || c == '(' || c == ')' || c == '+' || c == '-'
  }

  /** `number.replace(/\D/g, '').length`. */
  function DigitCount(s: string): (n: nat)
    ensures n <= |s|
    ensures n == |Filter(s, IsDigit)|
  {
    |Filter(s, IsDigit)|
  }

  const InvalidPhoneMessage := "Please enter a valid phone number"
  const ShortPhoneMessage := "Phone number is too short"

  /** `validatePhoneNumber`: the empty text is fine; the character check
      comes before the length check. */
  function ValidatePhone(s: string): (message: string)
    ensures s == "" ==> message == ""
    ensures s != "" && !AllChars(s, IsPhoneChar) ==> message == InvalidPhoneMessage
    ensures s != "" && AllChars(s, IsPhoneChar) && DigitCount(s) < 6 ==> message == ShortPhoneMessage
    ensures message == "" <==> s == "" || (AllChars(s, IsPhoneChar) && DigitCount(s) >= 6)
  {
    if s == "" then ""
    else if !AllChars(s, IsPhoneChar) then InvalidPhoneMessage
    else if DigitCount(s) < 6 then ShortPhoneMessage
    else ""
  }

  /** A text with a letter is refused as invalid even when it is short. */
  lemma CharactersCheckedFirst()
    ensures ValidatePhone("12a") == InvalidPhoneMessage
  {
    assert !IsPhoneChar("12a"[2]);
  }

  /** The countries offered: all of them unless `allowAnyCountry` is
      exactly false, and then those listed in `allowedCountries`, in table
      order (none when the list is missing). */
  function AvailableCountries(m: Metadata): (r: seq<CountryOption>)
    ensures m.allowAnyCountry != Some(false) ==> r == Countries
    ensures m.allowAnyCountry == Some(false) ==>
      (forall c :: c in r <==> c in Countries && Allowed(m, c)) && IsSubsequence(r, Countries)
  {
    if m.allowAnyCountry != Some(false) then Countries
    else
      AllowedFilter(Countries, m);
      Filter(Countries, c => Allowed(m, c))
  }

  /** The country's code is in `allowedCountries`. */
  predicate Allowed(m: Metadata, c: CountryOption)
  {
    m.allowedCountries.Some? && c.code in m.allowedCountries.value
  }

  lemma AllowedFilter(table: seq<CountryOption>, m: Metadata)
    ensures var r := Filter(table, c => Allowed(m, c));
      (forall c :: c in r <==> c in table && Allowed(m, c)) && IsSubsequence(r, table)
  {
    FilterIsSubsequence(table, c => Allowed(m, c));
  }

  /** `availableCountries[0]?.code || "US"`. */
  function InitialCountry(available: seq<CountryOption>): (code: string)
    ensures |available| > 0 && available[0].code != "" ==> code == available[0].code
    ensures |available| == 0 ==> code == "US"
  {
    if |available| > 0 && available[0].code != "" then available[0].code else "US"
  }

  /** The first country of the table with this code. */
  function ByCode(code: string): Option<CountryOption>
  {
    Find(Countries, (c: CountryOption) => c.code == code)
  }

  /** The first country of the table with this dial code. */
  function ByDialCode(dial: string): Option<CountryOption>
  {
    Find(Countries, (c: CountryOption) => c.dialCode == dial)
  }

  /** `updateValue`: `undefined` for an empty number, the text
      `<dialCode>-<number>` for a known country, and no report for an
      unknown one. */
  function StoredValue(code: string, number: string): (r: Emit<Option<string>>)
    ensures number == "" ==> r == Called(None)
    ensures number != "" && ByCode(code).None? ==> r.NotCalled?
    ensures number != "" && ByCode(code).Some? ==>
      r == Called(Some(ByCode(code).value.dialCode + "-" + number))
  {
    if number == "" then Called(None)
    else
      var country := ByCode(code);
      if country.Some? then Called(Some(country.value.dialCode + "-" + number))
      else NotCalled
  }

  /** The value-parsing effect: a text that splits on '-' into exactly two
      parts, the first a known dial code, gives the first country with
      that dial code and the second part as the number. */
  function ParseStored(value: string): (r: Option<(string, string)>)
    ensures r.Some? ==> Count(value, '-') == 1
  {
    if Count(value, '-') != 1 then None
    else
      var k := IndexOf(value, '-');
      var country := ByDialCode(value[..k]);
      if country.Some? then Some((country.value.code, value[k + 1..])) else None
  }

  lemma {:induction false} IndexOfSplit(a: string, c: char, b: string)
    requires c !in a
    ensures IndexOf(a + [c] + b, c) == |a|
  {
    if a != [] {
      assert (a + [c] + b)[1..] == a[1..] + [c] + b;
      IndexOfSplit(a[1..], c, b);
    }
  }

  /** A stored value parses back to the number and to the first country
      sharing the dial code, when the number has no '-'. */
  lemma StoredParsesBack(c: CountryOption, number: string)
    requires c in Countries && number != "" && '-' !in number
    ensures var d := ByDialCode(c.dialCode);
      d.Some? && d.value.dialCode == c.dialCode &&
      ParseStored(c.dialCode + "-" + number) == Some((d.value.code, number))
  {
    CountryTable();
    var s := c.dialCode + "-" + number;
    assert s == c.dialCode + ['-'] + number;
    CountSplit(c.dialCode, "-" + number, '-');
    assert ("-" + number)[1..] == number;
    assert s == c.dialCode + ("-" + number);
    IndexOfSplit(c.dialCode, '-', number);
    assert s[..|c.dialCode|] == c.dialCode;
    assert s[|c.dialCode| + 1..] == number;
  }

  /** A number containing '-' is not restored. */
  lemma DashedNumberNotRestored(c: CountryOption, number: string)
    requires '-' in number
    ensures ParseStored(c.dialCode + "-" + number) == None
  {
    CountSplit(c.dialCode + "-", number, '-');
    CountSplit(c.dialCode, "-", '-');
  }

  /** The United States come first in the table, so "+1" resolves to
      them. */
  lemma UnitedStatesFirst()
    ensures Countries[0].code == "US" && Countries[0].dialCode == "+1"
    ensures ByCode("US") == Some(Countries[0])
    ensures ByDialCode("+1") == Some(Countries[0])
  {
  }

  /** A Canadian number comes back as a US one: both share "+1". */
  lemma CanadaComesBackAsUS(number: string)
    requires number != "" && '-' !in number
    ensures Countries[1].code == "CA"
    ensures ParseStored(Countries[1].dialCode + "-" + number) == Some(("US", number))
  {
    UnitedStatesFirst();
    assert Countries[1].code == "CA" && Countries[1].dialCode == "+1";
    StoredParsesBack(Countries[1], number);
  }

  class InfoPhone {
    const question: Question
    const availableCountries: seq<CountryOption>
    var selectedCountry: string
    var phoneNumber: string
    var validationError: string

    /** The first country on offer is selected, or "US" when none is. */
    constructor (question: Question)
      ensures this.question == question
      ensures availableCountries == AvailableCountries(question.metadata)
      ensures selectedCountry == InitialCountry(availableCountries)
      ensures phoneNumber == "" && validationError == ""
    {
      this.question := question;
      availableCountries := AvailableCountries(question.metadata);
      selectedCountry := InitialCountry(AvailableCountries(question.metadata));
      phoneNumber := "";
      validationError := "";
    }

    /** `handleCountryChange`: the country is selected and the value is
        stored again with the current number, without validating it. */
    method CountryChange(code: string) returns (reported: Emit<Option<string>>)
      modifies this
      ensures selectedCountry == code
      ensures reported == StoredValue(code, phoneNumber)
      ensures phoneNumber == old(phoneNumber) && validationError == old(validationError)
    {
      selectedCountry := code;
      reported := StoredValue(code, phoneNumber);
    }

    /** `handlePhoneChange`: the number is always shown; the value is
        stored only when the number passes validation. */
    method PhoneChange(number: string) returns (reported: Emit<Option<string>>)
      modifies this
      ensures phoneNumber == number && selectedCountry == old(selectedCountry)
      ensures validationError == ValidatePhone(number)
      ensures validationError != "" ==> reported.NotCalled?
      ensures validationError == "" ==> reported == StoredValue(selectedCountry, number)
    {
      phoneNumber := number;
      var errorMsg := ValidatePhone(number);
      validationError := errorMsg;
      if errorMsg == "" {
        reported := StoredValue(selectedCountry, number);
      } else {
        reported := NotCalled;
      }
    }

    /** The value-parsing effect, for a non-empty string value. */
    method ValueChanged(value: string)
      modifies this
      ensures var parsed := ParseStored(value);
        if value != "" && parsed.Some? then selectedCountry == parsed.value.0 && phoneNumber == parsed.value.1
        else selectedCountry == old(selectedCountry) && phoneNumber == old(phoneNumber)
      ensures validationError == old(validationError)
    {
      var parsed := ParseStored(value);
      if value != "" && parsed.Some? {
        selectedCountry, phoneNumber := parsed.value.0, parsed.value.1;
      }
    }
  }

  /** A valid number typed for a listed country is stored as
      `<dialCode>-<number>`, and parsing that value restores the number. */
  method TypeThenRestore(q: Question, number: string) returns (stored: Emit<Option<string>>, restored: string)
    requires number != "" && '-' !in number && ValidatePhone(number) == ""
    requires q.metadata.allowAnyCountry.None?
    ensures stored.Called? && stored.arg.Some?
    ensures restored == number
  {
    UnitedStatesFirst();
    var field := new InfoPhone(q);
    assert field.selectedCountry == "US";
    stored := field.PhoneChange(number);
    StoredParsesBack(Countries[0], number);
    field.ValueChanged(stored.arg.value);
    restored := field.phoneNumber;
  }
}
