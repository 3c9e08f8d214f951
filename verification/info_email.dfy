/** The email field: the pattern `^[a-zA-Z0-9._%+-]+@[a-zA-Z0-9.-]+\.[a-zA-Z]{2,}$`
    as a recogniser, and the rule that only empty or matching input reaches
    the form. */
module InfoEmailField {
  import opened Prelude
  import opened Constants

  /** `[a-zA-Z0-9._%+-]`. */
  predicate IsLocalChar(c: char)
  {
    IsAsciiLetter(c) || IsDigit(c) || c == '.' || c == '_' || c == '%' || c == '+' || c == '-'
  }

  /** `[a-zA-Z0-9.-]`. */
  predicate IsDomainChar(c: char)
  {
    IsAsciiLetter(c) || IsDigit(c) || c == '.' || c == '-'
  }

  /** The runs of the pattern: a local part, a domain, and a final part of
      at least two letters after the last dot. */
  predicate PatternParts(local: string, domain: string, tld: string)
  {
    local != [] && AllChars(local, IsLocalChar) &&
    domain != [] && AllChars(domain, IsDomainChar) &&
    |tld| >= 2 && AllChars(tld, IsAsciiLetter)
  }

  /** Index of the last `c` in `s`. */
  function LastIndexOf(s: string, c: char): (r: Option<nat>)
    ensures r.None? <==> c !in s
    ensures r.Some? ==> r.value < |s| && s[r.value] == c && c !in s[r.value + 1..]
  {
    if s == [] then None
    else if s[|s| - 1] == c then Some(|s| - 1)
    else
      var r := LastIndexOf(s[..|s| - 1], c);
      assert s == s[..|s| - 1] + [s[|s| - 1]];
      r
  }

  /** The pattern's test. The local part runs up to the only '@'; the rest
      is domain characters whose last dot has a non-empty domain before it
      and two or more letters after it (the domain may contain dots too, so
      the last dot is the one the pattern's `\.` can match). */
  predicate MatchesEmailPattern(s: string)
  {
    var at := IndexOf(s, '@');
    0 < at < |s| && AllChars(s[..at], IsLocalChar) && IsDomainPart(s[at + 1..])
  }

  /** The part after the '@': domain characters whose last dot has text
      before it and two or more letters after it. */
  predicate IsDomainPart(rest: string)
  {
    AllChars(rest, IsDomainChar) &&
    var dot := LastIndexOf(rest, '.');
    dot.Some? && dot.value > 0 && |rest| - dot.value - 1 >= 2 &&
    AllChars(rest[dot.value + 1..], IsAsciiLetter)
  }

  lemma {:induction false} LastDotBeforeLetters(domain: string, tld: string)
    requires AllChars(tld, IsAsciiLetter)
    ensures LastIndexOf(domain + "." + tld, '.') == Some(|domain|)
  {
    if tld != [] {
      var s := domain + "." + tld;
      assert s[..|s| - 1] == domain + "." + tld[..|tld| - 1];
      assert s[|s| - 1] == tld[|tld| - 1];
      LastDotBeforeLetters(domain, tld[..|tld| - 1]);
    }
  }

  /** Every text made of the pattern's runs is accepted. */
  lemma PatternFromParts(local: string, domain: string, tld: string)
    requires PatternParts(local, domain, tld)
    ensures MatchesEmailPattern(local + "@" + domain + "." + tld)
  {
    var rest := domain + "." + tld;
    var s := local + "@" + rest;
    assert s == local + "@" + domain + "." + tld;
    LocalHasNoAt(local);
    IndexOfAt(local, '@', rest);
    assert s[..|local|] == local;
    assert s[|local| + 1..] == rest;
    RestIsDomain(domain, tld);
  }

  lemma LocalHasNoAt(local: string)
    requires AllChars(local, IsLocalChar)
    ensures '@' !in local
  {
    forall j | 0 <= j < |local| ensures local[j] != '@' { assert IsLocalChar(local[j]); }
  }

  /** The part after the '@' satisfies the domain half of the test. */
  lemma RestIsDomain(domain: string, tld: string)
    requires domain != [] && AllChars(domain, IsDomainChar)
    requires |tld| >= 2 && AllChars(tld, IsAsciiLetter)
    ensures IsDomainPart(domain + "." + tld)
  {
    var rest := domain + "." + tld;
    assert rest[|domain| + 1..] == tld;
    LastDotBeforeLetters(domain, tld);
    AllCharsConcat(domain, ".", IsDomainChar);
    forall j | 0 <= j < |tld| ensures IsDomainChar(tld[j]) { assert IsAsciiLetter(tld[j]); }
    AllCharsConcat(domain + ".", tld, IsDomainChar);
  }

  /** The local part, domain and final part of an accepted text. */
  function Local(s: string): string
    requires MatchesEmailPattern(s)
  {
    s[..IndexOf(s, '@')]
  }

  function Domain(s: string): string
    requires MatchesEmailPattern(s)
  {
    var rest := s[IndexOf(s, '@') + 1..];
    rest[..LastIndexOf(rest, '.').value]
  }

  function Tld(s: string): string
    requires MatchesEmailPattern(s)
  {
    var rest := s[IndexOf(s, '@') + 1..];
    rest[LastIndexOf(rest, '.').value + 1..]
  }

  /** Every accepted text consists of the pattern's runs. */
  lemma PatternToParts(s: string)
    requires MatchesEmailPattern(s)
    ensures s == Local(s) + "@" + Domain(s) + "." + Tld(s)
    ensures PatternParts(Local(s), Domain(s), Tld(s))
  {
    var at := IndexOf(s, '@');
    var rest := s[at + 1..];
    DomainPartSplits(rest);
    var dot := LastIndexOf(rest, '.').value;
    SplitAtTwo(s, at, '@', dot, '.');
  }

  /** The part after the '@' holds a non-empty domain before its last dot
      and two or more letters after it. */
  lemma DomainPartSplits(rest: string)
    requires IsDomainPart(rest)
    ensures var dot := LastIndexOf(rest, '.').value;
      rest[..dot] != [] && AllChars(rest[..dot], IsDomainChar) &&
      |rest[dot + 1..]| >= 2 && AllChars(rest[dot + 1..], IsAsciiLetter)
  {
    var dot := LastIndexOf(rest, '.').value;
    forall j | 0 <= j < dot ensures IsDomainChar(rest[..dot][j]) {
      assert rest[..dot][j] == rest[j];
    }
  }

  /** An accepted address holds exactly one '@'. */
  lemma ExactlyOneAt(s: string)
    requires MatchesEmailPattern(s)
    ensures Count(s, '@') == 1
  {
    var at := IndexOf(s, '@');
    DomainHasNoAt(s[at + 1..]);
    CountAround(s, at, '@');
  }

  lemma DomainHasNoAt(rest: string)
    requires AllChars(rest, IsDomainChar)
    ensures Count(rest, '@') == 0
  {
    forall j | 0 <= j < |rest| ensures rest[j] != '@' { assert IsDomainChar(rest[j]); }
  }

  /** A character that occurs only at `at` occurs exactly once. */
  lemma CountAround(s: string, at: nat, c: char)
    requires at < |s| && s[at] == c
    requires c !in s[..at] && Count(s[at + 1..], c) == 0
    ensures Count(s, c) == 1
  {
    var local, rest := s[..at], s[at + 1..];
    assert s == local + ([c] + rest);
    assert ([c] + rest)[1..] == rest;
    CountSplit(local, [c] + rest, c);
  }

  const InvalidEmailMessage := "Please enter a valid email address"

  /** `validateEmail`: the empty text is fine; otherwise the text must
      match the pattern. */
  function ValidateEmail(s: string): (message: string)
    ensures s == "" ==> message == ""
    ensures s != "" ==> (message == "" <==> MatchesEmailPattern(s))
    ensures message == "" || message == InvalidEmailMessage
  {
    if s == "" then ""
    else if !MatchesEmailPattern(s) then InvalidEmailMessage
    else ""
  }

  class InfoEmail {
    var answer: string
    var validationError: string

    /** The answer starts as the value, or "". */
    constructor (value: Option<string>)
      ensures answer == (if value.Some? then value.value else "")
      ensures validationError == ""
    {
      answer := if value.Some? then value.value else "";
      validationError := "";
    }

    /** `handleInputChange`: the text is always shown, but it is reported
        only when it is empty or valid. */
    method InputChange(newValue: string) returns (reported: Emit<string>)
      modifies this
      ensures answer == newValue
      ensures validationError == ValidateEmail(newValue)
      ensures reported.Called? <==> validationError == ""
      ensures reported.Called? ==> reported.arg == newValue
    {
      answer := newValue;
      var errorMsg := ValidateEmail(newValue);
      validationError := errorMsg;
      if errorMsg == "" {
        reported := Called(newValue);
      } else {
        reported := NotCalled;
      }
    }

    /** The value-sync effect: only a truthy value replaces the answer. */
    method ValueChanged(value: Option<string>)
      modifies this
      ensures answer == (if value.Some? && value.value != "" then value.value else old(answer))
      ensures validationError == old(validationError)
    {
      if value.Some? && value.value != "" {
        answer := value.value;
      }
    }
  }

  /** Whatever is typed, the form only ever receives "" or an address of
      the pattern, which has exactly one '@'. */
  method TypingReportsOnlyAddresses(edits: seq<string>) returns (received: seq<string>)
    ensures forall r :: r in received ==> r == "" || (MatchesEmailPattern(r) && Count(r, '@') == 1)
  {
    var field := new InfoEmail(None);
    received := [];
    for i := 0 to |edits|
      invariant forall r :: r in received ==> r == "" || (MatchesEmailPattern(r) && Count(r, '@') == 1)
    {
      var reported := field.InputChange(edits[i]);
      if reported.Called? {
        if reported.arg != "" {
          ExactlyOneAt(reported.arg);
        }
        received := received + [reported.arg];
      }
    }
  }
}
