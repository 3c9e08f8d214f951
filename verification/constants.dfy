/** The constant country table and the two fixed regular expressions of the
    application (`REGEX.uuid`, `REGEX.email`), written as recognisers over
    strings. */
module Constants {
  import opened Prelude
  import opened CommonTypes

  /** `COUNTRIES`, in table order (the emoji flags are not modelled). */
  const Countries: seq<CountryOption> := [
    CountryOption("US", "+1", "United States"),
    CountryOption("CA", "+1", "Canada"),
    CountryOption("GB", "+44", "United Kingdom"),
    CountryOption("DE", "+49", "Germany"),
    CountryOption("FR", "+33", "France"),
    CountryOption("IN", "+91", "India"),
    CountryOption("AU", "+61", "Australia"),
    CountryOption("JP", "+81", "Japan"),
    CountryOption("CN", "+86", "China"),
    CountryOption("BR", "+55", "Brazil"),
    CountryOption("ZA", "+27", "South Africa"),
    CountryOption("NG", "+234", "Nigeria"),
    CountryOption("AE", "+971", "United Arab Emirates"),
    CountryOption("SG", "+65", "Singapore"),
    CountryOption("ES", "+34", "Spain"),
    CountryOption("IT", "+39", "Italy"),
    CountryOption("SE", "+46", "Sweden"),
    CountryOption("NL", "+31", "Netherlands"),
    CountryOption("CH", "+41", "Switzerland"),
    CountryOption("MX", "+52", "Mexico")
  ]

  /** A dial code is `+` followed by one or more decimal digits. */
  predicate IsDialCode(d: string)
  {
    |d| >= 2 && d[0] == '+' && AllChars(d[1..], IsDigit)
  }

  lemma CountryTable()
    ensures |Countries| == 20
    ensures forall i, j :: 0 <= i < j < |Countries| ==> Countries[i].code != Countries[j].code
    ensures forall i :: 0 <= i < |Countries| ==> IsDialCode(Countries[i].dialCode) && '-' !in Countries[i].dialCode
    ensures Countries[0].code == "US" && Countries[1].code == "CA"
    ensures Countries[0].dialCode == Countries[1].dialCode == "+1"
  {
    CountryCodesDistinct();
    CountryDialCodes();
  }

  lemma CountryCodesDistinct()
    ensures forall i, j :: 0 <= i < j < |Countries| ==> Countries[i].code != Countries[j].code
  {
  }

  lemma CountryDialCodes()
    ensures forall i :: 0 <= i < |Countries| ==> IsDialCode(Countries[i].dialCode) && '-' !in Countries[i].dialCode
  {
  }

  // ---------------------------------------------------------------------
  // REGEX.uuid: /^[0-9a-f]{8}-[0-9a-f]{4}-[1-5][0-9a-f]{3}-[89ab][0-9a-f]{3}-[0-9a-f]{12}$/i

  /** `[0-9a-f]` under the `i` flag. */
  predicate IsHex(c: char)
  {
    IsDigit(c) || 'a' <= c <= 'f' || 'A' <= c <= 'F'
  }

  /** What the pattern allows at position `i` of a 36-character string. */
  predicate UuidCharAt(i: int, c: char)
  {
    if i == 8 || i == 13 || i == 18 || i == 23 then c == '-'
    else if i == 14 then '1' <= c <= '5'
    else if i == 19 then c == '8' || c == '9' || c == 'a' || c == 'b' || c == 'A' || c == 'B'
    else IsHex(c)
  }

  /** `REGEX.uuid.test(s)`. */
  predicate IsUuid(s: string)
  {
    |s| == 36 && forall i :: 0 <= i < 36 ==> UuidCharAt(i, s[i])
  }

  /** The five hyphen-separated groups the pattern describes: 8, 4, 4, 4 and
      12 hex digits, the third group starting with the version digit 1-5
      and the fourth with the variant digit 8, 9, a or b. */
  predicate UuidGroups(g1: string, g2: string, g3: string, g4: string, g5: string)
  {
    |g1| == 8 && |g2| == 4 && |g3| == 4 && |g4| == 4 && |g5| == 12 &&
    AllChars(g1, IsHex) && AllChars(g2, IsHex) && AllChars(g3, IsHex) &&
    AllChars(g4, IsHex) && AllChars(g5, IsHex) &&
    '1' <= g3[0] <= '5' &&
    (g4[0] == '8' || g4[0] == '9' || g4[0] == 'a' || g4[0] == 'b' || g4[0] == 'A' || g4[0] == 'B')
  }

  function UuidJoin(g1: string, g2: string, g3: string, g4: string, g5: string): string
  {
    g1 + "-" + g2 + "-" + g3 + "-" + g4 + "-" + g5
  }

  /** Every string built from well-formed groups is accepted. */
  lemma UuidFromGroups(g1: string, g2: string, g3: string, g4: string, g5: string)
    requires UuidGroups(g1, g2, g3, g4, g5)
    ensures IsUuid(UuidJoin(g1, g2, g3, g4, g5))
  {
    var s := UuidJoin(g1, g2, g3, g4, g5);
    assert |s| == 36;
    forall i | 0 <= i < 36 ensures UuidCharAt(i, s[i]) {
      if i < 8 { assert s[i] == g1[i]; }
      else if i == 8 { assert s[i] == '-'; }
      else if i < 13 { assert s[i] == g2[i - 9]; }
      else if i == 13 { assert s[i] == '-'; }
      else if i < 18 { assert s[i] == g3[i - 14]; }
      else if i == 18 { assert s[i] == '-'; }
      else if i < 23 { assert s[i] == g4[i - 19]; }
      else if i == 23 { assert s[i] == '-'; }
      else { assert s[i] == g5[i - 24]; }
    }
  }

  /** Every accepted string splits into well-formed groups. */
  lemma UuidToGroups(s: string)
    requires IsUuid(s)
    ensures UuidGroups(s[..8], s[9..13], s[14..18], s[19..23], s[24..])
    ensures s == UuidJoin(s[..8], s[9..13], s[14..18], s[19..23], s[24..])
  {
    assert UuidCharAt(8, s[8]) && UuidCharAt(13, s[13]) && UuidCharAt(18, s[18]) && UuidCharAt(23, s[23]);
    assert UuidCharAt(14, s[14]) && UuidCharAt(19, s[19]);
    forall i | 0 <= i < 36 && i != 8 && i != 13 && i != 18 && i != 23 ensures IsHex(s[i]) {
      assert UuidCharAt(i, s[i]);
    }
    assert s == s[..8] + "-" + s[9..13] + "-" + s[14..18] + "-" + s[19..23] + "-" + s[24..];
  }

  // ---------------------------------------------------------------------
  // REGEX.email: /^[^\s@]+@[^\s@]+\.[^\s@]+$/

  /** `[^\s@]`. */
  predicate IsEmailChar(c: char)
  {
    !IsSpace(c) && c != '@'
  }

  /** The three runs of the pattern: a non-empty local part, a non-empty
      host and a non-empty last part after the dot, none with white space
      or `@` (the host and the last part may contain further dots). */
  predicate EmailParts(local: string, host: string, tail: string)
  {
    local != [] && host != [] && tail != [] &&
    AllChars(local, IsEmailChar) && AllChars(host, IsEmailChar) && AllChars(tail, IsEmailChar)
  }

  /** A dot with at least one character on either side. */
  predicate HasInnerDot(d: string)
  {
    exists k :: 0 < k < |d| - 1 && d[k] == '.'
  }

  predicate IsNotSpace(c: char) { !IsSpace(c) }

  /** `REGEX.email.test(s)`: exactly one `@`, not first, no white space, and
      a dot strictly inside the part after the `@`. */
  predicate IsEmailShape(s: string)
  {
    Count(s, '@') == 1 && AllChars(s, IsNotSpace) &&
    var i := IndexOf(s, '@');
    i > 0 && HasInnerDot(s[i + 1..])
  }

  /** Index of the first `c` in `s` (`|s|` when absent). */
  function IndexOf(s: string, c: char): (i: nat)
    ensures i <= |s|
    ensures i < |s| ==> s[i] == c
    ensures c !in s[..i]
  {
    if s == [] then 0 else if s[0] == c then 0 else 1 + IndexOf(s[1..], c)
  }

  lemma {:induction false} CountSplit(a: string, b: string, c: char)
    ensures Count(a + b, c) == Count(a, c) + Count(b, c)
  {
    if a == [] {
      assert a + b == b;
    } else {
      assert (a + b)[0] == a[0];
      assert (a + b)[1..] == a[1..] + b;
      CountSplit(a[1..], b, c);
    }
  }

  lemma AllCharsConcat(a: string, b: string, p: char -> bool)
    ensures AllChars(a + b, p) <==> AllChars(a, p) && AllChars(b, p)
  {
    if AllChars(a, p) && AllChars(b, p) {
      forall j | 0 <= j < |a + b| ensures p((a + b)[j]) {
        if j < |a| { assert (a + b)[j] == a[j]; } else { assert (a + b)[j] == b[j - |a|]; }
      }
    }
    if AllChars(a + b, p) {
      forall j | 0 <= j < |a| ensures p(a[j]) { assert (a + b)[j] == a[j]; }
      forall j | 0 <= j < |b| ensures p(b[j]) { assert (a + b)[|a| + j] == b[j]; }
    }
  }

  lemma EmailRunFacts(r: string)
    requires AllChars(r, IsEmailChar)
    ensures Count(r, '@') == 0 && AllChars(r, IsNotSpace)
  {
    forall j | 0 <= j < |r| ensures r[j] != '@' && IsNotSpace(r[j]) { assert IsEmailChar(r[j]); }
  }

  /** The first `c` is the one after a prefix without `c`. */
  lemma {:induction false} IndexOfAt(local: string, c: char, d: string)
    requires c !in local
    ensures IndexOf(local + [c] + d, c) == |local|
  {
    if local != [] {
      assert (local + [c] + d)[0] == local[0];
      assert (local + [c] + d)[1..] == local[1..] + [c] + d;
      IndexOfAt(local[1..], c, d);
    } else {
      assert local + [c] + d == [c] + d;
    }
  }


  /** Every string the pattern's runs describe is accepted. */
  lemma EmailFromParts(local: string, host: string, tail: string)
    requires EmailParts(local, host, tail)
    ensures IsEmailShape(local + "@" + host + "." + tail)
  {
    var d := host + "." + tail;
    var s := local + "@" + d;
    assert s == local + "@" + host + "." + tail;
    EmailRunFacts(local);
    EmailRunFacts(host);
    EmailRunFacts(tail);
    EmailPartsCount(local, host, tail);
    EmailPartsSpace(local, host, tail);
    IndexOfAt(local, '@', d);
    assert s[|local| + 1..] == d;
    assert 0 < |host| < |d| - 1 && d[|host|] == '.';
  }

  lemma EmailPartsCount(local: string, host: string, tail: string)
    requires Count(local, '@') == 0 && Count(host, '@') == 0 && Count(tail, '@') == 0
    ensures Count(local + "@" + host + "." + tail, '@') == 1
  {
    assert Count("@", '@') == 1 && Count(".", '@') == 0;
    CountSplit(local, "@", '@');
    CountSplit(local + "@", host, '@');
    CountSplit(local + "@" + host, ".", '@');
    CountSplit(local + "@" + host + ".", tail, '@');
  }

  lemma EmailPartsSpace(local: string, host: string, tail: string)
    requires AllChars(local, IsNotSpace) && AllChars(host, IsNotSpace) && AllChars(tail, IsNotSpace)
    ensures AllChars(local + "@" + host + "." + tail, IsNotSpace)
  {
    assert AllChars("@", IsNotSpace) && AllChars(".", IsNotSpace);
    AllCharsConcat(local, "@", IsNotSpace);
    AllCharsConcat(local + "@", host, IsNotSpace);
    AllCharsConcat(local + "@" + host, ".", IsNotSpace);
    AllCharsConcat(local + "@" + host + ".", tail, IsNotSpace);
  }

  /** A text splits around a character at `at` and another at `at + 1 + k`. */
  lemma SplitAtTwo(s: string, at: nat, a: char, k: nat, b: char)
    requires at < |s| && k < |s| - at - 1 && s[at] == a && s[at + 1 + k] == b
    ensures s == s[..at] + [a] + s[at + 1..][..k] + [b] + s[at + 1..][k + 1..]
  {
    var rest := s[at + 1..];
    assert rest == rest[..k] + [b] + rest[k + 1..];
    assert s == s[..at] + [a] + rest;
  }

  /** The characters of a slice satisfy what all the characters satisfy. */
  lemma SliceChars(s: string, lo: nat, hi: nat, p: char -> bool)
    requires AllChars(s, p) && lo <= hi <= |s|
    ensures AllChars(s[lo..hi], p)
  {
    forall j | 0 <= j < hi - lo ensures p(s[lo..hi][j]) { assert s[lo..hi][j] == s[lo + j]; }
  }

  /** After the only occurrence of `c`, `c` does not occur. */
  lemma NoneAfterOnly(s: string, at: nat, c: char)
    requires at < |s| && s[at] == c && Count(s, c) == 1
    ensures c !in s[at + 1..]
  {
    var d := s[at + 1..];
    assert s == s[..at] + ([s[at]] + d);
    assert ([s[at]] + d)[1..] == d;
    CountSplit(s[..at], [s[at]] + d, c);
  }

  /** Every accepted string consists of the pattern's runs. */
  lemma EmailToParts(s: string)
    requires IsEmailShape(s)
    ensures exists local, host, tail :: s == local + "@" + host + "." + tail && EmailParts(local, host, tail)
  {
    var i := IndexOf(s, '@');
    var d := s[i + 1..];
    var k :| 0 < k < |d| - 1 && d[k] == '.';
    SplitAtTwo(s, i, '@', k, '.');
    var local, host, tail := s[..i], d[..k], d[k + 1..];
    NoneAfterOnly(s, i, '@');
    EmailCharsAround(s, i);
    SliceChars(d, 0, k, IsEmailChar);
    SliceChars(d, k + 1, |d|, IsEmailChar);
    assert EmailParts(local, host, tail);
  }

  /** Around the only '@' of a text without white space, every character is
      an email character. */
  lemma EmailCharsAround(s: string, i: nat)
    requires i < |s| && AllChars(s, IsNotSpace)
    requires '@' !in s[..i] && '@' !in s[i + 1..]
    ensures AllChars(s[..i], IsEmailChar) && AllChars(s[i + 1..], IsEmailChar)
  {
    forall j | 0 <= j < i ensures IsEmailChar(s[..i][j]) {
      assert s[..i][j] == s[j] && IsNotSpace(s[j]);
    }
    var d := s[i + 1..];
    forall j | 0 <= j < |d| ensures IsEmailChar(d[j]) {
      assert d[j] == s[i + 1 + j] && IsNotSpace(s[i + 1 + j]);
    }
  }
}
