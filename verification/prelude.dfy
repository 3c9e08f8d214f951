/** Small shared vocabulary: optional values, callback emissions and the
    JavaScript string primitives (`\s`, `trim`, `startsWith`) that the
    form components and the server helpers rely on. */
module Prelude {

  datatype Option<+T> = None | Some(value: T)

  /** What a component handed to one of its optional callbacks
      (`onChange?.(v)`): either the callback was not invoked, or it was
      invoked with `v`. */
  datatype Emit<+T> = NotCalled | Called(arg: T)

  /** The characters JavaScript's `\s` class and `String.prototype.trim`
      treat as white space (WhiteSpace and LineTerminator of ECMA-262). */
  predicate IsSpace(c: char)
  {
    c == '\t' || c == '\n' || c == '\U{000B}' || c == '\U{000C}' || c == '\r' ||
    c == ' ' || c == '\U{00A0}' || c == '\U{1680}' || ('\U{2000}' <= c <= '\U{200A}') ||
    c == '\U{2028}' || c == '\U{2029}' || c == '\U{202F}' || c == '\U{205F}' ||
    c == '\U{3000}' || c == '\U{FEFF}'
  }

  predicate IsDigit(c: char) { '0' <= c <= '9' }
  predicate IsAsciiLower(c: char) { 'a' <= c <= 'z' }
  predicate IsAsciiUpper(c: char) { 'A' <= c <= 'Z' }
  predicate IsAsciiLetter(c: char) { IsAsciiLower(c) || IsAsciiUpper(c) }

  /** The regular-expression class `\w`: ASCII letters, digits and `_`. */
  predicate IsWordChar(c: char) { IsAsciiLetter(c) || IsDigit(c) || c == '_' }

  predicate AllChars(s: string, p: char -> bool)
  {
    forall i :: 0 <= i < |s| ==> p(s[i])
  }

  predicate StartsWith(s: string, prefix: string)
  {
    |prefix| <= |s| && s[..|prefix|] == prefix
  }

  /** `s.trimStart()`. */
  function TrimStart(s: string): (r: string)
    ensures |r| <= |s| && r == s[|s| - |r|..]
    ensures r == [] || !IsSpace(r[0])
    ensures forall i :: 0 <= i < |s| - |r| ==> IsSpace(s[i])
  {
    if s == [] || !IsSpace(s[0]) then s else TrimStart(s[1..])
  }

  /** `s.trimEnd()`. */
  function TrimEnd(s: string): (r: string)
    ensures |r| <= |s| && r == s[..|r|]
    ensures r == [] || !IsSpace(r[|r| - 1])
    ensures forall i :: |r| <= i < |s| ==> IsSpace(s[i])
  {
    if s == [] || !IsSpace(s[|s| - 1]) then s else TrimEnd(s[..|s| - 1])
  }

  /** `s.trim()`: the longest infix without white space at either end. */
  function Trim(s: string): (r: string)
    ensures r == [] || (!IsSpace(r[0]) && !IsSpace(r[|r| - 1]))
    ensures |r| <= |s|
  {
    TrimEnd(TrimStart(s))
  }

  /** `s.trim().length === 0`, i.e. `!s.trim()`. */
  predicate IsBlank(s: string)
  {
    Trim(s) == []
  }

  lemma BlankIffAllSpace(s: string)
    ensures IsBlank(s) <==> AllChars(s, IsSpace)
  {
  }

  /** The elements of `s` that satisfy `p`, in their original order
      (`Array.prototype.filter`). */
  function Filter<T(==)>(s: seq<T>, p: T -> bool): (r: seq<T>)
    ensures |r| <= |s|
    ensures forall x :: x in r ==> x in s && p(x)
    ensures forall x :: x in s && p(x) ==> x in r
  {
    if s == [] then [] else (if p(s[0]) then [s[0]] else []) + Filter(s[1..], p)
  }

  /** `xs` is obtained from `ys` by deleting elements (order is kept). */
  predicate IsSubsequence<T(==)>(xs: seq<T>, ys: seq<T>)
    decreases |ys|
  {
    if xs == [] then true
    else if ys == [] then false
    else if xs[0] == ys[0] then IsSubsequence(xs[1..], ys[1..])
    else IsSubsequence(xs, ys[1..])
  }

  lemma {:induction false} FilterIsSubsequence<T>(s: seq<T>, p: T -> bool)
    ensures IsSubsequence(Filter(s, p), s)
  {
    if s != [] {
      FilterIsSubsequence(s[1..], p);
      if p(s[0]) {
        assert Filter(s, p) == [s[0]] + Filter(s[1..], p);
        assert Filter(s, p)[1..] == Filter(s[1..], p);
      } else {
        assert Filter(s, p) == Filter(s[1..], p);
      }
    }
  }

  /** `Array.prototype.find`: the first element satisfying `p`. */
  function Find<T(==)>(s: seq<T>, p: T -> bool): (r: Option<T>)
    ensures r.None? <==> forall i :: 0 <= i < |s| ==> !p(s[i])
    ensures r.Some? ==> exists i :: 0 <= i < |s| && s[i] == r.value && p(s[i]) &&
                                    forall j :: 0 <= j < i ==> !p(s[j])
  {
    if s == [] then None
    else if p(s[0]) then Some(s[0])
    else
      var r := Find(s[1..], p);
      if r.Some? then
        var i :| 0 <= i < |s[1..]| && s[1..][i] == r.value && p(s[1..][i]) &&
                 forall j :: 0 <= j < i ==> !p(s[1..][j]);
        assert s[i + 1] == r.value && forall j :: 0 <= j < i + 1 ==> !p(s[j]) by {
          forall j | 0 <= j < i + 1 ensures !p(s[j]) {
            if j > 0 { assert s[j] == s[1..][j - 1]; }
          }
        }
        r
      else
        assert forall i :: 0 <= i < |s| ==> !p(s[i]) by {
          forall i | 0 <= i < |s| ensures !p(s[i]) {
            if i > 0 { assert s[i] == s[1..][i - 1]; }
          }
        }
        r
  }

  /** Number of occurrences of `c` in `s`. */
  function Count(s: string, c: char): (n: nat)
    ensures n <= |s|
    ensures n == 0 <==> c !in s
  {
    if s == [] then 0 else (if s[0] == c then 1 else 0) + Count(s[1..], c)
  }

  /** `xs.join(sep)`. */
  function Join(xs: seq<string>, sep: string): string
  {
    if xs == [] then "" else if |xs| == 1 then xs[0] else xs[0] + sep + Join(xs[1..], sep)
  }

  /** `sub` occurs in `s` as a contiguous block. */
  predicate IsInfix(sub: string, s: string)
  {
    exists k: nat :: k <= |s| && OccursAt(sub, s, k)
  }

  predicate OccursAt(sub: string, s: string, k: nat)
  {
    k + |sub| <= |s| && s[k..k + |sub|] == sub
  }

  /** Joining one more element appends the separator and that element. */
  lemma {:induction false} JoinAppend(xs: seq<string>, x: string, sep: string)
    requires xs != []
    ensures Join(xs + [x], sep) == Join(xs, sep) + sep + x
  {
    if |xs| == 1 {
      assert (xs + [x])[1..] == [x];
    } else {
      assert (xs + [x])[1..] == xs[1..] + [x];
      JoinAppend(xs[1..], x, sep);
    }
  }

  /** A block of the middle part is a block of the whole. */
  lemma InfixInConcat(sub: string, a: string, m: string, c: string)
    requires IsInfix(sub, m)
    ensures IsInfix(sub, a + m + c)
  {
    var k: nat :| k <= |m| && OccursAt(sub, m, k);
    var s := a + m + c;
    assert s == a + (m + c);
    assert s[|a| + k..|a| + k + |sub|] == m[k..k + |sub|];
    assert OccursAt(sub, s, |a| + k);
  }

  /** Every element of a join occurs in the joined text. */
  lemma {:induction false} JoinHasEach(xs: seq<string>, sep: string, i: nat)
    requires i < |xs|
    ensures IsInfix(xs[i], Join(xs, sep))
  {
    var j := Join(xs, sep);
    if |xs| == 1 {
      assert OccursAt(xs[0], j, 0);
    } else if i == 0 {
      assert j == xs[0] + (sep + Join(xs[1..], sep));
      assert OccursAt(xs[0], j, 0);
    } else {
      var rest := Join(xs[1..], sep);
      JoinHasEach(xs[1..], sep, i - 1);
      assert xs[1..][i - 1] == xs[i];
      var k: nat :| k <= |rest| && OccursAt(xs[i], rest, k);
      assert k + |xs[i]| <= |rest| && rest[k..k + |xs[i]|] == xs[i];
      var offset := |xs[0]| + |sep|;
      assert j == (xs[0] + sep) + rest;
      assert j[offset + k..offset + k + |xs[i]|] == rest[k..k + |xs[i]|];
      assert OccursAt(xs[i], j, offset + k);
    }
  }

  /** Decimal text of a natural number (`n.toString()` for a non-negative
      integer). */
  function NatToString(n: nat): (s: string)
    ensures |s| > 0 && AllChars(s, IsDigit)
    ensures s[0] != '0' || n == 0
    decreases n
  {
    if n < 10 then [DigitChar(n)] else NatToString(n / 10) + [DigitChar(n % 10)]
  }

  function DigitChar(d: nat): (c: char)
    requires d < 10
    ensures IsDigit(c) && DigitValue(c) == d
  {
    (('0' as int) + d) as char
  }

  function DigitValue(c: char): (d: nat)
    requires IsDigit(c)
    ensures d < 10
  {
    (c as int) - ('0' as int)
  }

  /** The value of a string of decimal digits (what `parseInt` returns for
      it). */
  function DigitsValue(s: string): (n: nat)
    requires AllChars(s, IsDigit)
  {
    if s == [] then 0 else 10 * DigitsValue(s[..|s| - 1]) + DigitValue(s[|s| - 1])
  }

  lemma {:induction false} DigitsRoundTrip(n: nat)
    ensures DigitsValue(NatToString(n)) == n
    decreases n
  {
    var s := NatToString(n);
    if n >= 10 {
      DigitsRoundTrip(n / 10);
      assert s[..|s| - 1] == NatToString(n / 10);
    }
  }

  /** The length `Array.from({ length: x })` produces: the integer part of
      a positive `x`, and 0 for anything not positive. */
  function ArrayLength(x: real): (n: nat)
    ensures x < 1.0 ==> n == 0
    ensures x >= 1.0 ==> n as real <= x < (n + 1) as real
  {
    if x <= 0.0 then 0 else x.Floor
  }
}
