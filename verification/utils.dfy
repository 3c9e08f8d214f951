/** String helpers of the server and the form builder: slug generation,
    input sanitising, and the e-mail and UUID validity tests. */
module Utils {
  import opened Prelude
  import opened Constants

  // ---------------------------------------------------------------------
  // isValidUUID / isValidEmail

  /** `isValidUUID`: false for the empty string, else `REGEX.uuid.test`. An
      accepted text is exactly five well-formed hex groups joined by `-`. */
  function IsValidUuid(uuid: string): (r: bool)
    ensures uuid == "" ==> !r
    ensures r <==> IsUuid(uuid)
    ensures r ==> UuidGroups(uuid[..8], uuid[9..13], uuid[14..18], uuid[19..23], uuid[24..]) &&
                  uuid == UuidJoin(uuid[..8], uuid[9..13], uuid[14..18], uuid[19..23], uuid[24..])
  {
    if uuid == "" then false
    else
      var r := IsUuid(uuid);
      if r then UuidToGroups(uuid); r else r
  }

  /** `isValidEmail`: the same pattern as `REGEX.email`. Accepted exactly
      when the text is a local part, `@`, a host, `.` and a last part, each
      non-empty and free of white space and `@`. */
  function IsValidEmail(email: string): (r: bool)
    ensures r <==> exists local, host, tail :: email == local + "@" + host + "." + tail && EmailParts(local, host, tail)
  {
    EmailShapeIff(email);
    IsEmailShape(email)
  }

  lemma EmailShapeIff(s: string)
    ensures IsEmailShape(s) <==> exists local, host, tail :: s == local + "@" + host + "." + tail && EmailParts(local, host, tail)
  {
    if IsEmailShape(s) {
      EmailToParts(s);
    }
    forall local, host, tail | s == local + "@" + host + "." + tail && EmailParts(local, host, tail)
      ensures IsEmailShape(s)
    {
      EmailFromParts(local, host, tail);
    }
  }

  // ---------------------------------------------------------------------
  // generateSlug

  /** `toLowerCase` on the ASCII letters. */
  function LowerChar(c: char): (d: char)
    ensures IsAsciiUpper(c) ==> IsAsciiLower(d)
    ensures !IsAsciiUpper(c) ==> d == c
  {
    if IsAsciiUpper(c) then (c as int + 32) as char else c
  }

  function Lower(s: string): (r: string)
    ensures |r| == |s|
    ensures forall i :: 0 <= i < |s| ==> r[i] == LowerChar(s[i])
  {
    if s == [] then [] else [LowerChar(s[0])] + Lower(s[1..])
  }

  /** Characters kept by `.replace(/[^\w\s-]/g, '')`. */
  predicate IsKept(c: char) { IsWordChar(c) || IsSpace(c) || c == '-' }

  /** The class `[\s_-]` whose runs become one `-`. */
  predicate IsSeparator(c: char) { IsSpace(c) || c == '_' || c == '-' }

  /** `s` without its leading run of separators. */
  function DropSeparators(s: string): (r: string)
    ensures |r| <= |s| && r == s[|s| - |r|..]
    ensures r == [] || !IsSeparator(r[0])
    ensures forall i :: 0 <= i < |s| - |r| ==> IsSeparator(s[i])
  {
    if s != [] && IsSeparator(s[0]) then DropSeparators(s[1..]) else s
  }

  predicate NoDoubleDash(s: string)
  {
    forall i :: 0 <= i < |s| - 1 ==> !(s[i] == '-' && s[i + 1] == '-')
  }

  predicate NotSeparator(c: char) { !IsSeparator(c) }

  predicate NotDash(c: char) { c != '-' }

  /** The number of maximal runs of separators in `s`, counted where each
      run starts; `afterSeparator` says whether the character just before
      `s` was a separator. */
  function RunStarts(s: string, afterSeparator: bool): nat
  {
    if s == [] then 0
    else (if IsSeparator(s[0]) && !afterSeparator then 1 else 0) + RunStarts(s[1..], IsSeparator(s[0]))
  }

  /** A run that continues from a separator starts no new run. */
  lemma {:induction false} RunContinues(s: string)
    ensures RunStarts(s, true) == RunStarts(DropSeparators(s), false)
  {
    if s != [] && IsSeparator(s[0]) {
      RunContinues(s[1..]);
    }
  }

  /** Dropping a leading run of separators keeps every other character. */
  lemma {:induction false} DroppedRunFiltered(s: string)
    ensures Filter(s, NotSeparator) == Filter(DropSeparators(s), NotSeparator)
  {
    if s != [] && IsSeparator(s[0]) {
      DroppedRunFiltered(s[1..]);
    }
  }

  /** `.replace(/[\s_-]+/g, '-')`: every maximal run of separators becomes a
      single `-`; every other character is kept, in order (`CollapseKeepsText`). */
  function Collapse(s: string): (r: string)
    ensures |r| <= |s|
    ensures NoDoubleDash(r)
    ensures r != [] && r[0] == '-' ==> s != [] && IsSeparator(s[0])
    ensures r != [] && s != [] ==> (r[0] == '-' <==> IsSeparator(s[0]))
    decreases |s|
  {
    if s == [] then []
    else if IsSeparator(s[0]) then
      "-" + Collapse(DropSeparators(s))
    else
      [s[0]] + Collapse(s[1..])
  }

  /** Collapsing keeps the characters that are not separators, in order,
      and leaves exactly one `-` per maximal run of separators. */
  lemma {:induction false} CollapseKeepsText(s: string)
    ensures Filter(Collapse(s), NotDash) == Filter(s, NotSeparator)
    ensures Count(Collapse(s), '-') == RunStarts(s, false)
    decreases |s|
  {
    if s != [] {
      if IsSeparator(s[0]) {
        var rest := DropSeparators(s);
        CollapseKeepsText(rest);
        RunContinues(s[1..]);
        DroppedRunFiltered(s);
        assert Collapse(s) == "-" + Collapse(rest);
        assert ("-" + Collapse(rest))[1..] == Collapse(rest);
      } else {
        CollapseKeepsText(s[1..]);
        assert Collapse(s) == [s[0]] + Collapse(s[1..]);
        assert ([s[0]] + Collapse(s[1..]))[1..] == Collapse(s[1..]);
      }
    }
  }

  /** Collapsing only introduces dashes: every other character of the
      result comes from the input and is not a separator. */
  lemma {:induction false} CollapseChars(s: string)
    ensures forall c :: c in Collapse(s) ==> c == '-' || (c in s && !IsSeparator(c))
    decreases |s|
  {
    if s != [] {
      if IsSeparator(s[0]) {
        var rest := DropSeparators(s);
        CollapseChars(rest);
        forall c | c in rest ensures c in s {
          var i :| 0 <= i < |rest| && rest[i] == c;
          assert s[|s| - |rest| + i] == c;
        }
      } else {
        CollapseChars(s[1..]);
      }
    }
  }

  /** `s` without its leading dashes. */
  function DropLeadingDashes(s: string): (r: string)
    ensures |r| <= |s| && r == s[|s| - |r|..]
    ensures r == [] || r[0] != '-'
  {
    if s != [] && s[0] == '-' then DropLeadingDashes(s[1..]) else s
  }

  /** `s` without its trailing dashes. */
  function DropTrailingDashes(s: string): (r: string)
    ensures |r| <= |s| && r == s[..|r|]
    ensures r == [] || r[|r| - 1] != '-'
  {
    if s != [] && s[|s| - 1] == '-' then DropTrailingDashes(s[..|s| - 1]) else s
  }

  /** `.replace(/^-+|-+$/g, '')`: an infix of `s` with no dash at either
      end. */
  function StripDashes(s: string): (r: string)
    ensures r == [] || (r[0] != '-' && r[|r| - 1] != '-')
    ensures |r| <= |DropLeadingDashes(s)| <= |s|
    ensures r == s[|s| - |DropLeadingDashes(s)|..][..|r|]
  {
    DropTrailingDashes(DropLeadingDashes(s))
  }

  /** The characters a slug is made of. */
  predicate IsSlugChar(c: char) { IsAsciiLower(c) || IsDigit(c) || c == '-' }

  /** Slug characters with no two dashes in a row. */
  predicate SlugText(s: string)
  {
    AllChars(s, IsSlugChar) && NoDoubleDash(s)
  }

  lemma SlugTextHead(y: string)
    requires SlugText(y) && y != [] && y[0] != '-'
    ensures !IsSeparator(y[0])
  {
    assert IsSlugChar(y[0]);
  }

  /** A slug: lower-case letters, digits and single inner dashes. */
  predicate IsSlug(s: string)
  {
    AllChars(s, IsSlugChar) && NoDoubleDash(s) && (s == [] || (s[0] != '-' && s[|s| - 1] != '-'))
  }

  function Slug(text: string): string
  {
    StripDashes(Collapse(Filter(Trim(Lower(text)), IsKept)))
  }

  /** `generateSlug` yields a slug. */
  lemma SlugIsSlug(text: string)
    ensures IsSlug(Slug(text))
  {
    CollapsedSlugChars(text);
    StripKeepsSlug(Collapse(Filter(Trim(Lower(text)), IsKept)));
  }

  lemma StripKeepsSlug(c: string)
    requires AllChars(c, IsSlugChar) && NoDoubleDash(c)
    ensures IsSlug(StripDashes(c))
  {
    var a := DropLeadingDashes(c);
    InfixOfSlugChars(c, a, DropTrailingDashes(a));
  }

  lemma CollapsedSlugChars(text: string)
    ensures AllChars(Collapse(Filter(Trim(Lower(text)), IsKept)), IsSlugChar)
    ensures NoDoubleDash(Collapse(Filter(Trim(Lower(text)), IsKept)))
  {
    var lowered := Trim(Lower(text));
    TrimInfix(Lower(text));
    var kept := Filter(lowered, IsKept);
    var collapsed := Collapse(kept);
    CollapseChars(kept);
    forall j | 0 <= j < |collapsed| ensures IsSlugChar(collapsed[j]) {
      var c := collapsed[j];
      assert c in collapsed;
      if c != '-' {
        assert c in kept && !IsSeparator(c);
        assert c in lowered && IsKept(c);
        assert c in Lower(text);
        var i :| 0 <= i < |Lower(text)| && Lower(text)[i] == c;
        assert c == LowerChar(text[i]);
      }
    }
  }

  lemma InfixOfSlugChars(c: string, a: string, r: string)
    requires AllChars(c, IsSlugChar) && NoDoubleDash(c)
    requires |a| <= |c| && a == c[|c| - |a|..] && |r| <= |a| && r == a[..|r|]
    ensures AllChars(r, IsSlugChar) && NoDoubleDash(r)
  {
    var off := |c| - |a|;
    forall j | 0 <= j < |r| ensures r[j] == c[off + j] {
    }
  }

  lemma TrimInfix(s: string)
    ensures forall c :: c in Trim(s) ==> c in s
  {
    var a := TrimStart(s);
    var r := TrimEnd(a);
    assert r == a[..|r|] && a == s[|s| - |a|..];
    forall i | 0 <= i < |r| ensures r[i] in s {
      assert r[i] == s[|s| - |a| + i];
    }
  }

  /** Applying `generateSlug` to a slug changes nothing, so generating a
      slug twice is the same as generating it once. */
  lemma {:induction false} SlugIdempotent(text: string)
    ensures Slug(Slug(text)) == Slug(text)
  {
    var y := Slug(text);
    SlugIsSlug(text);
    SlugFixed(y);
  }

  lemma SlugFixed(y: string)
    requires IsSlug(y)
    ensures Slug(y) == y
  {
    LowerFixed(y);
    TrimFixed(y);
    FilterFixed(y, IsKept);
    CollapseFixed(y);
  }

  lemma LowerFixed(y: string)
    requires AllChars(y, IsSlugChar)
    ensures Lower(y) == y
  {
  }

  lemma TrimFixed(y: string)
    requires AllChars(y, IsSlugChar)
    ensures Trim(y) == y
  {
    assert y == [] || !IsSpace(y[0]);
    assert TrimStart(y) == y;
    assert y == [] || !IsSpace(y[|y| - 1]);
  }

  lemma {:induction false} FilterFixed(y: string, p: char -> bool)
    requires AllChars(y, p)
    ensures Filter(y, p) == y
  {
    if y != [] {
      FilterFixed(y[1..], p);
      assert p(y[0]);
      assert y == [y[0]] + y[1..];
    }
  }

  /** On a string of slug characters with single dashes, collapsing the
      separator runs is the identity. */
  lemma {:induction false} CollapseFixed(y: string)
    requires SlugText(y)
    ensures Collapse(y) == y
    decreases |y|
  {
    if y != [] {
      var t := y[1..];
      SlugCharsTail(y);
      CollapseFixed(t);
      assert y == [y[0]] + t;
      if y[0] == '-' {
        DashThenNoSeparator(y);
        CollapseSingleDash(y);
      } else {
        SlugTextHead(y);
        CollapseOther(y);
      }
    }
  }

  /** In a slug-character string with single dashes, a dash is never
      followed by another separator. */
  lemma DashThenNoSeparator(y: string)
    requires SlugText(y)
    requires y != [] && y[0] == '-'
    ensures |y| == 1 || !IsSeparator(y[1])
  {
    if |y| > 1 {
      assert IsSlugChar(y[1]) && !(y[0] == '-' && y[1] == '-');
    }
  }

  lemma SlugCharsTail(y: string)
    requires y != [] && SlugText(y)
    ensures SlugText(y[1..])
  {
    forall j | 0 <= j < |y| - 1 ensures y[1..][j] == y[j + 1] { }
  }

  lemma CollapseSingleDash(y: string)
    requires y != [] && y[0] == '-' && (|y| == 1 || !IsSeparator(y[1]))
    ensures Collapse(y) == "-" + Collapse(y[1..])
  {
    assert DropSeparators(y[1..]) == y[1..];
  }

  lemma CollapseOther(y: string)
    requires y != [] && !IsSeparator(y[0])
    ensures Collapse(y) == [y[0]] + Collapse(y[1..])
  {
  }

  // ---------------------------------------------------------------------
  // sanitizeInput

  predicate IsAngle(c: char) { c == '<' || c == '>' }
  predicate NotAngle(c: char) { !IsAngle(c) }

  /** `input.trim().replace(/[<>]/g, '').substring(0, 1000)`. */
  function Sanitize(input: string): (r: string)
    ensures |r| <= 1000
    ensures '<' !in r && '>' !in r
    ensures |r| == Min(1000, |Filter(Trim(input), NotAngle)|)
    ensures r == Filter(Trim(input), NotAngle)[..|r|]
  {
    var kept := Filter(Trim(input), NotAngle);
    if |kept| <= 1000 then kept
    else
      PrefixElements(kept, 1000);
      kept[..1000]
  }

  lemma PrefixElements(s: string, n: nat)
    requires n <= |s|
    ensures forall c :: c in s[..n] ==> c in s
  {
    forall c | c in s[..n] ensures c in s {
      var i :| 0 <= i < n && s[..n][i] == c;
      assert s[i] == c;
    }
  }

  function Min(a: int, b: int): int { if a < b then a else b }

  /** Trimming happens before the angle brackets are removed, so the result
      can still start with white space. */
  lemma SanitizeKeepsInnerSpace()
    ensures Sanitize("< a") == " a"
  {
    TrimOfBracketed();
    FilterOfBracketed();
  }

  lemma TrimOfBracketed()
    ensures Trim("< a") == "< a"
  {
    assert TrimStart("< a") == "< a";
    assert TrimEnd("< a") == "< a";
  }

  lemma FilterOfBracketed()
    ensures Filter("< a", NotAngle) == " a"
  {
    var s := "< a";
    assert s[1..] == " a" && s[1..][1..] == "a" && s[1..][1..][1..] == [];
    assert !NotAngle(s[0]) && NotAngle(s[1]) && NotAngle(s[2]);
  }
}
