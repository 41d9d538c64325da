/** The JavaScript string built-ins the core relies on: `trim`, the regular
    expression class `\s`, `toLowerCase`, and the two `replace` calls of
    `normalizeText`. Characters are Unicode scalar values. */
module JsText {

  /** ECMAScript WhiteSpace and LineTerminator: the characters `\s` matches
      and `trim` removes. U+FEFF belongs to this set; U+200B-U+200D do not. */
  predicate IsWhiteSpace(c: char) {
    var n := c as int;
    (0x09 <= n <= 0x0D) || n == 0x20 || n == 0xA0 || n == 0x1680
    || (0x2000 <= n <= 0x200A) || n == 0x2028 || n == 0x2029 || n == 0x202F
    || n == 0x205F || n == 0x3000 || n == 0xFEFF
  }

  /** U+200B ZERO WIDTH SPACE, U+200C ZWNJ, U+200D ZWJ. */
  predicate IsZeroWidth(c: char) {
    0x200B <= c as int <= 0x200D
  }

  /** The class `[​-‍﻿]`. */
  predicate IsInvisible(c: char) {
    IsZeroWidth(c) || c as int == 0xFEFF
  }

  predicate NoZeroWidth(s: string) {
    forall i :: 0 <= i < |s| ==> !IsZeroWidth(s[i])
  }

  predicate NoInvisible(s: string) {
    forall i :: 0 <= i < |s| ==> !IsInvisible(s[i])
  }

  /** Neither the first nor the last character is white space. */
  predicate NoEdgeWhiteSpace(s: string) {
    s == [] || (!IsWhiteSpace(s[0]) && !IsWhiteSpace(s[|s| - 1]))
  }

  /** Every white-space character is a plain space and no two are adjacent. */
  predicate SingleSpaced(s: string) {
    (forall i :: 0 <= i < |s| && IsWhiteSpace(s[i]) ==> s[i] == ' ')
    && (forall i :: 0 < i < |s| ==> !(IsWhiteSpace(s[i - 1]) && IsWhiteSpace(s[i])))
  }

  /** Leading white space removed (the first half of `trim`). */
  function TrimStart(s: string): (r: string)
    ensures |r| <= |s|
  {
    if s != [] && IsWhiteSpace(s[0]) then TrimStart(s[1..]) else s
  }

  /** Trailing white space removed. */
  function TrimEnd(s: string): string {
    if s != [] && IsWhiteSpace(s[|s| - 1]) then TrimEnd(s[..|s| - 1]) else s
  }

  /** `TrimStart` drops a white-space prefix and stops at the first other
      character. */
  lemma {:induction false} TrimStartSpec(s: string)
    ensures |TrimStart(s)| <= |s| && TrimStart(s) == s[|s| - |TrimStart(s)|..]
    ensures TrimStart(s) == [] || !IsWhiteSpace(TrimStart(s)[0])
    ensures forall i :: 0 <= i < |s| - |TrimStart(s)| ==> IsWhiteSpace(s[i])
  {
    if s != [] && IsWhiteSpace(s[0]) {
      TrimStartSpec(s[1..]);
      assert forall i :: 1 <= i < |s| ==> s[1..][i - 1] == s[i];
    }
  }

  /** `TrimEnd` drops a white-space suffix and stops at the last other
      character. */
  lemma {:induction false} TrimEndSpec(s: string)
    ensures |TrimEnd(s)| <= |s| && TrimEnd(s) == s[..|TrimEnd(s)|]
    ensures TrimEnd(s) == [] || !IsWhiteSpace(TrimEnd(s)[|TrimEnd(s)| - 1])
    ensures forall i :: |TrimEnd(s)| <= i < |s| ==> IsWhiteSpace(s[i])
  {
    if s != [] && IsWhiteSpace(s[|s| - 1]) {
      TrimEndSpec(s[..|s| - 1]);
    }
  }

  /** `String.prototype.trim`. */
  function Trim(s: string): string {
    TrimEnd(TrimStart(s))
  }

  /** `toLowerCase` on one character: Basic Latin and Latin-1 capitals. */
  function LowerChar(c: char): char {
    var n := c as int;
    if 0x41 <= n <= 0x5A || (0xC0 <= n <= 0xDE && n != 0xD7) then (n + 32) as char else c
  }

  /** `String.prototype.toLowerCase`, character by character. */
  function ToLowerCase(s: string): string {
    seq(|s|, i requires 0 <= i < |s| => LowerChar(s[i]))
  }

  predicate IsLowerCase(s: string) {
    forall i :: 0 <= i < |s| ==> LowerChar(s[i]) == s[i]
  }

  /** `replace(/\s+/g, ' ')`: every maximal run of white space becomes one space. */
  function CollapseWhiteSpace(s: string): string
    decreases |s|
  {
    if s == [] then []
    else if IsWhiteSpace(s[0]) then [' '] + CollapseWhiteSpace(TrimStart(s[1..]))
    else [s[0]] + CollapseWhiteSpace(s[1..])
  }

  /** `replace(/[​-‍﻿]/g, '')`. */
  function RemoveInvisible(s: string): string {
    if s == [] then []
    else if IsInvisible(s[0]) then RemoveInvisible(s[1..])
    else [s[0]] + RemoveInvisible(s[1..])
  }

  lemma TrimNoEdgeWhiteSpace(s: string)
    ensures NoEdgeWhiteSpace(Trim(s))
  {
    var t := TrimStart(s);
    var r := TrimEnd(t);
    TrimStartSpec(s);
    TrimEndSpec(t);
    if r != [] {
      assert r[0] == t[0];
    }
  }

  lemma TrimNoZeroWidth(s: string)
    requires NoZeroWidth(s)
    ensures NoZeroWidth(Trim(s))
  {
    var t := TrimStart(s);
    var r := TrimEnd(t);
    TrimStartSpec(s);
    TrimEndSpec(t);
    forall i | 0 <= i < |r| ensures !IsZeroWidth(r[i]) {
      assert r[i] == t[i] == s[|s| - |t| + i];
    }
  }

  /** Lowering never turns a character into or out of white space or the
      invisible class. */
  lemma LowerCharClasses(c: char)
    ensures IsWhiteSpace(LowerChar(c)) <==> IsWhiteSpace(c)
    ensures IsZeroWidth(LowerChar(c)) <==> IsZeroWidth(c)
    ensures IsInvisible(LowerChar(c)) <==> IsInvisible(c)
    ensures LowerChar(LowerChar(c)) == LowerChar(c)
  {
  }

  lemma ToLowerCaseProperties(s: string)
    ensures |ToLowerCase(s)| == |s|
    ensures IsLowerCase(ToLowerCase(s))
    ensures NoEdgeWhiteSpace(s) ==> NoEdgeWhiteSpace(ToLowerCase(s))
    ensures NoZeroWidth(s) ==> NoZeroWidth(ToLowerCase(s))
    ensures IsLowerCase(s) ==> ToLowerCase(s) == s
  {
    forall i | 0 <= i < |s| {
      LowerCharClasses(s[i]);
    }
  }

  /** Every character of the collapsed string is the single space or a
      non-white-space character of the input. */
  lemma {:induction false} CollapseChars(s: string)
    ensures forall c :: c in CollapseWhiteSpace(s) ==> c == ' ' || (c in s && !IsWhiteSpace(c))
    decreases |s|
  {
    if s != [] {
      if IsWhiteSpace(s[0]) {
        var t := TrimStart(s[1..]);
        TrimStartSpec(s[1..]);
        CollapseChars(t);
        assert forall c :: c in t ==> c in s;
      } else {
        CollapseChars(s[1..]);
      }
    }
  }

  /** Collapsing keeps the emptiness, the first-character class and a
      non-white-space last character of its input. */
  lemma {:induction false} CollapseEdges(s: string)
    ensures CollapseWhiteSpace(s) == [] <==> s == []
    ensures s != [] ==> (IsWhiteSpace(CollapseWhiteSpace(s)[0]) <==> IsWhiteSpace(s[0]))
    ensures s != [] && !IsWhiteSpace(s[|s| - 1]) ==> !IsWhiteSpace(CollapseWhiteSpace(s)[|CollapseWhiteSpace(s)| - 1])
    decreases |s|
  {
    if s != [] {
      if IsWhiteSpace(s[0]) {
        var t := TrimStart(s[1..]);
        TrimStartSpec(s[1..]);
        CollapseEdges(t);
        if t != [] {
          assert t[|t| - 1] == s[|s| - 1];
        }
      } else {
        CollapseEdges(s[1..]);
        if s[1..] != [] {
          assert s[1..][|s[1..]| - 1] == s[|s| - 1];
        }
      }
    }
  }

  /** The collapsed string is single-spaced. */
  lemma {:induction false} CollapseSingleSpacedResult(s: string)
    ensures SingleSpaced(CollapseWhiteSpace(s))
    decreases |s|
  {
    CollapseChars(s);
    var c := CollapseWhiteSpace(s);
    assert forall i :: 0 <= i < |c| && IsWhiteSpace(c[i]) ==> c[i] == ' ' by {
      forall i | 0 <= i < |c| && IsWhiteSpace(c[i]) ensures c[i] == ' ' {
        assert c[i] in c;
      }
    }
    if s != [] {
      if IsWhiteSpace(s[0]) {
        var t := TrimStart(s[1..]);
        TrimStartSpec(s[1..]);
        CollapseSingleSpacedResult(t);
        CollapseEdges(t);
        var rest := CollapseWhiteSpace(t);
        assert c == [' '] + rest;
        assert c[1..] == rest;
      } else {
        CollapseSingleSpacedResult(s[1..]);
        var rest := CollapseWhiteSpace(s[1..]);
        assert c == [s[0]] + rest;
        assert c[1..] == rest;
      }
    }
  }

  /** Collapsing keeps lower case and the absence of zero-width characters. */
  lemma CollapseKeeps(s: string)
    ensures IsLowerCase(s) ==> IsLowerCase(CollapseWhiteSpace(s))
    ensures NoZeroWidth(s) ==> NoZeroWidth(CollapseWhiteSpace(s))
  {
    CollapseChars(s);
    var c := CollapseWhiteSpace(s);
    forall i | 0 <= i < |c|
      ensures IsLowerCase(s) ==> LowerChar(c[i]) == c[i]
      ensures NoZeroWidth(s) ==> !IsZeroWidth(c[i])
    {
      assert c[i] in c;
    }
  }

  /** A single-spaced string is left as it is by collapsing. */
  lemma {:induction false} CollapseSingleSpaced(s: string)
    requires SingleSpaced(s)
    ensures CollapseWhiteSpace(s) == s
    decreases |s|
  {
    if s != [] {
      assert SingleSpaced(s[1..]) by {
        assert forall i :: 0 <= i < |s[1..]| ==> s[1..][i] == s[i + 1];
      }
      if IsWhiteSpace(s[0]) {
        assert s[1..] == [] || !IsWhiteSpace(s[1]);
        assert TrimStart(s[1..]) == s[1..];
      }
      CollapseSingleSpaced(s[1..]);
    }
  }

  /** The removal filter leaves no invisible character, and is the identity
      exactly on strings without one. */
  lemma {:induction false} RemoveInvisibleProperties(s: string)
    ensures NoInvisible(RemoveInvisible(s))
    ensures NoInvisible(s) ==> RemoveInvisible(s) == s
    ensures |RemoveInvisible(s)| <= |s|
  {
    if s != [] {
      RemoveInvisibleProperties(s[1..]);
      if NoInvisible(s) {
        assert NoInvisible(s[1..]) by {
          assert forall i :: 0 <= i < |s[1..]| ==> s[1..][i] == s[i + 1];
        }
      }
    }
  }

  lemma TrimIdentity(s: string)
    requires NoEdgeWhiteSpace(s)
    ensures Trim(s) == s
  {
  }
}
