/** The string functions of the Rust standard library that the scanners use. */
module Texts {
  import opened Prelude

  /** The Unicode property White_Space. */
  predicate IsWhitespace(c: char) {
    || '\t' <= c <= '\r' || c == ' ' || c == '\U{0085}' || c == '\U{00A0}' || c == '\U{1680}'
    || '\U{2000}' <= c <= '\U{200A}' || c == '\U{2028}' || c == '\U{2029}' || c == '\U{202F}'
    || c == '\U{205F}' || c == '\U{3000}'
  }

  /** Those are these code points. */
  lemma BlanksAre(c: char)
    ensures IsWhitespace(c) <==>
              || c as int in {9, 10, 11, 12, 13, 32, 133, 160, 5760, 8232, 8233, 8239, 8287, 12288}
              || 8192 <= c as int <= 8202
  {
  }

  function AsciiUpper(c: char): char {
    if 'a' <= c <= 'z' then (c as int - 32) as char else c
  }

  /** The 26 small letters become their capitals, and nothing else changes. */
  lemma CapitalsAre(c: char)
    ensures var small, capital := "abcdefghijklmnopqrstuvwxyz", "ABCDEFGHIJKLMNOPQRSTUVWXYZ";
            && (forall k :: 0 <= k < 26 ==> AsciiUpper(small[k]) == capital[k])
            && (c !in small ==> AsciiUpper(c) == c)
  {
    var small := "abcdefghijklmnopqrstuvwxyz";
    if 'a' <= c <= 'z' {
      assert small[c as int - 97] == c;
    }
  }

  /** `to_ascii_uppercase` */
  function Upper(s: string): (r: string)
    ensures |r| == |s| && forall i :: 0 <= i < |s| ==> r[i] == AsciiUpper(s[i])
  {
    if s == "" then "" else [AsciiUpper(s[0])] + Upper(s[1..])
  }

  function TrimStart(s: string): (r: string)
    ensures |r| <= |s|
  {
    if s != "" && IsWhitespace(s[0]) then TrimStart(s[1..]) else s
  }

  function TrimEnd(s: string): (r: string)
    ensures |r| <= |s|
  {
    if s != "" && IsWhitespace(s[|s| - 1]) then TrimEnd(s[..|s| - 1]) else s
  }

  /** `trim` */
  function Trim(s: string): string {
    TrimStart(TrimEnd(s))
  }

  predicate AllBlank(s: string) {
    forall i :: 0 <= i < |s| ==> IsWhitespace(s[i])
  }

  lemma {:induction false} TrimStartCuts(s: string) returns (a: string)
    ensures s == a + TrimStart(s) && AllBlank(a)
    ensures TrimStart(s) != "" ==> !IsWhitespace(TrimStart(s)[0])
  {
    a := "";
    if s != "" && IsWhitespace(s[0]) {
      var rest := TrimStartCuts(s[1..]);
      a := [s[0]] + rest;
      Reassociate([s[0]], rest, TrimStart(s));
      assert s == [s[0]] + s[1..];
    }
  }

  lemma {:induction false} TrimEndCuts(s: string) returns (b: string)
    ensures s == TrimEnd(s) + b && AllBlank(b)
    ensures TrimEnd(s) != "" ==> !IsWhitespace(TrimEnd(s)[|TrimEnd(s)| - 1])
  {
    b := "";
    if s != "" && IsWhitespace(s[|s| - 1]) {
      var n := |s| - 1;
      var rest := TrimEndCuts(s[..n]);
      b := rest + [s[n]];
      Reassociate(TrimEnd(s), rest, [s[n]]);
      assert s == s[..n] + [s[n]];
    }
  }

  /** Trimming cuts blanks off both ends, and all of them. */
  lemma TrimCuts(s: string) returns (a: string, b: string)
    ensures s == a + (Trim(s) + b) && AllBlank(a) && AllBlank(b)
    ensures Trim(s) != "" ==> !IsWhitespace(Trim(s)[0]) && !IsWhitespace(Trim(s)[|Trim(s)| - 1])
  {
    b := TrimEndCuts(s);
    a := TrimStartCuts(TrimEnd(s));
    Reassociate(a, Trim(s), b);
    if Trim(s) != "" {
      assert TrimEnd(s)[|TrimEnd(s)| - 1] == Trim(s)[|Trim(s)| - 1];
    }
  }

  /** `trim_matches`, for one character. */
  function TrimMatches(s: string, c: char): string {
    if s != "" && s[|s| - 1] == c then TrimMatches(s[..|s| - 1], c)
    else if s != "" && s[0] == c then TrimMatches(s[1..], c)
    else s
  }

  /** The text without its white space. */
  function Squash(s: string): string {
    if s == "" then ""
    else (if IsWhitespace(s[0]) then "" else [s[0]]) + Squash(s[1..])
  }

  predicate StartsAt(s: string, i: nat, pattern: string) {
    i + |pattern| <= |s| && s[i..i + |pattern|] == pattern
  }

  /** `find`: the first place where `pattern` starts. */
  function Find(s: string, pattern: string): (at: Option<nat>)
    ensures at.Some? ==> at.value + |pattern| <= |s|
  {
    if |s| < |pattern| then None
    else if s[..|pattern|] == pattern then Some(0)
    else if s == "" then None
    else
      match Find(s[1..], pattern)
      case None => None
      case Some(i) => Some(i + 1)
  }

  function Shift(at: Option<nat>, n: nat): Option<nat> {
    match at
    case None => None
    case Some(i) => Some(i + n)
  }

  lemma StartsInTail(s: string, i: nat, pattern: string)
    requires s != ""
    ensures StartsAt(s[1..], i, pattern) == StartsAt(s, i + 1, pattern)
  {
    if i + 1 + |pattern| <= |s| {
      assert s[1..][i..i + |pattern|] == s[i + 1..i + 1 + |pattern|];
    }
  }

  /** Text in which the pattern does not start only shifts the place. */
  lemma {:induction false} FindSkip(a: string, s: string, pattern: string)
    requires pattern != "" && forall i :: 0 <= i < |a| ==> !StartsAt(a + s, i, pattern)
    ensures Find(a + s, pattern) == Shift(Find(s, pattern), |a|)
  {
    if a == "" {
      assert a + s == s;
    } else {
      assert (a + s)[1..] == a[1..] + s;
      forall i | 0 <= i < |a| - 1 ensures !StartsAt(a[1..] + s, i, pattern) {
        StartsInTail(a + s, i, pattern);
      }
      FindSkip(a[1..], s, pattern);
      assert !StartsAt(a + s, 0, pattern);
    }
  }

  /** Finding nothing, and finding the first place, said outright. */
  lemma {:induction false} FindIsFirst(s: string, pattern: string)
    requires pattern != ""
    ensures Find(s, pattern).None? ==> forall i: nat :: !StartsAt(s, i, pattern)
    ensures Find(s, pattern).Some? ==>
              && StartsAt(s, Find(s, pattern).value, pattern)
              && forall i: nat :: i < Find(s, pattern).value ==> !StartsAt(s, i, pattern)
  {
    if |s| >= |pattern| && s[..|pattern|] != pattern {
      FindIsFirst(s[1..], pattern);
      forall i: nat ensures StartsAt(s[1..], i, pattern) == StartsAt(s, i + 1, pattern) {
        StartsInTail(s, i, pattern);
      }
      forall i: nat | i > 0 ensures StartsAt(s, i, pattern) == StartsAt(s[1..], i - 1, pattern) {
        StartsInTail(s, i - 1, pattern);
      }
    }
  }
}
