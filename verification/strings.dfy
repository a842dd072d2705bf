/** The few string operations of Python the deep scan relies on:
    `sub in text`, `str.endswith`, `str.lower`, slicing `s[:n]` and
    `s.split(sep)[0]`. Strings are sequences of Unicode scalar values,
    as Python's `str` is a sequence of code points. */
module Strings {

  /** `sub` occurs in `text` starting at index `i`. */
  predicate OccursAt(text: string, sub: string, i: nat) {
    i + |sub| <= |text| && text[i..i + |sub|] == sub
  }

  /** Python's `sub in text`: scan the start positions left to right. */
  function Contains(text: string, sub: string): (r: bool)
    ensures sub <= text ==> r
    ensures r ==> |sub| <= |text|
    decreases |text|
  {
    if sub <= text then true
    else if text == [] then false
    else Contains(text[1..], sub)
  }

  /** `Contains` finds exactly the occurrences `OccursAt` describes. */
  lemma {:induction false} ContainsIff(text: string, sub: string)
    ensures Contains(text, sub) <==> exists i: nat :: OccursAt(text, sub, i)
    decreases |text|
  {
    if sub <= text {
      assert OccursAt(text, sub, 0);
    } else if text == [] {
      assert |sub| > 0;
    } else {
      ContainsIff(text[1..], sub);
      if exists i: nat :: OccursAt(text, sub, i) {
        var i: nat :| OccursAt(text, sub, i);
        assert i != 0;
        assert text[1..][i - 1..i - 1 + |sub|] == text[i..i + |sub|];
        assert OccursAt(text[1..], sub, i - 1);
      }
      if exists i: nat :: OccursAt(text[1..], sub, i) {
        var i: nat :| OccursAt(text[1..], sub, i);
        assert text[1..][i..i + |sub|] == text[i + 1..i + 1 + |sub|];
        assert OccursAt(text, sub, i + 1);
      }
    }
  }

  /** Nothing but the empty string occurs in the empty string. */
  lemma {:induction false} ContainedInEmpty(sub: string)
    ensures Contains("", sub) <==> sub == ""
  {
    ContainsIff("", sub);
    if sub == "" {
      assert OccursAt("", sub, 0);
    }
  }

  /** A string holding a character that `text` lacks does not occur in `text`. */
  lemma ForeignCharNotContained(text: string, sub: string, k: nat)
    requires k < |sub| && sub[k] !in text
    ensures !Contains(text, sub)
  {
    ContainsIff(text, sub);
    forall i: nat
      ensures !OccursAt(text, sub, i)
    {
      if i + |sub| <= |text| {
        assert text[i..i + |sub|][k] == text[i + k];
      }
    }
  }

  /** Python's `s.endswith(suffix)`. */
  function EndsWith(s: string, suffix: string): (r: bool)
    ensures r <==> |suffix| <= |s| &&
                   forall i :: 0 <= i < |suffix| ==> s[|s| - |suffix| + i] == suffix[i]
  {
    |suffix| <= |s| && s[|s| - |suffix|..] == suffix
  }

  /** `str.lower()` restricted to ASCII letters; repository names on the
      hosting provider consist of ASCII letters, digits, `-`, `_` and `.`. */
  function LowerChar(c: char): char {
    if 'A' <= c <= 'Z' then (c as int + 32) as char else c
  }

  function LowerAscii(s: string): (r: string)
    ensures |r| == |s|
    ensures forall i :: 0 <= i < |r| ==> !('A' <= r[i] <= 'Z')
    ensures forall i :: 0 <= i < |s| && !('A' <= s[i] <= 'Z') ==> r[i] == s[i]
    ensures forall i :: 0 <= i < |s| && 'A' <= s[i] <= 'Z' ==> r[i] as int == s[i] as int + 32
  {
    seq(|s|, i requires 0 <= i < |s| => LowerChar(s[i]))
  }

  function Min(a: int, b: int): int {
    if a <= b then a else b
  }

  /** Python's `s[:n]` for `n >= 0`: the longest prefix of `s` of length at most `n`. */
  function Truncate(s: string, n: nat): (r: string)
    ensures r <= s
    ensures |r| == Min(|s|, n)
  {
    if |s| <= n then s else s[..n]
  }

  /** Python's `s.split(sep)[0]`: the part of `s` before the first `sep`,
      or all of `s` when `sep` does not occur. */
  function BeforeFirst(s: string, sep: char): (r: string)
    ensures r <= s
    ensures sep !in r
    ensures |r| < |s| ==> s[|r|] == sep
  {
    if s == [] then []
    else if s[0] == sep then []
    else [s[0]] + BeforeFirst(s[1..], sep)
  }

  /** The first `sep` at index `k` ends the part `BeforeFirst` keeps. */
  lemma BeforeFirstAt(s: string, sep: char, k: nat)
    requires k < |s| && s[k] == sep && sep !in s[..k]
    ensures BeforeFirst(s, sep) == s[..k]
  {
    var r := BeforeFirst(s, sep);
    assert forall i :: 0 <= i < k ==> s[..k][i] == s[i];
    assert r == s[..|r|];
  }
}
