/**
 The string operations the views use: ASCII lower-casing (`toLowerCase`),
 substring search (`includes`) and replacement of the first occurrence of a
 literal pattern (`replace` with a string pattern).
 */
module Strings {

  /** Lower-cases one character; only 'A'..'Z' change (see the model's README). */
  function LowerChar(c: char): char
  {
    if 'A' <= c <= 'Z' then (c as int + 32) as char else c
  }

  function Lower(s: string): string
  {
    seq(|s|, i requires 0 <= i < |s| => LowerChar(s[i]))
  }

  lemma LowerAppend(a: string, b: string)
    ensures Lower(a + b) == Lower(a) + Lower(b)
  {
    assert forall i :: 0 <= i < |a + b| ==> Lower(a + b)[i] == (Lower(a) + Lower(b))[i];
  }

  predicate IsPrefix(p: string, s: string)
  {
    |p| <= |s| && s[..|p|] == p
  }

  /** `needle` occurs in `hay` starting at offset `i`. */
  ghost predicate OccursAt(hay: string, needle: string, i: int)
  {
    0 <= i && i + |needle| <= |hay| && hay[i..i + |needle|] == needle
  }

  /** `hay.includes(needle)`, searched left to right. */
  predicate Contains(hay: string, needle: string)
    decreases |hay|
  {
    IsPrefix(needle, hay) || (|hay| > 0 && Contains(hay[1..], needle))
  }

  /** The search finds exactly the offsets at which the needle occurs. */
  lemma {:induction false} ContainsIff(hay: string, needle: string)
    ensures Contains(hay, needle) <==> exists i :: OccursAt(hay, needle, i)
    decreases |hay|
  {
    if IsPrefix(needle, hay) {
      assert OccursAt(hay, needle, 0);
    } else if |hay| > 0 {
      var tail := hay[1..];
      ContainsIff(tail, needle);
      if Contains(tail, needle) {
        var i :| OccursAt(tail, needle, i);
        assert hay[i + 1..i + 1 + |needle|] == tail[i..i + |needle|];
        assert OccursAt(hay, needle, i + 1);
      }
      if exists i :: OccursAt(hay, needle, i) {
        var i :| OccursAt(hay, needle, i);
        assert i != 0;
        assert tail[i - 1..i - 1 + |needle|] == hay[i..i + |needle|];
        assert OccursAt(tail, needle, i - 1);
      }
    }
  }

  /** Every string contains the empty string. */
  lemma ContainsEmpty(hay: string)
    ensures Contains(hay, "")
  {
    assert IsPrefix("", hay);
  }

  /** A prefix is contained. */
  lemma PrefixContained(p: string, s: string)
    requires IsPrefix(p, s)
    ensures Contains(s, p)
  {
  }

  /** Substring containment is transitive. */
  lemma ContainsTransitive(a: string, b: string, c: string)
    requires Contains(a, b) && Contains(b, c)
    ensures Contains(a, c)
  {
    ContainsIff(a, b);
    ContainsIff(b, c);
    var i :| OccursAt(a, b, i);
    var j :| OccursAt(b, c, j);
    assert a[i..i + |b|] == b;
    assert forall k :: 0 <= k < |c| ==> a[i + j..i + j + |c|][k] == b[j + k] == c[k];
    assert OccursAt(a, c, i + j);
    ContainsIff(a, c);
  }

  /**
   `s.replace(pattern, replacement)` with a string pattern: only the first
   occurrence is replaced; without an occurrence the string is unchanged.
   The replacement is inserted literally, which is what JavaScript does for a
   replacement without `$` patterns (`$&`, `$$`, ...), such as the "" the
   sidebar heading uses.
   */
  function ReplaceFirst(s: string, pattern: string, replacement: string): string
    decreases |s|
  {
    if IsPrefix(pattern, s) then replacement + s[|pattern|..]
    else if |s| == 0 then s
    else [s[0]] + ReplaceFirst(s[1..], pattern, replacement)
  }

  /** An occurrence in the tail is an occurrence one further along in the whole string. */
  lemma OccursInTail(s: string, pattern: string, j: nat)
    requires |s| > 0
    ensures OccursAt(s[1..], pattern, j) <==> OccursAt(s, pattern, j + 1)
  {
    if j + |pattern| <= |s| - 1 {
      assert s[1..][j..j + |pattern|] == s[j + 1..j + 1 + |pattern|];
    }
  }

  /** The first occurrence, and only it, is replaced. */
  lemma {:induction false} ReplaceFirstOccurrence(s: string, pattern: string, replacement: string, i: nat)
    requires OccursAt(s, pattern, i)
    requires forall j :: 0 <= j < i ==> !OccursAt(s, pattern, j)
    ensures ReplaceFirst(s, pattern, replacement) == s[..i] + replacement + s[i + |pattern|..]
    decreases i
  {
    if i == 0 {
      assert IsPrefix(pattern, s);
    } else {
      assert !OccursAt(s, pattern, 0);
      assert !IsPrefix(pattern, s);
      var tail := s[1..];
      OccursInTail(s, pattern, i - 1);
      forall j | 0 <= j < i - 1
        ensures !OccursAt(tail, pattern, j)
      {
        OccursInTail(s, pattern, j);
      }
      ReplaceFirstOccurrence(tail, pattern, replacement, i - 1);
      calc {
        ReplaceFirst(s, pattern, replacement);
        [s[0]] + ReplaceFirst(tail, pattern, replacement);
        [s[0]] + (tail[..i - 1] + replacement + tail[i - 1 + |pattern|..]);
        { assert s[..i] == [s[0]] + tail[..i - 1];
          assert s[i + |pattern|..] == tail[i - 1 + |pattern|..]; }
        s[..i] + replacement + s[i + |pattern|..];
      }
    }
  }

  /** Without an occurrence, the string comes back unchanged. */
  lemma {:induction false} ReplaceFirstAbsent(s: string, pattern: string, replacement: string)
    requires !Contains(s, pattern)
    ensures ReplaceFirst(s, pattern, replacement) == s
    decreases |s|
  {
    if |s| > 0 {
      ReplaceFirstAbsent(s[1..], pattern, replacement);
      assert [s[0]] + s[1..] == s;
    }
  }
}
