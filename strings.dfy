/**
 * The Python string operations the explanation engine relies on, over
 * `seq<char>`: substring membership (`needle in s`), `str.replace`, and
 * `str()` of an integer.
 */
module Strings {

  /** `p` is a prefix of `s`. */
  predicate StartsWith(s: string, p: string) {
    |p| <= |s| && s[..|p|] == p
  }

  /** Python's `needle in s`: `needle` occurs in `s` as a contiguous block. */
  predicate Contains(s: string, needle: string) {
    exists i | 0 <= i <= |s| :: StartsWith(s[i..], needle)
  }

  /** An occurrence in the tail of `s` is an occurrence in `s`. */
  lemma ContainsTail(s: string, needle: string)
    requires |s| > 0
    ensures Contains(s[1..], needle) ==> Contains(s, needle)
  {
    if Contains(s[1..], needle) {
      var i :| 0 <= i <= |s[1..]| && StartsWith(s[1..][i..], needle);
      assert s[1..][i..] == s[i + 1..];
    }
  }

  /**
   * Python's `s.replace(pattern, replacement)` for a non-empty pattern: the
   * string is scanned from the left, and each occurrence found is replaced
   * and skipped over, so occurrences never overlap.
   */
  function ReplaceAll(s: string, pattern: string, replacement: string): string
    requires pattern != []
    decreases |s|
  {
    if |s| < |pattern| then s
    else if StartsWith(s, pattern) then replacement + ReplaceAll(s[|pattern|..], pattern, replacement)
    else [s[0]] + ReplaceAll(s[1..], pattern, replacement)
  }

  /** A string without an occurrence of the pattern is left as it is. */
  lemma {:induction false} ReplaceAbsent(s: string, pattern: string, replacement: string)
    requires pattern != [] && !Contains(s, pattern)
    ensures ReplaceAll(s, pattern, replacement) == s
    decreases |s|
  {
    if |s| >= |pattern| {
      assert !StartsWith(s[0..], pattern);
      assert s[0..] == s;
      ContainsTail(s, pattern);
      ReplaceAbsent(s[1..], pattern, replacement);
    }
  }

  /** A single-character pattern that does not occur is replaced nowhere. */
  lemma ReplaceCharAbsent(s: string, c: char, replacement: string)
    requires c !in s
    ensures ReplaceAll(s, [c], replacement) == s
  {
    LastCharAbsent(s, [c]);
    ReplaceAbsent(s, [c], replacement);
  }

  /** Replacing a single character, one character at a time. */
  lemma ReplaceCharStep(s: string, c: char, replacement: string)
    requires |s| > 0
    ensures ReplaceAll(s, [c], replacement)
         == (if s[0] == c then replacement else [s[0]]) + ReplaceAll(s[1..], [c], replacement)
  {
    assert StartsWith(s, [c]) <==> s[0] == c by {
      assert s[..1] == [s[0]];
    }
  }

  /** Replacing a single character distributes over concatenation. */
  lemma {:induction false} ReplaceCharAppend(a: string, b: string, c: char, replacement: string)
    ensures ReplaceAll(a + b, [c], replacement)
         == ReplaceAll(a, [c], replacement) + ReplaceAll(b, [c], replacement)
    decreases |a|
  {
    if a == [] {
      assert a + b == b;
    } else {
      var head := if a[0] == c then replacement else [a[0]];
      ReplaceCharStep(a + b, c, replacement);
      ReplaceCharStep(a, c, replacement);
      assert (a + b)[0] == a[0];
      assert (a + b)[1..] == a[1..] + b;
      ReplaceCharAppend(a[1..], b, c, replacement);
      assert head + (ReplaceAll(a[1..], [c], replacement) + ReplaceAll(b, [c], replacement))
          == head + ReplaceAll(a[1..], [c], replacement) + ReplaceAll(b, [c], replacement);
    }
  }

  /** After replacing `c` by a string free of `c`, no `c` is left. */
  lemma {:induction false} ReplaceCharRemoves(s: string, c: char, replacement: string)
    requires c !in replacement
    ensures c !in ReplaceAll(s, [c], replacement)
    decreases |s|
  {
    if |s| > 0 {
      ReplaceCharStep(s, c, replacement);
      ReplaceCharRemoves(s[1..], c, replacement);
    }
  }

  /** A block the size of `pattern` whose last character differs is not `pattern`. */
  lemma LastCharMismatch(t: string, pattern: string)
    requires pattern != [] && |pattern| <= |t|
    requires t[|pattern| - 1] != pattern[|pattern| - 1]
    ensures !StartsWith(t, pattern)
  {
  }

  /** A string free of the last character of `pattern` does not contain it. */
  lemma LastCharAbsent(t: string, pattern: string)
    requires pattern != [] && pattern[|pattern| - 1] !in t
    ensures !Contains(t, pattern)
  {
  }

  /** Replacing `c` by a string free of `d` adds no `d`. */
  lemma {:induction false} ReplaceCharKeeps(s: string, c: char, replacement: string, d: char)
    requires d !in s && d !in replacement
    ensures d !in ReplaceAll(s, [c], replacement)
    decreases |s|
  {
    if |s| > 0 {
      ReplaceCharStep(s, c, replacement);
      ReplaceCharKeeps(s[1..], c, replacement, d);
    }
  }

  /**
   * A pattern whose last character `c` occurs nowhere else in it is replaced
   * exactly once in `prefix + pattern + suffix` when neither `prefix` nor
   * `suffix` contains `c`: every occurrence ends on a `c`.
   */
  lemma {:induction false} ReplaceUniqueOccurrence(prefix: string, pattern: string, suffix: string, replacement: string)
    requires pattern != []
    requires pattern[|pattern| - 1] !in pattern[..|pattern| - 1]
    requires pattern[|pattern| - 1] !in prefix && pattern[|pattern| - 1] !in suffix
    ensures ReplaceAll(prefix + pattern + suffix, pattern, replacement) == prefix + replacement + suffix
    decreases |prefix|
  {
    if prefix == [] {
      assert prefix + pattern + suffix == pattern + suffix;
      ReplaceAtStart(pattern, suffix, replacement);
    } else {
      SkipFirstChar(prefix, pattern, suffix, replacement);
      ReplaceUniqueOccurrence(prefix[1..], pattern, suffix, replacement);
      ConsAssoc(prefix, replacement, suffix);
    }
  }

  /** Splitting off the head of a non-empty prefix. */
  lemma ConsAssoc(prefix: string, middle: string, suffix: string)
    requires prefix != []
    ensures [prefix[0]] + (prefix[1..] + middle + suffix) == prefix + middle + suffix
  {
    assert prefix == [prefix[0]] + prefix[1..];
  }

  /** An occurrence at the start is replaced, and a suffix free of the pattern's last character is kept. */
  lemma ReplaceAtStart(pattern: string, suffix: string, replacement: string)
    requires pattern != [] && pattern[|pattern| - 1] !in suffix
    ensures ReplaceAll(pattern + suffix, pattern, replacement) == replacement + suffix
  {
    var s := pattern + suffix;
    assert StartsWith(s, pattern);
    assert s[|pattern|..] == suffix;
    LastCharAbsent(suffix, pattern);
    ReplaceAbsent(suffix, pattern, replacement);
  }

  /** The first character of a non-empty prefix free of the pattern's last character is kept. */
  lemma SkipFirstChar(prefix: string, pattern: string, suffix: string, replacement: string)
    requires pattern != [] && prefix != []
    requires pattern[|pattern| - 1] !in pattern[..|pattern| - 1]
    requires pattern[|pattern| - 1] !in prefix
    ensures ReplaceAll(prefix + pattern + suffix, pattern, replacement)
         == [prefix[0]] + ReplaceAll(prefix[1..] + pattern + suffix, pattern, replacement)
  {
    var s := prefix + pattern + suffix;
    var k := |pattern| - 1;
    assert s[k] != pattern[k] by {
      if k >= |prefix| {
        assert s[k] == pattern[k - |prefix|];
        assert pattern[k - |prefix|] in pattern[..k];
      }
    }
    LastCharMismatch(s, pattern);
    assert s[1..] == prefix[1..] + pattern + suffix;
  }

  /** Decimal digit `d` as a character. */
  function DigitChar(d: nat): (c: char)
    requires d < 10
    ensures '0' <= c <= '9' && c as int - '0' as int == d
  {
    (d + '0' as int) as char
  }

  /** Python's `str(n)` for a natural number: its decimal digits, no leading zero. */
  function NatToString(n: nat): (s: string)
    ensures |s| >= 1
    ensures forall i | 0 <= i < |s| :: '0' <= s[i] <= '9'
    ensures |s| > 1 ==> s[0] != '0'
    decreases n
  {
    if n < 10 then [DigitChar(n)] else NatToString(n / 10) + [DigitChar(n % 10)]
  }

  /** Every character of `s` is a decimal digit. */
  predicate IsDigits(s: string) {
    forall i | 0 <= i < |s| :: '0' <= s[i] <= '9'
  }

  /** The number a string of decimal digits denotes. */
  function DecimalValue(s: string): nat
    requires IsDigits(s)
  {
    if s == [] then 0
    else 10 * DecimalValue(s[..|s| - 1]) + (s[|s| - 1] as int - '0' as int)
  }

  /** Reading back the digits `str(n)` prints gives `n`. */
  lemma {:induction false} NatToStringRoundTrip(n: nat)
    ensures DecimalValue(NatToString(n)) == n
    decreases n
  {
    if n >= 10 {
      NatToStringRoundTrip(n / 10);
      var s := NatToString(n);
      assert s[..|s| - 1] == NatToString(n / 10);
    }
  }

  /** Python's `str(i)` for an integer: a minus sign before negative numbers. */
  function IntToString(i: int): (s: string)
    ensures i >= 0 ==> IsDigits(s) && DecimalValue(s) == i
    ensures i >= 0 ==> |s| >= 1 && (|s| > 1 ==> s[0] != '0')
    ensures i < 0 ==> |s| > 1 && s[0] == '-' && IsDigits(s[1..]) && DecimalValue(s[1..]) == -i
    ensures i < 0 ==> |s| > 2 ==> s[1] != '0'
  {
    if i < 0 then
      NatToStringRoundTrip(-i);
      assert ("-" + NatToString(-i))[1..] == NatToString(-i);
      "-" + NatToString(-i)
    else
      NatToStringRoundTrip(i);
      NatToString(i)
  }
}
