/**
 * String operations with the meaning the Python built-ins they stand for give them:
 * `str.startswith`, `in`, `str.split(c)`, `c.join`, `str.strip()`, `str.rstrip(c)`,
 * `str.lower()` (on ASCII letters) and `str(n)` for integers.
 */
module Text {

  /**
   * The characters for which Python's `str.isspace()` holds, i.e. what `str.strip()` removes:
   * tab to carriage return, the four information separators U+001C to U+001F, space, U+0085,
   * U+00A0, U+1680, U+2000 to U+200A, U+2028, U+2029, U+202F, U+205F and U+3000.
   */
  predicate IsSpace(c: char) {
    var n := c as int;
    n == 0x20 || 0x09 <= n <= 0x0D || 0x1C <= n <= 0x1F || n == 0x85 || n == 0xA0 || n == 0x1680
    || 0x2000 <= n <= 0x200A || n == 0x2028 || n == 0x2029 || n == 0x202F || n == 0x205F || n == 0x3000
  }

  /** The character class `[a-fA-F0-9]`. */
  predicate IsHexDigit(c: char) {
    '0' <= c <= '9' || 'a' <= c <= 'f' || 'A' <= c <= 'F'
  }

  predicate AllHexDigits(s: string) {
    forall k :: 0 <= k < |s| ==> IsHexDigit(s[k])
  }

  predicate StartsWith(s: string, prefix: string) {
    |prefix| <= |s| && s[..|prefix|] == prefix
  }

  predicate EndsWith(s: string, suffix: string) {
    |suffix| <= |s| && s[|s| - |suffix|..] == suffix
  }

  /** `sub` occurs in `s` starting at position `i`. */
  predicate OccursAt(s: string, sub: string, i: int) {
    0 <= i <= |s| - |sub| && s[i..i + |sub|] == sub
  }

  /** Python's `sub in s`. */
  predicate Contains(s: string, sub: string) {
    exists i | 0 <= i <= |s| - |sub| :: OccursAt(s, sub, i)
  }

  lemma ContainsAt(s: string, sub: string, i: int)
    requires OccursAt(s, sub, i)
    ensures Contains(s, sub)
  {
  }

  /** A substring of a substring is a substring. */
  lemma ContainsTrans(s: string, mid: string, sub: string)
    requires Contains(s, mid) && Contains(mid, sub)
    ensures Contains(s, sub)
  {
    var i :| 0 <= i <= |s| - |mid| && OccursAt(s, mid, i);
    var j :| 0 <= j <= |mid| - |sub| && OccursAt(mid, sub, j);
    assert s[i..i + |mid|] == mid;
    forall k | 0 <= k < |sub| ensures s[i + j + k] == sub[k] {
      assert sub[k] == mid[j + k];
      assert mid[j + k] == s[i..i + |mid|][j + k];
    }
    assert s[i + j..i + j + |sub|] == sub;
    ContainsAt(s, sub, i + j);
  }

  lemma StartsWithContains(s: string, prefix: string)
    requires StartsWith(s, prefix)
    ensures Contains(s, prefix)
  {
    ContainsAt(s, prefix, 0);
  }

  /** Position of the first occurrence of `c`. */
  function FirstIndex(s: string, c: char): (i: nat)
    requires c in s
    ensures i < |s| && s[i] == c && forall k :: 0 <= k < i ==> s[k] != c
  {
    if s[0] == c then 0 else FirstIndex(s[1..], c) + 1
  }

  /** `i` is the first occurrence of `c`, so it is the one `FirstIndex` finds. */
  lemma {:induction false} FirstIndexIs(s: string, c: char, i: nat)
    requires i < |s| && s[i] == c && forall k :: 0 <= k < i ==> s[k] != c
    ensures c in s && FirstIndex(s, c) == i
  {
    assert s[i] in s;
    if i > 0 {
      assert s[0] != c;
      FirstIndexIs(s[1..], c, i - 1);
    }
  }

  /** Python's `s.split(c)` for a one-character separator: never empty. */
  function Split(s: string, c: char): (parts: seq<string>)
    ensures |parts| >= 1
    decreases |s|
  {
    if c !in s then [s]
    else
      var i := FirstIndex(s, c);
      [s[..i]] + Split(s[i + 1..], c)
  }

  /** No part of a split holds the separator. */
  lemma {:induction false} SplitPartsSeparatorFree(s: string, c: char)
    ensures forall k :: 0 <= k < |Split(s, c)| ==> c !in Split(s, c)[k]
    decreases |s|
  {
    if c in s {
      var i := FirstIndex(s, c);
      SplitPartsSeparatorFree(s[i + 1..], c);
      assert c !in s[..i];
    }
  }

  /** The first part of a split is the prefix of `s` up to the first separator or the end. */
  lemma SplitHead(s: string, c: char)
    ensures |Split(s, c)[0]| <= |s| && Split(s, c)[0] == s[..|Split(s, c)[0]|]
    ensures |Split(s, c)[0]| == |s| || s[|Split(s, c)[0]|] == c
  {
  }

  /** Python's `c.join(parts)`. */
  function Join(parts: seq<string>, c: char): string
  {
    if |parts| == 0 then ""
    else if |parts| == 1 then parts[0]
    else parts[0] + [c] + Join(parts[1..], c)
  }

  /** Joining the parts of a split gives back the string. */
  lemma {:induction false} JoinSplit(s: string, c: char)
    ensures Join(Split(s, c), c) == s
    decreases |s|
  {
    if c in s {
      var i := FirstIndex(s, c);
      var rest := s[i + 1..];
      JoinSplit(rest, c);
      assert Split(s, c) == [s[..i]] + Split(rest, c);
      assert (Split(s, c))[1..] == Split(rest, c);
      assert s == s[..i] + [c] + rest;
    }
  }

  /** Splitting the join of separator-free parts gives back the parts. */
  lemma {:induction false} SplitJoin(parts: seq<string>, c: char)
    requires |parts| >= 1
    requires forall k :: 0 <= k < |parts| ==> c !in parts[k]
    ensures Split(Join(parts, c), c) == parts
  {
    if |parts| == 1 {
      assert Join(parts, c) == parts[0];
    } else {
      var tail := parts[1..];
      assert parts == [parts[0]] + tail;
      assert forall k :: 0 <= k < |tail| ==> c !in tail[k] by {
        forall k | 0 <= k < |tail| ensures c !in tail[k] {
          assert tail[k] == parts[k + 1];
        }
      }
      SplitJoin(tail, c);
      var rest := Join(tail, c);
      assert Join(parts, c) == parts[0] + [c] + rest;
      SplitConcat(parts[0], rest, c);
      assert c !in parts[0];
      assert Split(parts[0], c) == [parts[0]];
    }
  }

  /** A split at the first separator, wherever it is found. */
  lemma SplitAt(s: string, c: char, i: nat)
    requires i < |s| && s[i] == c && forall k :: 0 <= k < i ==> s[k] != c
    ensures Split(s, c) == [s[..i]] + Split(s[i + 1..], c)
  {
    FirstIndexIs(s, c, i);
  }

  /** A separator splits a string into the parts before it and the parts after it. */
  lemma {:induction false} SplitConcat(a: string, b: string, c: char)
    ensures Split(a + [c] + b, c) == Split(a, c) + Split(b, c)
    decreases |a|
  {
    if c !in a {
      SplitConcatFirst(a, b, c);
    } else {
      var i := FirstIndex(a, c);
      var rest := a[i + 1..];
      SplitConcatStep(a, b, c, i);
      SplitConcat(rest, b, c);
      SplitAt(a, c, i);
      SeqAssoc([a[..i]], Split(rest, c), Split(b, c));
    }
  }

  lemma SeqAssoc(x: seq<string>, y: seq<string>, z: seq<string>)
    ensures x + (y + z) == (x + y) + z
  {
  }

  /** The separator after a separator-free `a` is the first one. */
  lemma SplitConcatFirst(a: string, b: string, c: char)
    requires c !in a
    ensures Split(a + [c] + b, c) == Split(a, c) + Split(b, c)
  {
    var s := a + [c] + b;
    assert s[..|a|] == a;
    SplitAt(s, c, |a|);
    assert s[|a| + 1..] == b;
  }

  /** A separator inside `a` is also the first one of `a + [c] + b`. */
  lemma SplitConcatStep(a: string, b: string, c: char, i: nat)
    requires i < |a| && a[i] == c && forall k :: 0 <= k < i ==> a[k] != c
    ensures Split(a + [c] + b, c) == [a[..i]] + Split(a[i + 1..] + [c] + b, c)
  {
    var s := a + [c] + b;
    var rest := a[i + 1..];
    assert a == a[..i] + [c] + rest;
    assert s == a[..i] + [c] + (rest + [c] + b);
    SplitConcatFirst(a[..i], rest + [c] + b, c);
    assert Split(a[..i], c) == [a[..i]];
  }

  /** An occurrence in a suffix is an occurrence in the whole string. */
  lemma OccursInSuffix(s: string, sub: string, i: nat, j: nat)
    requires i <= |s| && OccursAt(s[i..], sub, j)
    ensures OccursAt(s, sub, i + j)
  {
    assert s[i..][j..j + |sub|] == s[i + j..i + j + |sub|];
  }

  /** Where the `k`-th part of a split starts in the string. */
  lemma {:induction false} SplitPartAt(s: string, c: char, k: nat) returns (at: nat)
    requires k < |Split(s, c)|
    ensures OccursAt(s, Split(s, c)[k], at)
    decreases |s|
  {
    if c !in s {
      assert Split(s, c) == [s];
      assert s[0..|s|] == s;
      at := 0;
    } else {
      var i := FirstIndex(s, c);
      var rest := s[i + 1..];
      SplitAt(s, c, i);
      if k == 0 {
        assert s[0..i] == s[..i];
        at := 0;
        assert OccursAt(s, s[..i], 0);
      } else {
        var part := Split(rest, c)[k - 1];
        var j := SplitPartAt(rest, c, k - 1);
        assert Split(s, c)[k] == part;
        OccursInSuffix(s, part, i + 1, j);
        at := i + 1 + j;
      }
    }
  }

  /** Every part of a split occurs in the string. */
  lemma SplitPartContained(s: string, c: char, k: nat)
    requires k < |Split(s, c)|
    ensures Contains(s, Split(s, c)[k])
  {
    var at := SplitPartAt(s, c, k);
    ContainsAt(s, Split(s, c)[k], at);
  }

  /** `s.lstrip()`: a suffix of `s`, everything removed is whitespace, nothing left to remove. */
  function TrimLeft(s: string): (r: string)
    ensures |r| <= |s| && r == s[|s| - |r|..]
    ensures forall k :: 0 <= k < |s| - |r| ==> IsSpace(s[k])
    ensures r == [] || !IsSpace(r[0])
  {
    if s == [] || !IsSpace(s[0]) then s else TrimLeft(s[1..])
  }

  /** `s.rstrip()`: a prefix of `s`, everything removed is whitespace, nothing left to remove. */
  function TrimRight(s: string): (r: string)
    ensures |r| <= |s| && r == s[..|r|]
    ensures forall k :: |r| <= k < |s| ==> IsSpace(s[k])
    ensures r == [] || !IsSpace(r[|r| - 1])
  {
    if s == [] || !IsSpace(s[|s| - 1]) then s else TrimRight(s[..|s| - 1])
  }

  /** `s.strip()`. */
  function Strip(s: string): string {
    TrimRight(TrimLeft(s))
  }

  /** `s.rstrip(c)` for one character `c`. */
  function RStrip(s: string, c: char): (r: string)
    ensures |r| <= |s| && r == s[..|r|]
    ensures forall k :: |r| <= k < |s| ==> s[k] == c
    ensures r == [] || r[|r| - 1] != c
  {
    if s == [] || s[|s| - 1] != c then s else RStrip(s[..|s| - 1], c)
  }

  function LowerChar(c: char): char {
    if 'A' <= c <= 'Z' then (c as int + 32) as char else c
  }

  /** `s.lower()` on ASCII letters; every other character is kept. */
  function Lower(s: string): string {
    seq(|s|, k requires 0 <= k < |s| => LowerChar(s[k]))
  }

  lemma LowerIdempotent(s: string)
    ensures Lower(Lower(s)) == Lower(s)
  {
  }

  lemma LowerConcat(s: string, t: string)
    ensures Lower(s + t) == Lower(s) + Lower(t)
  {
  }

  function DigitChar(d: nat): char
    requires d < 10
    ensures '0' <= DigitChar(d) <= '9' && DigitChar(d) as int - '0' as int == d
  {
    ('0' as int + d) as char
  }

  /** `str(n)` for a natural number: decimal digits, no leading zero. */
  function NatToString(n: nat): (r: string)
    ensures |r| >= 1 && forall k :: 0 <= k < |r| ==> '0' <= r[k] <= '9'
    ensures |r| > 1 ==> r[0] != '0'
  {
    if n < 10 then [DigitChar(n)] else NatToString(n / 10) + [DigitChar(n % 10)]
  }

  /** `str(i)` for an integer. */
  function IntToString(i: int): string {
    if i < 0 then "-" + NatToString(-i) else NatToString(i)
  }
}
