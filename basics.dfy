/** Shared vocabulary: Java's nullable references as Option, and the few
    java.lang.String operations the bot relies on, over seq<char>. */
module Basics {

  /** A Java reference that may be null. */
  datatype Option<T> = None | Some(value: T)

  /** Java's `String.valueOf(Object)` for a nullable string: null prints as "null". */
  function Show(s: Option<string>): string {
    if s.Some? then s.value else "null"
  }

  /** The regex class `\s` of java.util.regex without UNICODE_CHARACTER_CLASS: [ \t\n\x0B\f\r]. */
  predicate IsJavaSpace(c: char) {
    c == ' ' || c == '\t' || c == '\n' || c == '\U{0B}' || c == '\U{0C}' || c == '\r'
  }

  /** The regex class [a-zA-Z0-9]. */
  predicate IsAsciiAlnum(c: char) {
    ('a' <= c <= 'z') || ('A' <= c <= 'Z') || ('0' <= c <= '9')
  }

  /** `s.startsWith(p)` */
  predicate StartsWith(s: string, p: string) {
    |p| <= |s| && s[..|p|] == p
  }

  /** `s.substring(i).startsWith(p)`, i.e. p occurs in s at position i. */
  predicate OccursAt(s: string, i: nat, p: string) {
    i + |p| <= |s| && s[i..i + |p|] == p
  }

  /** p occurs at the start of p + b ... */
  lemma OccursAtStart(p: string, b: string)
    ensures OccursAt(p + b, 0, p)
  {
    assert (p + b)[..|p|] == p;
  }

  /** ... and at the end of a + p ... */
  lemma OccursAtEnd(a: string, p: string)
    ensures OccursAt(a + p, |a|, p)
  {
    assert (a + p)[|a|..|a| + |p|] == p;
  }

  /** ... and an occurrence stays where it is whatever is appended. */
  lemma OccursAtExtend(a: string, i: nat, p: string, b: string)
    requires OccursAt(a, i, p)
    ensures OccursAt(a + b, i, p)
  {
    assert (a + b)[i..i + |p|] == a[i..i + |p|];
  }

  /** `s.contains(sub)` */
  predicate Contains(s: string, sub: string) {
    exists i: nat | i <= |s| :: OccursAt(s, i, sub)
  }

  /** Whatever surrounds it, p is contained in a + p + b. */
  lemma ContainsMiddle(a: string, p: string, b: string)
    ensures Contains(a + p + b, p)
  {
    OccursAtEnd(a, p);
    OccursAtExtend(a + p, |a|, p, b);
  }

  /** `s.indexOf(c)`: the first position of c, or -1. */
  function IndexOfChar(s: string, c: char): (r: int)
    ensures r == -1 <==> c !in s
    ensures r != -1 ==> 0 <= r < |s| && s[r] == c && c !in s[..r]
  {
    if s == [] then -1
    else if s[0] == c then 0
    else
      var k := IndexOfChar(s[1..], c);
      assert s[1..] == s[..|s|][1..];
      if k == -1 then -1
      else
        assert s[..k + 1] == [s[0]] + s[1..][..k];
        k + 1
  }

  /** `s.lastIndexOf(c)`: the last position of c, or -1. */
  function LastIndexOfChar(s: string, c: char): (r: int)
    ensures r == -1 <==> c !in s
    ensures r != -1 ==> 0 <= r < |s| && s[r] == c && c !in s[r + 1..]
  {
    if s == [] then -1
    else if s[|s| - 1] == c then |s| - 1
    else
      var k := LastIndexOfChar(s[..|s| - 1], c);
      assert s == s[..|s| - 1] + [s[|s| - 1]];
      if k == -1 then -1
      else
        assert s[k + 1..] == s[..|s| - 1][k + 1..] + [s[|s| - 1]];
        k
  }

  /** The first occurrence is determined by the prefix that holds it. */
  lemma {:induction false} IndexOfCharAfterPrefix(x: string, c: char, y: string)
    requires c !in x
    ensures IndexOfChar(x + [c] + y, c) == |x|
  {
    var s := x + [c] + y;
    var r := IndexOfChar(s, c);
    assert s[|x|] == c;
    assert forall i :: 0 <= i < |x| ==> s[i] == x[i];
  }

  /** The last occurrence is determined by the suffix that follows it. */
  lemma {:induction false} LastIndexOfCharBeforeSuffix(x: string, c: char, y: string)
    requires c !in y
    ensures LastIndexOfChar(x + [c] + y, c) == |x|
  {
    var s := x + [c] + y;
    var r := LastIndexOfChar(s, c);
    assert s[|x|] == c;
    assert forall i :: |x| < i < |s| ==> s[i] == y[i - |x| - 1];
  }

  /** `Matcher.find()` from start position i onwards, given what the pattern
      gives at each start position: the first start position that matches
      decides. */
  function FindFrom<T>(ms: seq<Option<T>>, i: nat): Option<T>
    requires i <= |ms|
    decreases |ms| - i
  {
    if i == |ms| then None
    else if ms[i].Some? then ms[i]
    else FindFrom(ms, i + 1)
  }

  /** `find` reports the match at the leftmost position where the pattern
      matches, and fails only when it matches nowhere. */
  lemma {:induction false} FindFromLeftmost<T>(ms: seq<Option<T>>, i: nat)
    requires i <= |ms|
    ensures FindFrom(ms, i).None? <==> forall k :: i <= k < |ms| ==> ms[k].None?
    ensures FindFrom(ms, i).Some? ==>
      exists k :: i <= k < |ms| && ms[k] == FindFrom(ms, i)
                  && forall m :: i <= m < k ==> ms[m].None?
    decreases |ms| - i
  {
    if i < |ms| && ms[i].None? {
      FindFromLeftmost(ms, i + 1);
      if FindFrom(ms, i).Some? {
        var k :| i + 1 <= k < |ms| && ms[k] == FindFrom(ms, i)
                 && forall m :: i + 1 <= m < k ==> ms[m].None?;
        assert forall m :: i <= m < k ==> ms[m].None?;
      }
    }
  }

  /** Start positions that do not match can be skipped. */
  lemma {:induction false} SkipNoMatch<T>(ms: seq<Option<T>>, i: nat, j: nat)
    requires i <= j <= |ms|
    requires forall k :: i <= k < j ==> ms[k].None?
    ensures FindFrom(ms, i) == FindFrom(ms, j)
    decreases j - i
  {
    if i < j {
      SkipNoMatch(ms, i + 1, j);
    }
  }
}
