/**
 * The few string operations matrixstats.py uses, written as functions on
 * `seq<char>`: `s.split(c)[0]`, `s.split(c)[-1]`, `s[1:]`, `s.replace(a, b)`
 * for one-character `a` and `b`, and the substring test `sub in s`.
 */
module Text {

  /** `s.split(c)[0]`: the text before the first `c`, or all of `s` when it has none. */
  function BeforeFirst(s: string, c: char): (r: string)
    ensures c !in r
    ensures r <= s
    ensures |r| < |s| ==> s[|r|] == c
  {
    if s == [] then []
    else if s[0] == c then []
    else [s[0]] + BeforeFirst(s[1..], c)
  }

  /** `s.split(c)[-1]`: the text after the last `c`, or all of `s` when it has none. */
  function AfterLast(s: string, c: char): (r: string)
    ensures c !in r
    ensures |r| <= |s| && r == s[|s| - |r|..]
    ensures |r| < |s| ==> s[|s| - |r| - 1] == c
  {
    if s == [] then []
    else if s[|s| - 1] == c then []
    else AfterLast(s[..|s| - 1], c) + [s[|s| - 1]]
  }

  /** `s[1:]`: everything but the first character; the empty string stays empty. */
  function DropFirst(s: string): (r: string)
    ensures |r| == if s == [] then 0 else |s| - 1
    ensures s != [] ==> s == [s[0]] + r
  {
    if s == [] then [] else s[1..]
  }

  /** `s.replace(a, b)` for single characters: every `a` becomes `b`, nothing else moves. */
  function ReplaceChar(s: string, a: char, b: char): (r: string)
    ensures |r| == |s|
    ensures forall i :: 0 <= i < |s| ==> r[i] == (if s[i] == a then b else s[i])
    ensures a != b ==> a !in r
  {
    if s == [] then []
    else [if s[0] == a then b else s[0]] + ReplaceChar(s[1..], a, b)
  }

  /** Python's `sub in s`. */
  predicate Contains(s: string, sub: string)
  {
    sub <= s || (s != [] && Contains(s[1..], sub))
  }

  /** `split(c)[0]` of a string with a first `c` after `x` gives back `x`. */
  lemma {:induction false} BeforeFirstOf(x: string, c: char, y: string)
    requires c !in x
    ensures BeforeFirst(x + [c] + y, c) == x
  {
    if x != [] {
      assert (x + [c] + y)[1..] == x[1..] + [c] + y;
      BeforeFirstOf(x[1..], c, y);
    } else {
      assert x + [c] + y == [c] + y;
    }
  }

  /** `split(c)[-1]` of a string whose last `c` comes before `y` gives back `y`. */
  lemma {:induction false} AfterLastOf(x: string, c: char, y: string)
    requires c !in y
    ensures AfterLast(x + [c] + y, c) == y
  {
    if y != [] {
      var s := x + [c] + y;
      assert s[..|s| - 1] == x + [c] + y[..|y| - 1];
      AfterLastOf(x, c, y[..|y| - 1]);
      assert y == y[..|y| - 1] + [y[|y| - 1]];
    } else {
      assert x + [c] + y == x + [c];
    }
  }
}
