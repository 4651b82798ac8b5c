/**
 * The JavaScript string builtins the gallery relies on, stated over `seq<char>`:
 * `startsWith`, `indexOf`, `includes`, `replace` with a string pattern (first
 * occurrence only) and `split(sep)[0]`.
 */
module Strings {
  import opened Wrappers

  /** `p` occurs in `s` at index `i`. */
  predicate OccursAt(s: string, p: string, i: nat) {
    i + |p| <= |s| && s[i..i + |p|] == p
  }

  /** `s.startsWith(p)`. */
  predicate StartsWith(s: string, p: string) {
    |p| <= |s| && s[..|p|] == p
  }

  /** `s.endsWith(p)`. */
  predicate EndsWith(s: string, p: string) {
    |p| <= |s| && s[|s| - |p|..] == p
  }

  /** `s.indexOf(p, from)`: the leftmost occurrence of `p` in `s` at or after `from`. */
  function IndexOfFrom(s: string, p: string, from: nat): (r: Option<nat>)
    ensures r.Some? ==> from <= r.value && OccursAt(s, p, r.value)
    ensures r.Some? ==> forall j :: from <= j < r.value ==> !OccursAt(s, p, j)
    ensures r.None? ==> forall j :: from <= j ==> !OccursAt(s, p, j)
    decreases |s| - from
  {
    if from + |p| > |s| then None
    else if s[from..from + |p|] == p then Some(from)
    else IndexOfFrom(s, p, from + 1)
  }

  /** `s.indexOf(p)`, with `None` for JavaScript's `-1`. */
  function IndexOf(s: string, p: string): Option<nat> {
    IndexOfFrom(s, p, 0)
  }

  /** `s.includes(p)`. */
  function Includes(s: string, p: string): (r: bool)
    ensures r <==> exists i :: OccursAt(s, p, i)
  {
    IndexOf(s, p).Some?
  }

  /** `s.replace(p, rep)` with a string pattern: only the first occurrence is replaced. */
  function ReplaceFirst(s: string, p: string, rep: string): string {
    match IndexOf(s, p)
    case None => s
    case Some(i) => s[..i] + rep + s[i + |p|..]
  }

  /** `s.split(sep)[0]` for a non-empty separator: the text before the first `sep`, or all of `s`. */
  function BeforeFirst(s: string, sep: string): string
    requires sep != ""
  {
    match IndexOf(s, sep)
    case None => s
    case Some(i) => s[..i]
  }

  /** A string that starts with `p + q` starts with `p`. */
  lemma StartsWithLonger(s: string, p: string, q: string)
    requires StartsWith(s, p + q)
    ensures StartsWith(s, p)
  {
    assert s[..|p|] == (p + q)[..|p|];
  }

  /** An occurrence inside a prefix of `s` is an occurrence in `s`. */
  lemma OccursInPrefix(s: string, t: string, p: string, i: nat)
    requires StartsWith(s, t) && OccursAt(t, p, i)
    ensures OccursAt(s, p, i)
  {
    assert s[i..i + |p|] == s[..|t|][i..i + |p|];
  }

  /** A one-character pattern occurs exactly where that character stands. */
  lemma OccursAtChar(s: string, c: char, i: nat)
    ensures OccursAt(s, [c], i) <==> i < |s| && s[i] == c
  {
    if i < |s| {
      assert s[i..i + 1] == [s[i]];
    }
  }

  /** Removing the first occurrence of a prefix removes exactly that prefix. */
  lemma ReplaceFirstOfPrefix(s: string, p: string)
    requires StartsWith(s, p)
    ensures ReplaceFirst(s, p, "") == s[|p|..]
  {
    assert OccursAt(s, p, 0) by { assert s[0..|p|] == s[..|p|]; }
    var r := IndexOf(s, p);
    assert r == Some(0);
  }

  /** The first `sep` of `pre + sep + post` is the one right after `pre` when `pre` holds no `sep` character. */
  lemma BeforeFirstSlash(pre: string, post: string)
    requires '/' !in pre
    ensures Includes(pre + "/" + post, "/")
    ensures BeforeFirst(pre + "/" + post, "/") == pre
  {
    var s := pre + "/" + post;
    OccursAtChar(s, '/', |pre|);
    match IndexOf(s, "/")
    case Some(i) =>
      OccursAtChar(s, '/', i);
      assert i == |pre|;
      assert s[..|pre|] == pre;
    case None =>
  }

  /** `includes` of a one-character pattern is membership of that character. */
  lemma IncludesChar(s: string, c: char)
    ensures Includes(s, [c]) <==> c in s
  {
    if c in s {
      var i :| 0 <= i < |s| && s[i] == c;
      OccursAtChar(s, c, i);
    }
    if Includes(s, [c]) {
      var i :| OccursAt(s, [c], i);
      OccursAtChar(s, c, i);
    }
  }
}
