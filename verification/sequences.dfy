/**
 * Searches over sequences and strings that several parts of the worker use:
 * `Array.prototype.findIndex` and `find`, and `indexOf`/`lastIndexOf` of a
 * single character.
 */
module Sequences {
  import opened Wrappers

  /** The index of the first element satisfying `p` (`Array.prototype.findIndex`). */
  function FirstIndex<T>(s: seq<T>, p: T -> bool): (r: Option<nat>)
    ensures r.None? ==> forall i :: 0 <= i < |s| ==> !p(s[i])
    ensures r.Some? ==> r.value < |s| && p(s[r.value]) && forall i :: 0 <= i < r.value ==> !p(s[i])
    decreases |s|
  {
    if s == [] then None
    else if p(s[0]) then Some(0)
    else
      match FirstIndex(s[1..], p)
      case None => None
      case Some(i) =>
        assert forall j :: 1 <= j < i + 1 ==> s[j] == s[1..][j - 1];
        Some(i + 1)
  }

  /** The first match stays where it is when nothing before it changes and it still matches. */
  lemma FirstIndexSame<T>(a: seq<T>, b: seq<T>, p: T -> bool, i: nat)
    requires |a| == |b| && i < |a|
    requires FirstIndex(a, p) == Some(i) && p(b[i])
    requires forall j :: 0 <= j < i ==> b[j] == a[j]
    ensures FirstIndex(b, p) == Some(i)
  {
    forall j | 0 <= j < i
      ensures !p(b[j])
    {
      assert b[j] == a[j];
    }
  }

  /** `Array.prototype.find` */
  function Find<T>(s: seq<T>, p: T -> bool): Option<T> {
    match FirstIndex(s, p)
    case None => None
    case Some(i) => Some(s[i])
  }

  /** Index of the first occurrence of `c` in `s`, if any. */
  function IndexOf(s: string, c: char): (r: Option<nat>)
    ensures r.None? <==> c !in s
    ensures r.Some? ==> r.value < |s| && s[r.value] == c && c !in s[..r.value]
    decreases |s|
  {
    if s == [] then None
    else if s[0] == c then Some(0)
    else
      match IndexOf(s[1..], c)
      case None => None
      case Some(i) =>
        assert s[..i + 1] == [s[0]] + s[1..][..i];
        Some(i + 1)
  }

  /** Index of the last occurrence of `c` in `s`, if any. */
  function LastIndexOf(s: string, c: char): (r: Option<nat>)
    ensures r.None? <==> c !in s
    ensures r.Some? ==> r.value < |s| && s[r.value] == c && c !in s[r.value + 1..]
    decreases |s|
  {
    if s == [] then None
    else if s[|s| - 1] == c then Some(|s| - 1)
    else
      var r := LastIndexOf(s[..|s| - 1], c);
      if r.Some? then
        assert s[r.value + 1..] == s[..|s| - 1][r.value + 1..] + [s[|s| - 1]];
        r
      else r
  }

  /** `indexOf` finds the first occurrence: any index holding `c` with no `c` before it is the result. */
  lemma {:induction false} IndexOfUnique(s: string, c: char, k: nat)
    requires k < |s| && s[k] == c && c !in s[..k]
    ensures IndexOf(s, c) == Some(k)
    decreases |s|
  {
    if k > 0 {
      assert s[0] == s[..k][0];
      assert s[1..][..k - 1] == s[1..k];
      assert s[1..k] == s[..k][1..];
      IndexOfUnique(s[1..], c, k - 1);
    }
  }

  /** `lastIndexOf` finds the last occurrence: any index holding `c` with no `c` after it is the result. */
  lemma {:induction false} LastIndexOfUnique(s: string, c: char, k: nat)
    requires k < |s| && s[k] == c && c !in s[k + 1..]
    ensures LastIndexOf(s, c) == Some(k)
    decreases |s|
  {
    if k < |s| - 1 {
      var t := s[..|s| - 1];
      assert s[|s| - 1] == s[k + 1..][|s| - k - 2];
      assert t[k + 1..] == s[k + 1..|s| - 1];
      assert s[k + 1..|s| - 1] == s[k + 1..][..|s| - k - 2];
      LastIndexOfUnique(t, c, k);
    }
  }

  /** A character found in `a` is found at the same place in `a + b`. */
  lemma {:induction false} IndexOfAppend(a: string, b: string, c: char)
    requires c in a
    ensures IndexOf(a + b, c) == IndexOf(a, c)
  {
    var k := IndexOf(a, c).value;
    assert (a + b)[..k] == a[..k];
    IndexOfUnique(a + b, c, k);
  }

  /** A character found in `b` is found last at the same place of `b`, shifted by `|a|`, in `a + b`. */
  lemma {:induction false} LastIndexOfAppend(a: string, b: string, c: char)
    requires c in b
    ensures LastIndexOf(a + b, c) == Some(|a| + LastIndexOf(b, c).value)
  {
    var k := LastIndexOf(b, c).value;
    var s := a + b;
    assert s[|a| + k] == b[k];
    assert s[|a| + k + 1..] == b[k + 1..];
    LastIndexOfUnique(s, c, |a| + k);
  }

  /** A slice of `a + b` that starts in `a` and ends in `b`. */
  lemma SliceAcross<T>(a: seq<T>, b: seq<T>, i: nat, j: nat)
    requires i <= |a| && j <= |b|
    ensures (a + b)[i..|a| + j] == a[i..] + b[..j]
  {
  }
}
