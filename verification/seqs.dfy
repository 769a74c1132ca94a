/** Order-preserving sequence helpers shared by the analysers: filtering (the
    `Array.prototype.filter` / `forEach`-and-push pattern) and duplicate
    removal (`[...new Set(xs)]`). */
module Seqs {

  /** `a` can be obtained from `b` by deleting elements: the elements of `a`
      occur in `b` in the same relative order. */
  predicate IsSubsequence<T(==)>(a: seq<T>, b: seq<T>)
    decreases |b|
  {
    a == [] || (b != [] && ((a[0] == b[0] && IsSubsequence(a[1..], b[1..])) || IsSubsequence(a, b[1..])))
  }

  /** No element occurs twice. */
  predicate Distinct<T(==)>(s: seq<T>) {
    forall i, j :: 0 <= i < j < |s| ==> s[i] != s[j]
  }

  /** Appending an element to the longer sequence keeps a subsequence. */
  lemma {:induction false} SubsequenceExtend<T>(a: seq<T>, b: seq<T>, x: T)
    requires IsSubsequence(a, b)
    ensures IsSubsequence(a, b + [x])
    decreases |b|
  {
    if a != [] {
      assert (b + [x])[1..] == b[1..] + [x];
      if a[0] == b[0] && IsSubsequence(a[1..], b[1..]) {
        SubsequenceExtend(a[1..], b[1..], x);
      } else {
        SubsequenceExtend(a, b[1..], x);
      }
    }
  }

  /** Appending the same element to both sides keeps a subsequence. */
  lemma {:induction false} SubsequenceAppend<T>(a: seq<T>, b: seq<T>, x: T)
    requires IsSubsequence(a, b)
    ensures IsSubsequence(a + [x], b + [x])
    decreases |b|
  {
    if a == [] {
      if b != [] {
        assert (b + [x])[1..] == b[1..] + [x];
        SubsequenceAppend(a, b[1..], x);
      } else {
        assert ([] + [x])[1..] == [];
      }
    } else {
      assert (a + [x])[1..] == a[1..] + [x];
      assert (b + [x])[1..] == b[1..] + [x];
      if a[0] == b[0] && IsSubsequence(a[1..], b[1..]) {
        SubsequenceAppend(a[1..], b[1..], x);
      } else {
        SubsequenceAppend(a, b[1..], x);
      }
    }
  }

  /** Putting an element in front of the longer sequence, or of both, keeps a
      subsequence. */
  lemma SubsequenceCons<T>(a: seq<T>, b: seq<T>, x: T)
    requires IsSubsequence(a, b)
    ensures IsSubsequence(a, [x] + b)
    ensures IsSubsequence([x] + a, [x] + b)
  {
    assert ([x] + a)[1..] == a;
    assert ([x] + b)[1..] == b;
  }

  /** The elements of `s` satisfying `p`, in their original order. */
  function Filter<T(==)>(s: seq<T>, p: T -> bool): (r: seq<T>)
    ensures |r| <= |s|
    ensures forall i :: 0 <= i < |r| ==> r[i] in s && p(r[i])
    ensures forall i :: 0 <= i < |s| && p(s[i]) ==> s[i] in r
    ensures IsSubsequence(r, s)
  {
    if s == [] then []
    else if p(s[0]) then
      var rest := Filter(s[1..], p);
      assert ([s[0]] + rest)[1..] == rest;
      [s[0]] + rest
    else Filter(s[1..], p)
  }

  /** The distinct elements of `s`, each kept at its first occurrence. */
  function Dedup<T(==)>(s: seq<T>): (r: seq<T>)
    ensures Distinct(r)
    ensures forall i :: 0 <= i < |r| ==> r[i] in s
    ensures forall i :: 0 <= i < |s| ==> s[i] in r
    ensures IsSubsequence(r, s)
    ensures forall i, k :: 0 <= i < |r| && 0 <= k < |s| && r[i] !in s[..k + 1] ==> s[k] in r[..i]
  {
    if s == [] then []
    else
      var init := s[..|s| - 1];
      var last := s[|s| - 1];
      var r := Dedup(init);
      assert s == init + [last];
      DedupOrderStep(init, last, r);
      if last in r then
        SubsequenceExtend(r, init, last);
        r
      else
        SubsequenceAppend(r, init, last);
        r + [last]
  }

  /** Keeping `x` only when it is new preserves first-occurrence order: an
      element that occurs before the first occurrence of a kept element is
      kept before it. */
  lemma DedupOrderStep<T>(init: seq<T>, x: T, d: seq<T>)
    requires forall i :: 0 <= i < |d| ==> d[i] in init
    requires forall k :: 0 <= k < |init| ==> init[k] in d
    requires forall i, k :: 0 <= i < |d| && 0 <= k < |init| && d[i] !in init[..k + 1] ==> init[k] in d[..i]
    ensures var s := init + [x];
            var r := if x in d then d else d + [x];
            forall i, k :: 0 <= i < |r| && 0 <= k < |s| && r[i] !in s[..k + 1] ==> s[k] in r[..i]
  {
    var s := init + [x];
    var r := if x in d then d else d + [x];
    assert s[..|s|] == s;
    forall i, k | 0 <= i < |r| && 0 <= k < |s| && r[i] !in s[..k + 1]
      ensures s[k] in r[..i]
    {
      assert r[i] in s;
      if k < |init| {
        assert s[..k + 1] == init[..k + 1];
        if i < |d| {
          assert r[..i] == d[..i];
        } else {
          assert r[..i] == d;
        }
      }
    }
  }

  /** `[x]` when `s` is non-empty, `[]` otherwise. */
  function OnceIfAny<S, T>(s: seq<S>, x: T): (r: seq<T>)
    ensures |r| <= 1
  {
    if s == [] then [] else [x]
  }

  /** One more element is kept exactly when it is new. */
  lemma DedupSnoc<T>(init: seq<T>, x: T)
    ensures Dedup(init + [x]) == if x in Dedup(init) then Dedup(init) else Dedup(init) + [x]
  {
    var s := init + [x];
    assert s[..|s| - 1] == init;
  }

  /** Removing duplicates from a run of one repeated value leaves that value
      once, or nothing for an empty run. */
  lemma {:induction false} DedupConstant<T>(xs: seq<T>, a: T)
    requires forall i :: 0 <= i < |xs| ==> xs[i] == a
    ensures Dedup(xs) == OnceIfAny(xs, a)
  {
    if xs != [] {
      var init := xs[..|xs| - 1];
      DedupConstant(init, a);
      assert xs == init + [a];
      DedupSnoc(init, a);
    }
  }

  /** Removing duplicates from a run of `a`s followed by a run of `b`s leaves
      each value once, in run order, when its run is non-empty. */
  lemma {:induction false} DedupTwoRuns<T>(xs: seq<T>, ys: seq<T>, a: T, b: T)
    requires a != b
    requires forall i :: 0 <= i < |xs| ==> xs[i] == a
    requires forall i :: 0 <= i < |ys| ==> ys[i] == b
    ensures Dedup(xs + ys) == OnceIfAny(xs, a) + OnceIfAny(ys, b)
    decreases |ys|
  {
    if ys == [] {
      assert xs + ys == xs;
      DedupConstant(xs, a);
    } else {
      var init := ys[..|ys| - 1];
      assert xs + ys == (xs + init) + [b];
      DedupTwoRuns(xs, init, a, b);
      DedupSnoc(xs + init, b);
    }
  }
}
