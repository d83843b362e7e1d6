/** Stable filtering of sequences, the shape of JavaScript's `Array.prototype.filter`. */
module Seqs {

  /** No element occurs twice. */
  predicate NoDup<T(==)>(s: seq<T>) {
    forall i, j :: 0 <= i < j < |s| ==> s[i] != s[j]
  }

  /** The elements of `s` that satisfy `p`, in their original order. */
  function Filter<T(==)>(s: seq<T>, p: T -> bool): (r: seq<T>)
    ensures |r| <= |s|
    ensures forall x :: x in r ==> x in s
    ensures forall x :: x in s ==> (x in r <==> p(x))
    ensures forall k :: 0 <= k < |r| ==> p(r[k])
  {
    if s == [] then [] else (if p(s[0]) then [s[0]] else []) + Filter(s[1..], p)
  }

  /** The positions `j >= from` of `s` whose element satisfies `p`, ascending. */
  function KeptIndices<T>(s: seq<T>, p: T -> bool, from: nat): seq<nat>
    decreases |s| - from
  {
    if from >= |s| then [] else (if p(s[from]) then [from] else []) + KeptIndices(s, p, from + 1)
  }

  /** The positions an order-preserving filter keeps. */
  ghost predicate IsKeptIndexMap<T>(s: seq<T>, p: T -> bool, from: nat, r: seq<T>, ix: seq<nat>) {
    && |r| == |ix|
    && (forall k :: 0 <= k < |ix| ==> from <= ix[k] < |s| && r[k] == s[ix[k]])
    && (forall k, l :: 0 <= k < l < |ix| ==> ix[k] < ix[l])
    && (forall j :: from <= j < |s| ==> (j in ix <==> p(s[j])))
  }

  /**
   * `Filter` keeps exactly the positions whose element satisfies `p`, and keeps them
   * in ascending order: the result is an order-preserving subsequence.
   */
  lemma {:induction false} FilterByIndices<T>(s: seq<T>, p: T -> bool, from: nat)
    requires from <= |s|
    ensures IsKeptIndexMap(s, p, from, Filter(s[from..], p), KeptIndices(s, p, from))
    decreases |s| - from
  {
    if from == |s| {
      assert s[from..] == [];
    } else {
      FilterByIndices(s, p, from + 1);
      assert s[from..][1..] == s[from + 1..];
      var rest, restIx := Filter(s[from + 1..], p), KeptIndices(s, p, from + 1);
      var r, ix := Filter(s[from..], p), KeptIndices(s, p, from);
      if p(s[from]) {
        assert r == [s[from]] + rest;
        assert ix == [from] + restIx;
        KeptHead(s, p, from, r, ix, rest, restIx);
      } else {
        assert r == rest && ix == restIx;
        assert from !in restIx;
      }
    }
  }

  /** The step of `FilterByIndices` where the element at `from` is kept. */
  lemma KeptHead<T>(s: seq<T>, p: T -> bool, from: nat, r: seq<T>, ix: seq<nat>, rest: seq<T>, restIx: seq<nat>)
    requires from < |s| && p(s[from])
    requires IsKeptIndexMap(s, p, from + 1, rest, restIx)
    requires r == [s[from]] + rest && ix == [from] + restIx
    ensures IsKeptIndexMap(s, p, from, r, ix)
  {
    forall k | 0 <= k < |ix| ensures from <= ix[k] < |s| && r[k] == s[ix[k]] {
      if k > 0 {
        assert ix[k] == restIx[k - 1] && r[k] == rest[k - 1];
      }
    }
    forall k, l | 0 <= k < l < |ix| ensures ix[k] < ix[l] {
      assert ix[l] == restIx[l - 1];
      if k > 0 {
        assert ix[k] == restIx[k - 1];
      }
    }
    forall j | from <= j < |s| ensures j in ix <==> p(s[j]) {
      if j > from {
        assert j in ix <==> j in restIx;
      }
    }
  }

  /** Filtering distributes over concatenation. */
  lemma {:induction false} FilterConcat<T>(a: seq<T>, b: seq<T>, p: T -> bool)
    ensures Filter(a + b, p) == Filter(a, p) + Filter(b, p)
  {
    if a != [] {
      assert (a + b)[1..] == a[1..] + b;
      FilterConcat(a[1..], b, p);
    } else {
      assert a + b == b;
    }
  }

  /** A filter that every element passes returns the sequence unchanged. */
  lemma {:induction false} FilterAll<T>(s: seq<T>, p: T -> bool)
    requires forall k :: 0 <= k < |s| ==> p(s[k])
    ensures Filter(s, p) == s
  {
    if s != [] {
      FilterAll(s[1..], p);
    }
  }

  /** A filter that no element passes returns the empty sequence. */
  lemma {:induction false} FilterNone<T>(s: seq<T>, p: T -> bool)
    requires forall k :: 0 <= k < |s| ==> !p(s[k])
    ensures Filter(s, p) == []
  {
    if s != [] {
      FilterNone(s[1..], p);
    }
  }

  /** Filtering a duplicate-free sequence leaves it duplicate-free. */
  lemma {:induction false} FilterNoDup<T>(s: seq<T>, p: T -> bool)
    ensures NoDup(s) ==> NoDup(Filter(s, p))
  {
    if s != [] && NoDup(s) {
      FilterNoDup(s[1..], p);
      assert s[0] !in s[1..] by {
        forall k | 0 <= k < |s[1..]| ensures s[1..][k] != s[0] {
          assert s[1..][k] == s[k + 1];
        }
      }
      var rest := Filter(s[1..], p);
      assert s[0] !in rest;
      var head := if p(s[0]) then [s[0]] else [];
      assert Filter(s, p) == head + rest;
    }
  }
}
