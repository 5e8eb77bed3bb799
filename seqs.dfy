/** `Array.prototype.filter`, the one list operation the stores and the dashboard share. */
module Seqs {

  /** The elements of `s` that satisfy `p`, in their original order. */
  function Filter<T>(s: seq<T>, p: T -> bool): (r: seq<T>)
    ensures |r| <= |s|
    ensures forall i :: 0 <= i < |r| ==> r[i] in s
    ensures forall i :: 0 <= i < |s| && p(s[i]) ==> s[i] in r
    ensures forall i :: 0 <= i < |r| ==> p(r[i])
  {
    if s == [] then []
    else
      (if p(s[0]) then [s[0]] else []) + Filter(s[1..], p)
  }

  /** Every index moved one place to the right. */
  function Shift(idx: seq<int>): (r: seq<int>)
    ensures |r| == |idx| && forall k :: 0 <= k < |r| ==> r[k] == idx[k] + 1
  {
    seq(|idx|, k requires 0 <= k < |idx| => idx[k] + 1)
  }

  /** The indices of the elements of `s` that satisfy `p`. */
  function Positions<T>(s: seq<T>, p: T -> bool): (idx: seq<int>)
    ensures |idx| <= |s|
    ensures forall k :: 0 <= k < |idx| ==> 0 <= idx[k] < |s|
  {
    if s == [] then []
    else (if p(s[0]) then [0] else []) + Shift(Positions(s[1..], p))
  }

  /** Every index `Positions` lists is one whose element passes. */
  lemma {:induction false} PositionsPass<T>(s: seq<T>, p: T -> bool)
    ensures forall k :: 0 <= k < |Positions(s, p)| ==> p(s[Positions(s, p)[k]])
  {
    if s != [] {
      PositionsPass(s[1..], p);
      var idx := Positions(s[1..], p);
      assert Positions(s, p) == (if p(s[0]) then [0] else []) + Shift(idx);
      forall k | 0 <= k < |idx| ensures p(s[idx[k] + 1]) {
        assert s[1..][idx[k]] == s[idx[k] + 1];
      }
    }
  }

  /** `Positions` lists its indices in strictly increasing order, so each at most once. */
  lemma {:induction false} PositionsIncrease<T>(s: seq<T>, p: T -> bool)
    ensures forall k, l :: 0 <= k < l < |Positions(s, p)| ==> Positions(s, p)[k] < Positions(s, p)[l]
  {
    if s != [] {
      PositionsIncrease(s[1..], p);
      assert Positions(s, p) == (if p(s[0]) then [0] else []) + Shift(Positions(s[1..], p));
    }
  }

  /** Every passing index is listed by `Positions`. */
  lemma {:induction false} PositionsCover<T>(s: seq<T>, p: T -> bool)
    ensures forall i :: 0 <= i < |s| && p(s[i]) ==> i in Positions(s, p)
  {
    if s != [] {
      PositionsCover(s[1..], p);
      var idx := Positions(s[1..], p);
      assert Positions(s, p) == (if p(s[0]) then [0] else []) + Shift(idx);
      forall i | 1 <= i < |s| && p(s[i]) ensures i in Positions(s, p) {
        assert s[1..][i - 1] == s[i];
        var k :| 0 <= k < |idx| && idx[k] == i - 1;
        assert Shift(idx)[k] == i;
      }
    }
  }

  /**
   * `r` is what is left of `s` after dropping the elements that fail `p`: one element per
   * passing index, in the order of those indices.
   */
  ghost predicate KeepsInOrder<T>(r: seq<T>, s: seq<T>, p: T -> bool) {
    var idx := Positions(s, p);
    |r| == |idx| && forall k :: 0 <= k < |r| ==> r[k] == s[idx[k]]
  }

  lemma {:induction false} FilterAtPositions<T>(s: seq<T>, p: T -> bool)
    ensures KeepsInOrder(Filter(s, p), s, p)
  {
    if s != [] {
      FilterAtPositions(s[1..], p);
      var rest, idx := Filter(s[1..], p), Positions(s[1..], p);
      var h := if p(s[0]) then 1 else 0;
      assert Filter(s, p) == (if p(s[0]) then [s[0]] else []) + rest;
      assert Positions(s, p) == (if p(s[0]) then [0] else []) + Shift(idx);
      forall k | h <= k < |Filter(s, p)|
        ensures Filter(s, p)[k] == s[Positions(s, p)[k]]
      {
        assert Filter(s, p)[k] == rest[k - h] == s[1..][idx[k - h]];
      }
    }
  }

  /** Filtering keeps the passing elements in their order, each as often as it occurs. */
  lemma FilterInOrder<T>(p: T -> bool)
    ensures forall s :: KeepsInOrder(Filter(s, p), s, p)
  {
    forall s {
      FilterAtPositions(s, p);
    }
  }

  /** Filtering keeps everything when every element passes: an absent key is a no-op. */
  lemma {:induction false} FilterKeepsAll<T>(s: seq<T>, p: T -> bool)
    requires forall i :: 0 <= i < |s| ==> p(s[i])
    ensures Filter(s, p) == s
  {
    if s != [] {
      FilterKeepsAll(s[1..], p);
    }
  }

  /** Appending an element that fails the test does not change the filtered sequence. */
  lemma {:induction false} FilterAppendRejected<T>(s: seq<T>, x: T, p: T -> bool)
    requires !p(x)
    ensures Filter(s + [x], p) == Filter(s, p)
  {
    if s == [] {
      assert [x][1..] == [];
    } else {
      assert (s + [x])[1..] == s[1..] + [x];
      FilterAppendRejected(s[1..], x, p);
    }
  }
}
