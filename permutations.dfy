/** The two permutation tests of the optimizer (invalid_trans and
    last2_premute in src/core/graph.cc), and the output shape of a Transpose,
    which says why the rewrites they license keep every shape. */
module Permutations {
  import opened Shapes

  /** Every entry of `p` is an axis of a tensor of rank `n`. */
  predicate InRange(p: seq<int>, n: nat) {
    forall i :: 0 <= i < |p| ==> 0 <= p[i] < n
  }

  /** Transposing by `p2` and then by `p1` leaves every axis in place. */
  predicate ComposesToIdentity(p1: seq<int>, p2: seq<int>)
    requires InRange(p1, |p2|)
  {
    forall i :: 0 <= i < |p1| ==> p2[p1[i]] == i
  }

  /** The identity on every axis but the last two, which it exchanges. */
  predicate IsLastTwoSwap(p: seq<int>) {
    && |p| >= 2
    && (forall i :: 0 <= i < |p| - 2 ==> p[i] == i)
    && p[|p| - 1] == |p| - 2
    && p[|p| - 2] == |p| - 1
  }

  /** invalid_trans: whether the transpose by `p1` undoes the transpose by
      `p2`. The size check is an assertion of the source, and each `p1[i]`
      indexes `p2`. */
  method InvalidTrans(p1: seq<int>, p2: seq<int>) returns (r: bool)
    requires |p1| == |p2| && InRange(p1, |p2|)
    ensures r == ComposesToIdentity(p1, p2)
  {
    var i := 0;
    while i < |p1|
      invariant i <= |p1|
      invariant forall j :: 0 <= j < i ==> p2[p1[j]] == j
    {
      if p2[p1[i]] != i {
        return false;
      }
      i := i + 1;
    }
    return true;
  }

  /** last2_premute: whether `p` only swaps the last two axes. */
  method Last2Permute(p: seq<int>) returns (r: bool)
    ensures r == IsLastTwoSwap(p)
  {
    var i := 0;
    while i < |p| - 2
      invariant 0 <= i <= |p|
      invariant |p| >= 2 ==> i <= |p| - 2
      invariant forall j :: 0 <= j < i ==> p[j] == j
    {
      if p[i] != i {
        return false;
      }
      i := i + 1;
    }
    r := |p| >= 2 && p[|p| - 1] == |p| - 2 && p[|p| - 2] == |p| - 1;
  }

  /** A swap of the last two axes is its own inverse, so two consecutive such
      transposes cancel. */
  lemma LastTwoSwapUndoesItself(p: seq<int>)
    requires IsLastTwoSwap(p)
    ensures InRange(p, |p|) && ComposesToIdentity(p, p)
  {
    forall i | 0 <= i < |p|
      ensures 0 <= p[i] < |p| && p[p[i]] == i
    {
      if i < |p| - 2 {
        assert p[i] == i;
      }
    }
  }

  /** The output shape of a Transpose: axis i of the output is axis p[i] of
      the input. */
  function TransposeShape(s: Shape, p: seq<int>): (r: Shape)
    requires InRange(p, |s|)
    ensures |r| == |p| && forall i :: 0 <= i < |p| ==> r[i] == s[p[i]]
  {
    seq(|p|, i requires 0 <= i < |p| => s[p[i]])
  }

  /** Rule 1 is shape-preserving: two transposes whose permutations compose
      to the identity give back the shape they started from. */
  lemma InverseTransposesCancel(s: Shape, pre: seq<int>, op: seq<int>)
    requires |pre| == |s| && |op| == |s|
    requires InRange(pre, |s|) && InRange(op, |pre|)
    requires ComposesToIdentity(op, pre)
    ensures TransposeShape(TransposeShape(s, pre), op) == s
  {
    var mid := TransposeShape(s, pre);
    var out := TransposeShape(mid, op);
    forall i | 0 <= i < |s| ensures out[i] == s[i] {
      assert out[i] == mid[op[i]] == s[pre[op[i]]];
    }
  }

  /** A last-two swap transposes a shape by exchanging its last two
      dimensions. */
  lemma LastTwoSwapShape(s: Shape, p: seq<int>)
    requires IsLastTwoSwap(p) && |p| == |s|
    ensures InRange(p, |s|) && TransposeShape(s, p) == SwapLastTwo(s)
  {
    LastTwoSwapUndoesItself(p);
    var r := TransposeShape(s, p);
    var w := SwapLastTwo(s);
    forall i | 0 <= i < |s| ensures r[i] == w[i] {
      if i < |s| - 2 {
        assert p[i] == i;
        assert w[i] == w[..|w| - 2][i] == s[..|s| - 2][i];
      }
    }
  }

  /** Rule 2 is shape-preserving: multiplying the last-two-swapped A with the
      flag as it was infers the same shape as multiplying A itself with the
      flag toggled; the same holds for B. */
  lemma FusedTransposeShape(a: Shape, b: Shape, p: seq<int>, transA: bool, transB: bool)
    requires |a| >= 2 && |b| >= 2 && IsLastTwoSwap(p)
    ensures |p| == |a| ==>
              && InRange(p, |a|)
              && MatmulShape(TransposeShape(a, p), b, transA, transB) == MatmulShape(a, b, !transA, transB)
    ensures |p| == |b| ==>
              && InRange(p, |b|)
              && MatmulShape(a, TransposeShape(b, p), transA, transB) == MatmulShape(a, b, transA, !transB)
  {
    if |p| == |a| {
      LastTwoSwapShape(a, p);
      TransAIsSwap(a, b, transA, transB);
    }
    if |p| == |b| {
      LastTwoSwapShape(b, p);
      TransBIsSwap(a, b, transA, transB);
    }
  }

  /** [0, 2, 1] swaps the last two axes; [1, 0, 2] does not. */
  lemma LastTwoSwapExamples()
    ensures IsLastTwoSwap([0, 2, 1])
    ensures !IsLastTwoSwap([1, 0, 2])
  {
  }
}
