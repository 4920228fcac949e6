/** MatMul shape inference of src/operators/matmul.cc: the batch dimensions of
    the two operands are broadcast as in ONNX multidirectional broadcasting, the
    contracted dimension must agree, and the output shape is the broadcast batch
    shape followed by [m, n]. */
module Shapes {
  import opened Wrappers

  type Shape = seq<nat>

  /** One dimension of a broadcast: equal sizes agree, a 1 takes the other
      size, any other pair is incompatible. */
  function BroadcastDim(p: nat, q: nat): Option<nat> {
    if p == q then Some(p)
    else if p == 1 then Some(q)
    else if q == 1 then Some(p)
    else None
  }

  /** infer_broadcast: the shapes are aligned on their last dimension and the
      shorter one is padded on the left. */
  function Broadcast(x: Shape, y: Shape): (r: Option<Shape>)
    ensures r.Some? ==> |r.value| == if |x| >= |y| then |x| else |y|
    decreases |x| + |y|
  {
    if x == [] then Some(y)
    else if y == [] then Some(x)
    else
      match BroadcastDim(x[|x| - 1], y[|y| - 1])
      case None => None
      case Some(d) =>
        match Broadcast(x[..|x| - 1], y[..|y| - 1])
        case None => None
        case Some(rest) => Some(rest + [d])
  }

  /** The i-th dimension counted from the right, or 1 past the left end: the
      padding of the broadcasting rule. */
  function FromRight(s: Shape, i: nat): nat {
    if i < |s| then s[|s| - 1 - i] else 1
  }

  /** The broadcasting rule stated dimension by dimension: two shapes are
      compatible when every right-aligned pair of dimensions is. */
  predicate Broadcastable(x: Shape, y: Shape) {
    forall i :: 0 <= i < |x| && i < |y| ==> BroadcastDim(FromRight(x, i), FromRight(y, i)).Some?
  }

  /** The result of broadcasting, dimension by dimension. */
  predicate IsBroadcastOf(r: Shape, x: Shape, y: Shape) {
    && |r| == (if |x| >= |y| then |x| else |y|)
    && forall i :: 0 <= i < |r| ==> BroadcastDim(FromRight(x, i), FromRight(y, i)) == Some(FromRight(r, i))
  }

  lemma FromRightOfPrefix(s: Shape, i: nat)
    requires s != []
    ensures FromRight(s[..|s| - 1], i) == FromRight(s, i + 1)
  {
  }

  /** Broadcast succeeds exactly on broadcastable shapes, and then yields the
      shape the dimension-wise rule describes. */
  lemma {:induction false} BroadcastMeetsRule(x: Shape, y: Shape)
    ensures Broadcast(x, y).Some? <==> Broadcastable(x, y)
    ensures Broadcast(x, y).Some? ==> IsBroadcastOf(Broadcast(x, y).value, x, y)
    decreases |x| + |y|
  {
    if x == [] {
      forall i | 0 <= i < |y| ensures BroadcastDim(FromRight(x, i), FromRight(y, i)) == Some(FromRight(y, i)) {
      }
    } else if y == [] {
      forall i | 0 <= i < |x| ensures BroadcastDim(FromRight(x, i), FromRight(y, i)) == Some(FromRight(x, i)) {
      }
    } else {
      var x', y' := x[..|x| - 1], y[..|y| - 1];
      BroadcastMeetsRule(x', y');
      forall i: nat ensures FromRight(x', i) == FromRight(x, i + 1) && FromRight(y', i) == FromRight(y, i + 1) {
        FromRightOfPrefix(x, i);
        FromRightOfPrefix(y, i);
      }
      var d := BroadcastDim(x[|x| - 1], y[|y| - 1]);
      assert FromRight(x, 0) == x[|x| - 1] && FromRight(y, 0) == y[|y| - 1];
      if d.None? {
        assert !Broadcastable(x, y);
      } else if Broadcast(x', y').None? {
        var i :| 0 <= i < |x'| && i < |y'| && BroadcastDim(FromRight(x', i), FromRight(y', i)).None?;
        assert BroadcastDim(FromRight(x, i + 1), FromRight(y, i + 1)).None?;
      } else {
        var rest := Broadcast(x', y').value;
        var r := rest + [d.value];
        assert Broadcast(x, y) == Some(r);
        forall i | 0 <= i < |x| && i < |y| ensures BroadcastDim(FromRight(x, i), FromRight(y, i)).Some? {
          if i > 0 {
            assert BroadcastDim(FromRight(x', i - 1), FromRight(y', i - 1)).Some?;
          }
        }
        forall i | 0 <= i < |r| ensures BroadcastDim(FromRight(x, i), FromRight(y, i)) == Some(FromRight(r, i)) {
          if i > 0 {
            assert FromRight(r, i) == FromRight(rest, i - 1);
            assert BroadcastDim(FromRight(x', i - 1), FromRight(y', i - 1)) == Some(FromRight(rest, i - 1));
          }
        }
      }
    }
  }

  /** The contracted dimension of A: its last, or second-to-last when A is
      transposed. */
  function KOfA(a: Shape, transA: bool): nat
    requires |a| >= 2
  {
    if transA then a[|a| - 2] else a[|a| - 1]
  }

  /** The contracted dimension of B: its second-to-last, or last when B is
      transposed. */
  function KOfB(b: Shape, transB: bool): nat
    requires |b| >= 2
  {
    if transB then b[|b| - 1] else b[|b| - 2]
  }

  /** The free dimension of A: the one that is not contracted. */
  function MOf(a: Shape, transA: bool): nat
    requires |a| >= 2
  {
    if transA then a[|a| - 1] else a[|a| - 2]
  }

  /** The free dimension of B: the one that is not contracted. */
  function NOf(b: Shape, transB: bool): nat
    requires |b| >= 2
  {
    if transB then b[|b| - 2] else b[|b| - 1]
  }

  /** inferShape: None stands for a failed assertion, either in the batch
      broadcast or on the contracted dimensions. */
  function MatmulShape(a: Shape, b: Shape, transA: bool, transB: bool): (r: Option<Shape>)
    requires |a| >= 2 && |b| >= 2
    ensures r.Some? <==> Broadcastable(a[..|a| - 2], b[..|b| - 2]) && KOfA(a, transA) == KOfB(b, transB)
    ensures r.Some? ==> && |r.value| >= 2
                        && IsBroadcastOf(r.value[..|r.value| - 2], a[..|a| - 2], b[..|b| - 2])
                        && r.value[|r.value| - 2] == MOf(a, transA)
                        && r.value[|r.value| - 1] == NOf(b, transB)
  {
    BroadcastMeetsRule(a[..|a| - 2], b[..|b| - 2]);
    match Broadcast(a[..|a| - 2], b[..|b| - 2])
    case None => None
    case Some(batch) =>
      if KOfA(a, transA) != KOfB(b, transB) then None
      else
        var r := batch + [MOf(a, transA), NOf(b, transB)];
        assert r[..|r| - 2] == batch;
        Some(r)
  }

  /** The shape with its last two dimensions exchanged. */
  function SwapLastTwo(s: Shape): (r: Shape)
    requires |s| >= 2
    ensures |r| == |s| && r[..|r| - 2] == s[..|s| - 2]
    ensures r[|r| - 2] == s[|s| - 1] && r[|r| - 1] == s[|s| - 2]
  {
    s[..|s| - 2] + [s[|s| - 1], s[|s| - 2]]
  }

  /** Setting transA is the same as swapping the last two dimensions of A. */
  lemma TransAIsSwap(a: Shape, b: Shape, transA: bool, transB: bool)
    requires |a| >= 2 && |b| >= 2
    ensures MatmulShape(SwapLastTwo(a), b, transA, transB) == MatmulShape(a, b, !transA, transB)
  {
    var a' := SwapLastTwo(a);
    assert a'[..|a'| - 2] == a[..|a| - 2];
  }

  /** Setting transB is the same as swapping the last two dimensions of B. */
  lemma TransBIsSwap(a: Shape, b: Shape, transA: bool, transB: bool)
    requires |a| >= 2 && |b| >= 2
    ensures MatmulShape(a, SwapLastTwo(b), transA, transB) == MatmulShape(a, b, transA, !transB)
  {
    var b' := SwapLastTwo(b);
    assert b'[..|b'| - 2] == b[..|b| - 2];
  }

  /** [2, 3, 4] times [2, 4, 5] is [2, 3, 5]. */
  lemma BatchedExample()
    ensures MatmulShape([2, 3, 4], [2, 4, 5], false, false) == Some([2, 3, 5])
  {
    assert [2, 3, 4][..1] == [2] && [2, 4, 5][..1] == [2];
    assert Broadcast([2], [2]) == Some([2]) by {
      var e: Shape := [];
      assert [2][..0] == e && Broadcast(e, e) == Some(e) && e + [2] == [2];
    }
    assert [2] + [3, 5] == [2, 3, 5];
  }

  /** [4, 3] transposed times [4, 5] is [3, 5]; [3, 4] transposed does not
      multiply [4, 5], its contracted dimension being 3. */
  lemma TransposedExample()
    ensures MatmulShape([4, 3], [4, 5], true, false) == Some([3, 5])
    ensures MatmulShape([3, 4], [4, 5], true, false) == None
  {
    assert [4, 3][..0] == [] && [4, 5][..0] == [] && [3, 4][..0] == [];
  }

  /** Incompatible batch dimensions make inference fail. */
  lemma BatchMismatchExample()
    ensures MatmulShape([2, 3, 4], [3, 4, 5], false, false) == None
  {
    assert [2, 3, 4][..1] == [2] && [3, 4, 5][..1] == [3];
    assert !Broadcastable([2], [3]) by {
      assert FromRight([2], 0) == 2 && FromRight([3], 0) == 3;
    }
  }

  /** The MatMul operator: its transpose flags, fixed by the constructor and
      toggled by the optimizer, and the m, n, k that inference records. */
  class Matmul {
    var transA: bool
    var transB: bool
    var m: nat
    var n: nat
    var k: nat

    constructor (transA: bool, transB: bool)
      ensures this.transA == transA && this.transB == transB
    {
      this.transA := transA;
      this.transB := transB;
    }

    /** inferShape on the input shapes [A, B]: one output shape, with m, n and
        k recorded; on a failed assertion nothing is recorded. */
    method InferShape(inputs: seq<Shape>) returns (r: Option<seq<Shape>>)
      requires |inputs| == 2 && |inputs[0]| >= 2 && |inputs[1]| >= 2
      modifies this
      ensures transA == old(transA) && transB == old(transB)
      ensures var s := MatmulShape(inputs[0], inputs[1], transA, transB);
              && (s.None? ==> r.None? && m == old(m) && n == old(n) && k == old(k))
              && (s.Some? ==> && r == Some([s.value])
                              && m == MOf(inputs[0], transA) && n == NOf(inputs[1], transB)
                              && k == KOfA(inputs[0], transA) == KOfB(inputs[1], transB))
    {
      var a, b := inputs[0], inputs[1];
      var batch := Broadcast(a[..|a| - 2], b[..|b| - 2]);
      if batch.None? {
        return None;
      }
      var kA := KOfA(a, transA);
      var kB := KOfB(b, transB);
      if kA != kB {
        return None;
      }
      m := MOf(a, transA);
      n := NOf(b, transB);
      k := kA;
      r := Some([batch.value + [m, n]]);
    }
  }
}
