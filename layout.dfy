/** The memory layout `dataMalloc` in src/core/graph.cc gives the graph's
    tensors: one allocation of their total size, each tensor bound to the
    offset at which the tensors before it in list order end. */
module Layout {
  import opened Wrappers
  import opened Sequences
  import opened GraphObjects

  /** The size in bytes of tensor `t`. */
  function BytesOf(g: Objects, t: TensorId): nat {
    if t in g.tensorAt then g.tensorAt[t].bytes else 0
  }

  /** The total size in bytes of the tensors listed in `ts`. */
  function Bytes(g: Objects, ts: seq<TensorId>): nat
    decreases |ts|
  {
    if ts == [] then 0 else Bytes(g, ts[..|ts| - 1]) + BytesOf(g, ts[|ts| - 1])
  }

  /** Where the `i`-th tensor of `ts` starts, when the block starts at `addr`. */
  function Offset(g: Objects, ts: seq<TensorId>, addr: nat, i: nat): nat
    requires i <= |ts|
  {
    addr + Bytes(g, ts[..i])
  }

  /** The objects once each tensor of `ts`, in order, is bound to the buffer
      `handle` at its offset from `addr`. */
  function Bind(g: Objects, ts: seq<TensorId>, handle: nat, addr: nat): (r: Objects)
    ensures SameKeys(g, r)
    ensures Closed(g) ==> Closed(r)
    decreases |ts|
  {
    if ts == [] then g
    else
      var n := |ts| - 1;
      SetBlob(Bind(g, ts[..n], handle, addr), ts[n], Blob(handle, Offset(g, ts, addr, n)))
  }

  /** Binding one more tensor of `ts` sets its blob at its offset. */
  lemma BindSnoc(g: Objects, ts: seq<TensorId>, handle: nat, addr: nat, i: nat)
    requires i < |ts|
    ensures Bind(g, ts[..i + 1], handle, addr)
         == SetBlob(Bind(g, ts[..i], handle, addr), ts[i], Blob(handle, Offset(g, ts, addr, i)))
  {
    assert ts[..i + 1][..i] == ts[..i];
  }

  /** Binding keeps every link and the data other than the blob. */
  lemma {:induction false} BindKeeps(g: Objects, ts: seq<TensorId>, handle: nat, addr: nat)
    ensures var r := Bind(g, ts, handle, addr);
      && r.opAt == g.opAt
      && forall t :: t in g.tensorAt ==> r.tensorAt[t] == g.tensorAt[t].(blob := r.tensorAt[t].blob)
    decreases |ts|
  {
    if ts != [] {
      BindKeeps(g, ts[..|ts| - 1], handle, addr);
    }
  }

  /** A tensor not listed keeps its blob. */
  lemma {:induction false} BindSkips(g: Objects, ts: seq<TensorId>, handle: nat, addr: nat, t: TensorId)
    requires t in g.tensorAt && t !in ts
    ensures Bind(g, ts, handle, addr).tensorAt[t].blob == g.tensorAt[t].blob
    decreases |ts|
  {
    if ts != [] {
      BindSkips(g, ts[..|ts| - 1], handle, addr, t);
    }
  }

  /** A listed tensor is bound at the offset of its last listing. */
  lemma {:induction false} BindPlaces(g: Objects, ts: seq<TensorId>, handle: nat, addr: nat, i: nat)
    requires i < |ts| && ts[i] in g.tensorAt && ts[i] !in ts[i + 1..]
    ensures Bind(g, ts, handle, addr).tensorAt[ts[i]].blob == Some(Blob(handle, Offset(g, ts, addr, i)))
    decreases |ts|
  {
    var n := |ts| - 1;
    var front := ts[..n];
    var b := Bind(g, front, handle, addr);
    assert Bind(g, ts, handle, addr) == SetBlob(b, ts[n], Blob(handle, Offset(g, ts, addr, n)));
    if i < n {
      assert ts[n] != ts[i] by { assert ts[n] == ts[i + 1..][n - i - 1]; }
      assert front[i + 1..] == ts[i + 1..n];
      assert ts[i] !in front[i + 1..] by {
        forall j | i + 1 <= j < n ensures front[j] != ts[i] {
          assert front[j] == ts[i + 1..][j - i - 1];
        }
      }
      BindPlaces(g, front, handle, addr, i);
      assert front[..i] == ts[..i];
      assert Offset(g, front, addr, i) == Offset(g, ts, addr, i);
    }
  }

  /** The ranges follow one another: each starts where the one before it
      ends. */
  lemma Contiguous(g: Objects, ts: seq<TensorId>, addr: nat, i: nat)
    requires i < |ts|
    ensures Offset(g, ts, addr, i + 1) == Offset(g, ts, addr, i) + BytesOf(g, ts[i])
  {
    assert ts[..i + 1][..i] == ts[..i];
  }

  /** Offsets grow with the position. */
  lemma {:induction false} OffsetsGrow(g: Objects, ts: seq<TensorId>, addr: nat, i: nat, j: nat)
    requires i <= j <= |ts|
    ensures Offset(g, ts, addr, i) <= Offset(g, ts, addr, j)
    decreases j - i
  {
    if i < j {
      OffsetsGrow(g, ts, addr, i, j - 1);
      Contiguous(g, ts, addr, j - 1);
    }
  }

  /** The ranges of two positions do not overlap, and every range lies in
      [addr, addr + total). */
  lemma RangesDisjoint(g: Objects, ts: seq<TensorId>, addr: nat, i: nat, j: nat)
    requires i < j < |ts|
    ensures Offset(g, ts, addr, i) + BytesOf(g, ts[i]) <= Offset(g, ts, addr, j)
    ensures addr <= Offset(g, ts, addr, i)
    ensures Offset(g, ts, addr, j) + BytesOf(g, ts[j]) <= addr + Bytes(g, ts)
  {
    Contiguous(g, ts, addr, i);
    OffsetsGrow(g, ts, addr, i + 1, j);
    Contiguous(g, ts, addr, j);
    OffsetsGrow(g, ts, addr, j + 1, |ts|);
    assert ts[..|ts|] == ts;
  }
}
