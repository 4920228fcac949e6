/** The objects a graph links together, as values in an arena: operator and
    tensor records addressed by integer ids instead of shared_ptr handles. The
    helpers the graph engine calls on them (addTarget, removeTarget,
    setSource, add/removePredecessors, add/removeSuccessors, replaceInput)
    are given sequence semantics: append, erase every occurrence, replace
    every occurrence. */
module GraphObjects {
  import opened Wrappers
  import opened Sequences
  import opened Permutations

  type OpId = nat
  type TensorId = nat

  /** The operator kinds the optimizer tells apart, with their attributes. */
  datatype OpKind =
    | Transpose(perm: seq<int>)
    | MatMul(transA: bool, transB: bool)
    | Other

  datatype Op = Op(kind: OpKind, inputs: seq<TensorId>, outputs: seq<TensorId>,
                   preds: seq<OpId>, succs: seq<OpId>)

  /** The memory a tensor is bound to: an allocator buffer and an offset in it. */
  datatype Blob = Blob(handle: nat, offset: nat)

  datatype Tensor = Tensor(fuid: nat, bytes: nat, source: Option<OpId>,
                           targets: seq<OpId>, blob: Option<Blob>)

  /** Every operator and tensor object, live or dropped from the graph. */
  datatype Objects = Objects(opAt: map<OpId, Op>, tensorAt: map<TensorId, Tensor>)

  predicate SameKeys(g: Objects, h: Objects) {
    g.opAt.Keys == h.opAt.Keys && g.tensorAt.Keys == h.tensorAt.Keys
  }

  // ---------------------------------------------------------------------
  // Links point at existing objects

  /** The links of an op point into the given sets of op and tensor ids. */
  predicate OpClosed(ops: set<OpId>, tensors: set<TensorId>, op: Op) {
    && (forall t :: t in op.inputs ==> t in tensors)
    && (forall t :: t in op.outputs ==> t in tensors)
    && (forall p :: p in op.preds ==> p in ops)
    && (forall s :: s in op.succs ==> s in ops)
  }

  /** The links of a tensor point into the given set of op ids. */
  predicate TensorClosed(ops: set<OpId>, x: Tensor) {
    && (x.source.Some? ==> x.source.value in ops)
    && (forall o :: o in x.targets ==> o in ops)
  }

  /** No link dangles: the arena counterpart of every shared_ptr being
      valid. */
  predicate Closed(g: Objects) {
    && (forall o :: o in g.opAt ==> OpClosed(g.opAt.Keys, g.tensorAt.Keys, g.opAt[o]))
    && (forall t :: t in g.tensorAt ==> TensorClosed(g.opAt.Keys, g.tensorAt[t]))
  }

  // ---------------------------------------------------------------------
  // The helpers on operator and tensor objects

  function AddTarget(g: Objects, t: TensorId, o: OpId): (r: Objects)
    ensures SameKeys(g, r)
    ensures Closed(g) && o in g.opAt ==> Closed(r)
  {
    if t in g.tensorAt then
      var x := g.tensorAt[t];
      g.(tensorAt := g.tensorAt[t := x.(targets := x.targets + [o])])
    else g
  }

  function RemoveTarget(g: Objects, t: TensorId, o: OpId): (r: Objects)
    ensures SameKeys(g, r)
    ensures Closed(g) ==> Closed(r)
  {
    if t in g.tensorAt then
      var x := g.tensorAt[t];
      g.(tensorAt := g.tensorAt[t := x.(targets := RemoveAll(x.targets, o))])
    else g
  }

  function SetSource(g: Objects, t: TensorId, o: OpId): (r: Objects)
    ensures SameKeys(g, r)
    ensures Closed(g) && o in g.opAt ==> Closed(r)
  {
    if t in g.tensorAt then
      g.(tensorAt := g.tensorAt[t := g.tensorAt[t].(source := Some(o))])
    else g
  }

  function AddPredecessor(g: Objects, o: OpId, p: OpId): (r: Objects)
    ensures SameKeys(g, r)
    ensures Closed(g) && p in g.opAt ==> Closed(r)
  {
    if o in g.opAt then
      var x := g.opAt[o];
      g.(opAt := g.opAt[o := x.(preds := x.preds + [p])])
    else g
  }

  function RemovePredecessor(g: Objects, o: OpId, p: OpId): (r: Objects)
    ensures SameKeys(g, r)
    ensures Closed(g) ==> Closed(r)
  {
    if o in g.opAt then
      var x := g.opAt[o];
      g.(opAt := g.opAt[o := x.(preds := RemoveAll(x.preds, p))])
    else g
  }

  function AddSuccessor(g: Objects, o: OpId, s: OpId): (r: Objects)
    ensures SameKeys(g, r)
    ensures Closed(g) && s in g.opAt ==> Closed(r)
  {
    if o in g.opAt then
      var x := g.opAt[o];
      g.(opAt := g.opAt[o := x.(succs := x.succs + [s])])
    else g
  }

  function RemoveSuccessor(g: Objects, o: OpId, s: OpId): (r: Objects)
    ensures SameKeys(g, r)
    ensures Closed(g) ==> Closed(r)
  {
    if o in g.opAt then
      var x := g.opAt[o];
      g.(opAt := g.opAt[o := x.(succs := RemoveAll(x.succs, s))])
    else g
  }

  function ReplaceInput(g: Objects, o: OpId, a: TensorId, b: TensorId): (r: Objects)
    ensures SameKeys(g, r)
    ensures Closed(g) && b in g.tensorAt ==> Closed(r)
  {
    if o in g.opAt then
      var x := g.opAt[o];
      g.(opAt := g.opAt[o := x.(inputs := ReplaceAll(x.inputs, a, b))])
    else g
  }

  /** setTransA / setTransB on a MatMul: flips the flag of input `i`. */
  function ToggleTrans(g: Objects, o: OpId, i: nat): (r: Objects)
    ensures SameKeys(g, r)
    ensures Closed(g) ==> Closed(r)
  {
    if o in g.opAt && g.opAt[o].kind.MatMul? then
      var x := g.opAt[o];
      var k := if i == 0 then x.kind.(transA := !x.kind.transA) else x.kind.(transB := !x.kind.transB);
      g.(opAt := g.opAt[o := x.(kind := k)])
    else g
  }

  function SetBlob(g: Objects, t: TensorId, b: Blob): (r: Objects)
    ensures SameKeys(g, r)
    ensures Closed(g) ==> Closed(r)
  {
    if t in g.tensorAt then
      g.(tensorAt := g.tensorAt[t := g.tensorAt[t].(blob := Some(b))])
    else g
  }

  // ---------------------------------------------------------------------
  // Single links, as the lemmas below track them one at a time

  function SourceOf(g: Objects, t: TensorId): Option<OpId> {
    if t in g.tensorAt then g.tensorAt[t].source else None
  }

  function TargetsOf(g: Objects, t: TensorId): seq<OpId> {
    if t in g.tensorAt then g.tensorAt[t].targets else []
  }

  predicate HasTarget(g: Objects, t: TensorId, o: OpId) {
    t in g.tensorAt && o in g.tensorAt[t].targets
  }

  predicate HasPred(g: Objects, o: OpId, p: OpId) {
    o in g.opAt && p in g.opAt[o].preds
  }

  predicate HasSucc(g: Objects, o: OpId, s: OpId) {
    o in g.opAt && s in g.opAt[o].succs
  }

  /** `b` is a successor of `a` and `a` a predecessor of `b`. */
  predicate Linked(g: Objects, a: OpId, b: OpId) {
    HasSucc(g, a, b) && HasPred(g, b, a)
  }

  /** An op without its links. */
  function Core(op: Op): Op {
    op.(preds := [], succs := [])
  }

  /** A tensor without its links. */
  function Data(x: Tensor): Tensor {
    x.(source := None, targets := [])
  }

  /** From `g` to `h` one op `o` and one tensor `t` keep their data and every
      link they had. */
  predicate KeepsAt(g: Objects, h: Objects, o: OpId, p: OpId, t: TensorId) {
    && (o in g.opAt ==> o in h.opAt && Core(h.opAt[o]) == Core(g.opAt[o]))
    && (HasPred(g, o, p) ==> HasPred(h, o, p))
    && (HasSucc(g, o, p) ==> HasSucc(h, o, p))
    && (HasTarget(g, t, p) ==> HasTarget(h, t, p))
    && (t in g.tensorAt ==> t in h.tensorAt && Data(h.tensorAt[t]) == Data(g.tensorAt[t]))
  }

  // ---------------------------------------------------------------------
  // addOperatorAndConnect

  /** One input of the new op `id`: `id` becomes a target of it, and its
      source and `id` become successor and predecessor of each other. */
  function ConnectInput(g: Objects, id: OpId, t: TensorId): (r: Objects)
    ensures SameKeys(g, r)
    ensures forall u :: SourceOf(r, u) == SourceOf(g, u)
  {
    var h := AddTarget(g, t, id);
    match SourceOf(h, t)
    case None => h
    case Some(p) => AddPredecessor(AddSuccessor(h, p, id), id, p)
  }

  /** The inputs, in order. */
  function ConnectInputs(g: Objects, id: OpId, ts: seq<TensorId>): (r: Objects)
    ensures SameKeys(g, r)
    ensures forall u :: SourceOf(r, u) == SourceOf(g, u)
    decreases |ts|
  {
    if ts == [] then g
    else ConnectInput(ConnectInputs(g, id, ts[..|ts| - 1]), id, ts[|ts| - 1])
  }

  /** A consumer `s` of an output of `id` and `id` become successor and
      predecessor of each other. */
  function LinkConsumer(g: Objects, id: OpId, s: OpId): (r: Objects)
    ensures SameKeys(g, r) && r.tensorAt == g.tensorAt
  {
    AddSuccessor(AddPredecessor(g, s, id), id, s)
  }

  /** The consumers, in order. */
  function LinkConsumers(g: Objects, id: OpId, ss: seq<OpId>): (r: Objects)
    ensures SameKeys(g, r) && r.tensorAt == g.tensorAt
    decreases |ss|
  {
    if ss == [] then g
    else LinkConsumer(LinkConsumers(g, id, ss[..|ss| - 1]), id, ss[|ss| - 1])
  }

  /** One output of `id`: `id` becomes its source and is linked to each of its
      consumers. */
  function ConnectOutput(g: Objects, id: OpId, t: TensorId): (r: Objects)
    ensures SameKeys(g, r)
    ensures forall u :: TargetsOf(r, u) == TargetsOf(g, u)
    ensures forall u :: u != t ==> SourceOf(r, u) == SourceOf(g, u)
    ensures t in g.tensorAt ==> SourceOf(r, t) == Some(id)
  {
    var h := SetSource(g, t, id);
    LinkConsumers(h, id, TargetsOf(h, t))
  }

  /** The outputs, in order. */
  function ConnectOutputs(g: Objects, id: OpId, ts: seq<TensorId>): (r: Objects)
    ensures SameKeys(g, r)
    ensures forall u :: TargetsOf(r, u) == TargetsOf(g, u)
    ensures forall u :: u !in ts ==> SourceOf(r, u) == SourceOf(g, u)
    decreases |ts|
  {
    if ts == [] then g
    else ConnectOutput(ConnectOutputs(g, id, ts[..|ts| - 1]), id, ts[|ts| - 1])
  }

  /** The objects once `op` is stored under `id` and wired into the graph. */
  function Connect(g: Objects, id: OpId, op: Op): Objects {
    ConnectOutputs(ConnectInputs(g.(opAt := g.opAt[id := op]), id, op.inputs), id, op.outputs)
  }

  lemma ConnectInputKeeps(g: Objects, id: OpId, x: TensorId, o: OpId, p: OpId, t: TensorId)
    ensures KeepsAt(g, ConnectInput(g, id, x), o, p, t)
  {
  }

  lemma {:induction false} ConnectInputsKeep(g: Objects, id: OpId, ts: seq<TensorId>, o: OpId, p: OpId, t: TensorId)
    ensures KeepsAt(g, ConnectInputs(g, id, ts), o, p, t)
    decreases |ts|
  {
    if ts != [] {
      var h := ConnectInputs(g, id, ts[..|ts| - 1]);
      ConnectInputsKeep(g, id, ts[..|ts| - 1], o, p, t);
      ConnectInputKeeps(h, id, ts[|ts| - 1], o, p, t);
    }
  }

  lemma LinkConsumerKeeps(g: Objects, id: OpId, s: OpId, o: OpId, p: OpId, t: TensorId)
    ensures KeepsAt(g, LinkConsumer(g, id, s), o, p, t)
  {
  }

  lemma {:induction false} LinkConsumersKeep(g: Objects, id: OpId, ss: seq<OpId>, o: OpId, p: OpId, t: TensorId)
    ensures KeepsAt(g, LinkConsumers(g, id, ss), o, p, t)
    decreases |ss|
  {
    if ss != [] {
      var h := LinkConsumers(g, id, ss[..|ss| - 1]);
      LinkConsumersKeep(g, id, ss[..|ss| - 1], o, p, t);
      LinkConsumerKeeps(h, id, ss[|ss| - 1], o, p, t);
    }
  }

  lemma ConnectOutputKeeps(g: Objects, id: OpId, x: TensorId, o: OpId, p: OpId, t: TensorId)
    ensures KeepsAt(g, ConnectOutput(g, id, x), o, p, t)
  {
    var h := SetSource(g, x, id);
    LinkConsumersKeep(h, id, TargetsOf(h, x), o, p, t);
  }

  lemma {:induction false} ConnectOutputsKeep(g: Objects, id: OpId, ts: seq<TensorId>, o: OpId, p: OpId, t: TensorId)
    ensures KeepsAt(g, ConnectOutputs(g, id, ts), o, p, t)
    decreases |ts|
  {
    if ts != [] {
      var h := ConnectOutputs(g, id, ts[..|ts| - 1]);
      ConnectOutputsKeep(g, id, ts[..|ts| - 1], o, p, t);
      ConnectOutputKeeps(h, id, ts[|ts| - 1], o, p, t);
    }
  }

  lemma {:induction false} ConnectInputsTarget(g: Objects, id: OpId, ts: seq<TensorId>, t: TensorId)
    requires t in ts && t in g.tensorAt
    ensures HasTarget(ConnectInputs(g, id, ts), t, id)
    decreases |ts|
  {
    var front, last := ts[..|ts| - 1], ts[|ts| - 1];
    var h := ConnectInputs(g, id, front);
    if t == last {
      assert HasTarget(AddTarget(h, t, id), t, id);
      ConnectInputKeeps(h, id, t, id, id, t);
      assert t in h.tensorAt;
    } else {
      assert t in front;
      ConnectInputsTarget(g, id, front, t);
      ConnectInputKeeps(h, id, last, id, id, t);
    }
  }

  lemma {:induction false} ConnectInputsLinkSource(g: Objects, id: OpId, ts: seq<TensorId>, t: TensorId)
    requires t in ts && SourceOf(g, t).Some? && SourceOf(g, t).value in g.opAt && id in g.opAt
    ensures Linked(ConnectInputs(g, id, ts), SourceOf(g, t).value, id)
    decreases |ts|
  {
    var p := SourceOf(g, t).value;
    var front, last := ts[..|ts| - 1], ts[|ts| - 1];
    var h := ConnectInputs(g, id, front);
    if t == last {
      assert SourceOf(AddTarget(h, t, id), t) == Some(p);
    } else {
      assert t in front;
      ConnectInputsLinkSource(g, id, front, t);
      ConnectInputKeeps(h, id, last, p, id, t);
      ConnectInputKeeps(h, id, last, id, p, t);
    }
  }

  lemma {:induction false} LinkConsumersLink(g: Objects, id: OpId, ss: seq<OpId>, s: OpId)
    requires s in ss && s in g.opAt && id in g.opAt
    ensures Linked(LinkConsumers(g, id, ss), id, s)
    decreases |ss|
  {
    var front, last := ss[..|ss| - 1], ss[|ss| - 1];
    var h := LinkConsumers(g, id, front);
    if s != last {
      assert s in front;
      LinkConsumersLink(g, id, front, s);
      LinkConsumerKeeps(h, id, last, id, s, 0);
      LinkConsumerKeeps(h, id, last, s, id, 0);
    }
  }

  lemma {:induction false} ConnectOutputsLink(g: Objects, id: OpId, ts: seq<TensorId>, t: TensorId, s: OpId)
    requires t in ts && HasTarget(g, t, s) && s in g.opAt && id in g.opAt
    ensures Linked(ConnectOutputs(g, id, ts), id, s)
    decreases |ts|
  {
    var front, last := ts[..|ts| - 1], ts[|ts| - 1];
    var h := ConnectOutputs(g, id, front);
    if t == last {
      assert TargetsOf(h, t) == TargetsOf(g, t);
      var h1 := SetSource(h, t, id);
      LinkConsumersLink(h1, id, TargetsOf(h1, t), s);
    } else {
      assert t in front;
      ConnectOutputsLink(g, id, front, t, s);
      ConnectOutputKeeps(h, id, last, id, s, t);
      ConnectOutputKeeps(h, id, last, s, id, t);
    }
  }

  /** addOperatorAndConnect makes the new op a target of each of its inputs
      and the source of each of its outputs, and leaves the source of every
      other tensor alone. */
  lemma ConnectTargetsAndSources(g: Objects, id: OpId, op: Op)
    requires id !in g.opAt
    ensures var r := Connect(g, id, op);
      && (forall t :: t in op.inputs && t in g.tensorAt ==> HasTarget(r, t, id))
      && (forall t :: t in op.outputs && t in g.tensorAt ==> SourceOf(r, t) == Some(id))
      && (forall t :: t !in op.outputs ==> SourceOf(r, t) == SourceOf(g, t))
  {
    var g0 := g.(opAt := g.opAt[id := op]);
    var g1 := ConnectInputs(g0, id, op.inputs);
    forall t | t in op.inputs && t in g.tensorAt ensures HasTarget(Connect(g, id, op), t, id) {
      ConnectInputsTarget(g0, id, op.inputs, t);
      ConnectOutputsKeep(g1, id, op.outputs, id, id, t);
    }
    forall t | t in op.outputs && t in g.tensorAt ensures SourceOf(Connect(g, id, op), t) == Some(id) {
      ConnectOutputsSource(g1, id, op.outputs, t);
    }
    assert forall t :: SourceOf(g0, t) == SourceOf(g, t);
  }

  lemma {:induction false} ConnectOutputsSource(g: Objects, id: OpId, ts: seq<TensorId>, t: TensorId)
    requires t in ts && t in g.tensorAt
    ensures SourceOf(ConnectOutputs(g, id, ts), t) == Some(id)
    decreases |ts|
  {
    var front, last := ts[..|ts| - 1], ts[|ts| - 1];
    if t != last {
      assert t in front;
      ConnectOutputsSource(g, id, front, t);
    }
  }

  /** addOperatorAndConnect links the new op both ways with the source of each
      of its inputs. */
  lemma ConnectLinksProducers(g: Objects, id: OpId, op: Op)
    requires id !in g.opAt
    ensures var r := Connect(g, id, op);
      forall t :: t in op.inputs && SourceOf(g, t).Some? && SourceOf(g, t).value in g.opAt ==>
        Linked(r, SourceOf(g, t).value, id)
  {
    var g0 := g.(opAt := g.opAt[id := op]);
    var g1 := ConnectInputs(g0, id, op.inputs);
    forall t | t in op.inputs && SourceOf(g, t).Some? && SourceOf(g, t).value in g.opAt
      ensures Linked(Connect(g, id, op), SourceOf(g, t).value, id)
    {
      var p := SourceOf(g, t).value;
      assert SourceOf(g0, t) == SourceOf(g, t);
      ConnectInputsLinkSource(g0, id, op.inputs, t);
      ConnectOutputsKeep(g1, id, op.outputs, p, id, t);
      ConnectOutputsKeep(g1, id, op.outputs, id, p, t);
    }
  }

  /** addOperatorAndConnect links the new op both ways with each op that
      already consumed one of its outputs. */
  lemma ConnectLinksConsumers(g: Objects, id: OpId, op: Op)
    requires id !in g.opAt
    ensures var r := Connect(g, id, op);
      forall t, s :: t in op.outputs && HasTarget(g, t, s) && s in g.opAt ==> Linked(r, id, s)
  {
    var g0 := g.(opAt := g.opAt[id := op]);
    var g1 := ConnectInputs(g0, id, op.inputs);
    forall t, s | t in op.outputs && HasTarget(g, t, s) && s in g.opAt
      ensures Linked(Connect(g, id, op), id, s)
    {
      ConnectInputsKeep(g0, id, op.inputs, s, s, t);
      ConnectOutputsLink(g1, id, op.outputs, t, s);
    }
  }

  /** addOperatorAndConnect stores the new op and, of the objects already
      there, changes only links, which it only adds to. */
  lemma ConnectKeeps(g: Objects, id: OpId, op: Op)
    requires id !in g.opAt
    ensures var r := Connect(g, id, op);
      && r.opAt.Keys == g.opAt.Keys + {id} && r.tensorAt.Keys == g.tensorAt.Keys
      && Core(r.opAt[id]) == Core(op)
      && (forall p :: p in op.preds ==> HasPred(r, id, p))
      && (forall s :: s in op.succs ==> HasSucc(r, id, s))
      && (forall o :: o in g.opAt ==> Core(r.opAt[o]) == Core(g.opAt[o]))
      && (forall o, p :: HasPred(g, o, p) ==> HasPred(r, o, p))
      && (forall o, s :: HasSucc(g, o, s) ==> HasSucc(r, o, s))
      && (forall t :: t in g.tensorAt ==> Data(r.tensorAt[t]) == Data(g.tensorAt[t]))
      && (forall t, o :: HasTarget(g, t, o) ==> HasTarget(r, t, o))
  {
    var g0 := g.(opAt := g.opAt[id := op]);
    var g1 := ConnectInputs(g0, id, op.inputs);
    var r := Connect(g, id, op);
    forall o, p, t ensures KeepsAt(g0, r, o, p, t) {
      ConnectInputsKeep(g0, id, op.inputs, o, p, t);
      ConnectOutputsKeep(g1, id, op.outputs, o, p, t);
    }
    assert forall o, p, t :: KeepsAt(g0, r, o, p, t);
    forall o, p | HasPred(g, o, p) ensures HasPred(r, o, p) {
      assert KeepsAt(g0, r, o, p, 0);
    }
    forall o, s | HasSucc(g, o, s) ensures HasSucc(r, o, s) {
      assert KeepsAt(g0, r, o, s, 0);
    }
    forall t, o | HasTarget(g, t, o) ensures HasTarget(r, t, o) {
      assert KeepsAt(g0, r, 0, o, t);
    }
    forall o | o in g.opAt ensures Core(r.opAt[o]) == Core(g.opAt[o]) {
      assert KeepsAt(g0, r, o, 0, 0);
    }
    forall t | t in g.tensorAt ensures Data(r.tensorAt[t]) == Data(g.tensorAt[t]) {
      assert KeepsAt(g0, r, 0, 0, t);
    }
    assert KeepsAt(g0, r, id, 0, 0);
    forall p | p in op.preds ensures HasPred(r, id, p) {
      assert KeepsAt(g0, r, id, p, 0);
    }
    forall s | s in op.succs ensures HasSucc(r, id, s) {
      assert KeepsAt(g0, r, id, s, 0);
    }
  }

  lemma {:induction false} ConnectInputsClosed(g: Objects, id: OpId, ts: seq<TensorId>)
    requires Closed(g) && id in g.opAt
    ensures Closed(ConnectInputs(g, id, ts))
    decreases |ts|
  {
    if ts != [] {
      ConnectInputsClosed(g, id, ts[..|ts| - 1]);
    }
  }

  lemma {:induction false} LinkConsumersClosed(g: Objects, id: OpId, ss: seq<OpId>)
    requires Closed(g) && id in g.opAt && forall s :: s in ss ==> s in g.opAt
    ensures Closed(LinkConsumers(g, id, ss))
    decreases |ss|
  {
    if ss != [] {
      LinkConsumersClosed(g, id, ss[..|ss| - 1]);
    }
  }

  lemma {:induction false} ConnectOutputsClosed(g: Objects, id: OpId, ts: seq<TensorId>)
    requires Closed(g) && id in g.opAt
    ensures Closed(ConnectOutputs(g, id, ts))
    decreases |ts|
  {
    if ts != [] {
      var h := ConnectOutputs(g, id, ts[..|ts| - 1]);
      ConnectOutputsClosed(g, id, ts[..|ts| - 1]);
      var h1 := SetSource(h, ts[|ts| - 1], id);
      LinkConsumersClosed(h1, id, TargetsOf(h1, ts[|ts| - 1]));
    }
  }

  /** Wiring a new op whose own links point at existing objects keeps every
      link pointing at an existing object. */
  lemma ConnectKeepsClosed(g: Objects, id: OpId, op: Op)
    requires Closed(g) && id !in g.opAt
    requires forall t :: t in op.inputs ==> t in g.tensorAt
    requires forall t :: t in op.outputs ==> t in g.tensorAt
    requires forall p :: p in op.preds ==> p in g.opAt || p == id
    requires forall s :: s in op.succs ==> s in g.opAt || s == id
    ensures Closed(Connect(g, id, op))
  {
    var g0 := g.(opAt := g.opAt[id := op]);
    assert Closed(g0) by {
      forall o | o in g0.opAt ensures OpClosed(g0.opAt.Keys, g0.tensorAt.Keys, g0.opAt[o]) {
        if o != id {
          assert OpClosed(g.opAt.Keys, g.tensorAt.Keys, g.opAt[o]);
        }
      }
      forall t | t in g0.tensorAt ensures TensorClosed(g0.opAt.Keys, g0.tensorAt[t]) {
        assert TensorClosed(g.opAt.Keys, g.tensorAt[t]);
      }
    }
    ConnectInputsClosed(g0, id, op.inputs);
    ConnectOutputsClosed(ConnectInputs(g0, id, op.inputs), id, op.outputs);
  }

  // ---------------------------------------------------------------------
  // optimize

  /** What optimize may do to the objects: each op keeps its kind (a MatMul
      may flip its flags), the number of its inputs and its outputs, and only
      loses predecessors; each tensor keeps its data and its source. */
  predicate Evolves(g: Objects, h: Objects) {
    && SameKeys(g, h)
    && (forall o :: o in g.opAt ==> OpEvolves(g.opAt[o], h.opAt[o]))
    && (forall t :: t in g.tensorAt ==> TensorEvolves(g.tensorAt[t], h.tensorAt[t]))
  }

  predicate SameKind(a: OpKind, b: OpKind) {
    match a
    case Transpose(_) => b == a
    case MatMul(_, _) => b.MatMul?
    case Other => b.Other?
  }

  predicate OpEvolves(a: Op, b: Op) {
    && SameKind(a.kind, b.kind) && |b.inputs| == |a.inputs| && b.outputs == a.outputs
    && (forall p :: p in b.preds ==> p in a.preds)
  }

  predicate TensorEvolves(a: Tensor, b: Tensor) {
    b.fuid == a.fuid && b.bytes == a.bytes && b.source == a.source && b.blob == a.blob
  }

  lemma EvolvesTrans(f: Objects, g: Objects, h: Objects)
    requires Evolves(f, g) && Evolves(g, h)
    ensures Evolves(f, h)
  {
  }

  lemma RemoveTargetEvolves(g: Objects, t: TensorId, o: OpId)
    ensures Evolves(g, RemoveTarget(g, t, o))
  {
  }

  lemma RemoveSuccessorEvolves(g: Objects, o: OpId, s: OpId)
    ensures Evolves(g, RemoveSuccessor(g, o, s))
  {
  }

  lemma AddSuccessorEvolves(g: Objects, o: OpId, s: OpId)
    ensures Evolves(g, AddSuccessor(g, o, s))
  {
  }

  lemma RemovePredecessorEvolves(g: Objects, o: OpId, p: OpId)
    ensures Evolves(g, RemovePredecessor(g, o, p))
  {
  }

  lemma ToggleTransEvolves(g: Objects, o: OpId, i: nat)
    ensures Evolves(g, ToggleTrans(g, o, i))
  {
  }

  /** Every consumer in `cs` reads `to` where it read `from`, and becomes a
      target of `to`. */
  function Rewire(g: Objects, from: TensorId, to: TensorId, cs: seq<OpId>): (r: Objects)
    ensures SameKeys(g, r)
    decreases |cs|
  {
    if cs == [] then g
    else
      var c := cs[|cs| - 1];
      AddTarget(ReplaceInput(Rewire(g, from, to, cs[..|cs| - 1]), c, from, to), to, c)
  }

  /** The op `x` after rewiring. */
  function RewiredOp(x: Op, xid: OpId, from: TensorId, to: TensorId, cs: seq<OpId>): Op {
    if xid in cs then x.(inputs := ReplaceAll(x.inputs, from, to)) else x
  }

  /** The tensor `x` after rewiring. */
  function RewiredTensor(x: Tensor, xid: TensorId, to: TensorId, cs: seq<OpId>): Tensor {
    if xid == to then x.(targets := x.targets + cs) else x
  }

  lemma RewiredOpAppend(a: Op, x: OpId, from: TensorId, to: TensorId, front: seq<OpId>, c: OpId)
    ensures RewiredOp(RewiredOp(a, x, from, to, front), x, from, to, [c]) == RewiredOp(a, x, from, to, front + [c])
  {
    assert x in front + [c] <==> x in front || x == c;
    if x == c && x in front {
      ReplaceAllTwice(a.inputs, from, to);
    }
  }

  lemma {:induction false} RewireOpAt(g: Objects, from: TensorId, to: TensorId, cs: seq<OpId>, x: OpId)
    requires x in g.opAt
    ensures Rewire(g, from, to, cs).opAt[x] == RewiredOp(g.opAt[x], x, from, to, cs)
    decreases |cs|
  {
    if cs != [] {
      var front, c := cs[..|cs| - 1], cs[|cs| - 1];
      var h := Rewire(g, from, to, front);
      RewireOpAt(g, from, to, front, x);
      assert AddTarget(ReplaceInput(h, c, from, to), to, c).opAt[x] == RewiredOp(h.opAt[x], x, from, to, [c]);
      RewiredOpAppend(g.opAt[x], x, from, to, front, c);
      assert cs == front + [c];
    }
  }

  lemma {:induction false} RewireTensorAt(g: Objects, from: TensorId, to: TensorId, cs: seq<OpId>, x: TensorId)
    requires x in g.tensorAt
    ensures Rewire(g, from, to, cs).tensorAt[x] == RewiredTensor(g.tensorAt[x], x, to, cs)
    decreases |cs|
  {
    if cs != [] {
      var front, c := cs[..|cs| - 1], cs[|cs| - 1];
      RewireTensorAt(g, from, to, front, x);
      assert cs == front + [c];
    }
  }

  /** Rewiring in closed form: the consumers' inputs have `from` replaced by
      `to`, `to` gains the consumers as targets, nothing else changes. */
  lemma RewireResult(g: Objects, from: TensorId, to: TensorId, cs: seq<OpId>)
    ensures var r := Rewire(g, from, to, cs);
      && (forall o :: o in g.opAt ==> r.opAt[o] == RewiredOp(g.opAt[o], o, from, to, cs))
      && (forall t :: t in g.tensorAt ==> r.tensorAt[t] == RewiredTensor(g.tensorAt[t], t, to, cs))
  {
    var r := Rewire(g, from, to, cs);
    forall o | o in g.opAt ensures r.opAt[o] == RewiredOp(g.opAt[o], o, from, to, cs) {
      RewireOpAt(g, from, to, cs, o);
    }
    forall t | t in g.tensorAt ensures r.tensorAt[t] == RewiredTensor(g.tensorAt[t], t, to, cs) {
      RewireTensorAt(g, from, to, cs, t);
    }
  }

  lemma RewireEvolves(g: Objects, from: TensorId, to: TensorId, cs: seq<OpId>)
    ensures Evolves(g, Rewire(g, from, to, cs))
  {
    RewireResult(g, from, to, cs);
  }

  /** Each former successor `post` of `o` drops `o` from its predecessors and,
      when there is one, becomes a successor of `prePre`. */
  function Unlink(g: Objects, o: OpId, posts: seq<OpId>, prePre: Option<OpId>): (r: Objects)
    ensures SameKeys(g, r)
    decreases |posts|
  {
    if posts == [] then g
    else
      var post := posts[|posts| - 1];
      var h := RemovePredecessor(Unlink(g, o, posts[..|posts| - 1], prePre), post, o);
      if prePre.Some? then AddSuccessor(h, prePre.value, post) else h
  }

  /** The op `x` after unlinking. */
  function Unlinked(x: Op, xid: OpId, o: OpId, posts: seq<OpId>, prePre: Option<OpId>): Op {
    x.(preds := if xid in posts then RemoveAll(x.preds, o) else x.preds,
       succs := if prePre == Some(xid) then x.succs + posts else x.succs)
  }

  lemma UnlinkOneAt(g: Objects, o: OpId, post: OpId, prePre: Option<OpId>, x: OpId)
    requires x in g.opAt
    ensures var h := RemovePredecessor(g, post, o);
            var r := if prePre.Some? then AddSuccessor(h, prePre.value, post) else h;
      r.opAt[x] == Unlinked(g.opAt[x], x, o, [post], prePre)
  {
  }

  lemma UnlinkedAppend(a: Op, x: OpId, o: OpId, front: seq<OpId>, post: OpId, prePre: Option<OpId>)
    ensures Unlinked(Unlinked(a, x, o, front, prePre), x, o, [post], prePre) == Unlinked(a, x, o, front + [post], prePre)
  {
    assert x in front + [post] <==> x in front || x == post;
    if x == post && x in front {
      RemoveAllTwice(a.preds, o);
    }
  }

  lemma {:induction false} UnlinkAt(g: Objects, o: OpId, posts: seq<OpId>, prePre: Option<OpId>, x: OpId)
    requires x in g.opAt
    ensures Unlink(g, o, posts, prePre).opAt[x] == Unlinked(g.opAt[x], x, o, posts, prePre)
    decreases |posts|
  {
    if posts != [] {
      var front, post := posts[..|posts| - 1], posts[|posts| - 1];
      var h := Unlink(g, o, front, prePre);
      UnlinkAt(g, o, front, prePre, x);
      UnlinkOneAt(h, o, post, prePre, x);
      UnlinkedAppend(g.opAt[x], x, o, front, post, prePre);
      assert posts == front + [post];
    }
  }

  lemma {:induction false} UnlinkKeepsTensors(g: Objects, o: OpId, posts: seq<OpId>, prePre: Option<OpId>)
    ensures Unlink(g, o, posts, prePre).tensorAt == g.tensorAt
    decreases |posts|
  {
    if posts != [] {
      UnlinkKeepsTensors(g, o, posts[..|posts| - 1], prePre);
    }
  }

  /** Unlinking in closed form: each former successor loses `o` from its
      predecessors, `prePre` gains every one of them as successors, nothing
      else changes. */
  lemma UnlinkResult(g: Objects, o: OpId, posts: seq<OpId>, prePre: Option<OpId>)
    ensures var r := Unlink(g, o, posts, prePre);
      && r.tensorAt == g.tensorAt
      && (forall x :: x in g.opAt ==> r.opAt[x] == Unlinked(g.opAt[x], x, o, posts, prePre))
  {
    UnlinkKeepsTensors(g, o, posts, prePre);
    forall x | x in g.opAt ensures Unlink(g, o, posts, prePre).opAt[x] == Unlinked(g.opAt[x], x, o, posts, prePre) {
      UnlinkAt(g, o, posts, prePre, x);
    }
  }

  lemma UnlinkEvolves(g: Objects, o: OpId, posts: seq<OpId>, prePre: Option<OpId>)
    ensures Evolves(g, Unlink(g, o, posts, prePre))
  {
    UnlinkResult(g, o, posts, prePre);
  }

  lemma {:induction false} RewireClosed(g: Objects, from: TensorId, to: TensorId, cs: seq<OpId>)
    requires Closed(g) && to in g.tensorAt && forall c :: c in cs ==> c in g.opAt
    ensures Closed(Rewire(g, from, to, cs))
    decreases |cs|
  {
    if cs != [] {
      RewireClosed(g, from, to, cs[..|cs| - 1]);
    }
  }

  lemma {:induction false} UnlinkClosed(g: Objects, o: OpId, posts: seq<OpId>, prePre: Option<OpId>)
    requires Closed(g) && forall p :: p in posts ==> p in g.opAt
    ensures Closed(Unlink(g, o, posts, prePre))
    decreases |posts|
  {
    if posts != [] {
      UnlinkClosed(g, o, posts[..|posts| - 1], prePre);
    }
  }

  /** The arities the optimizer relies on: a Transpose has an input and an
      output and permutes its own axes, a MatMul has two inputs. */
  predicate Shaped(g: Objects) {
    forall o :: o in g.opAt ==> OpShaped(g.opAt[o])
  }

  predicate OpShaped(op: Op) {
    && (op.kind.Transpose? ==> |op.inputs| >= 1 && |op.outputs| >= 1 && InRange(op.kind.perm, |op.kind.perm|))
    && (op.kind.MatMul? ==> |op.inputs| >= 2)
  }

  /** A Transpose fed by a Transpose permutes as many axes. */
  predicate TransposeChainsAgree(g: Objects) {
    forall o, p :: o in g.opAt && p in g.opAt[o].preds && p in g.opAt && g.opAt[o].kind.Transpose? && g.opAt[p].kind.Transpose? ==>
      |g.opAt[o].kind.perm| == |g.opAt[p].kind.perm|
  }

  lemma EvolvesKeepsShape(g: Objects, h: Objects)
    requires Evolves(g, h)
    ensures Shaped(g) ==> Shaped(h)
    ensures TransposeChainsAgree(g) ==> TransposeChainsAgree(h)
  {
    if TransposeChainsAgree(g) {
      forall o, p | o in h.opAt && p in h.opAt[o].preds && p in h.opAt && h.opAt[o].kind.Transpose? && h.opAt[p].kind.Transpose?
        ensures |h.opAt[o].kind.perm| == |h.opAt[p].kind.perm|
      {
        assert OpEvolves(g.opAt[o], h.opAt[o]) && OpEvolves(g.opAt[p], h.opAt[p]);
        assert p in g.opAt[o].preds;
      }
    }
    if Shaped(g) {
      forall o | o in h.opAt ensures OpShaped(h.opAt[o]) {
        assert OpEvolves(g.opAt[o], h.opAt[o]) && OpShaped(g.opAt[o]);
      }
    }
  }
}
