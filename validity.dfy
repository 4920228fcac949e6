/** The structural invariant `checkValid` in src/core/graph.cc asserts, and its
    preservation by `addOperatorAndConnect`. */
module Validity {
  import opened Wrappers
  import opened Sequences
  import opened GraphObjects

  /** Every link leaving an op of `os` or a tensor of `ts` ends in `os`. */
  ghost predicate LinksIn(g: Objects, os: set<OpId>, ts: set<TensorId>) {
    && (forall o, p :: o in os && HasPred(g, o, p) ==> p in os)
    && (forall o, s :: o in os && HasSucc(g, o, s) ==> s in os)
    && (forall t, o :: t in ts && HasTarget(g, t, o) ==> o in os)
    && (forall t :: t in ts && SourceOf(g, t).Some? ==> SourceOf(g, t).value in os)
  }

  /** What `checkValid` asserts of the graph's lists `ops` and `tensors`: each
      tensor has a source or a target, and its source and targets are ops of
      the graph; each op's inputs and outputs are tensors of the graph, and its
      predecessors and successors are ops of the graph; no two tensors share a
      fuid. */
  predicate WellFormed(g: Objects, ops: seq<OpId>, tensors: seq<TensorId>) {
    && (forall t :: t in tensors ==>
          t in g.tensorAt && (g.tensorAt[t].targets != [] || g.tensorAt[t].source.Some?))
    && (forall o :: o in ops ==> o in g.opAt && OpClosed(Elems(ops), Elems(tensors), g.opAt[o]))
    && (forall t :: t in tensors ==> TensorClosed(Elems(ops), g.tensorAt[t]))
    && (forall i, j :: 0 <= i < j < |tensors| ==>
          g.tensorAt[tensors[i]].fuid != g.tensorAt[tensors[j]].fuid)
  }

  /** Only which ops the list holds matters, not their order. */
  lemma WellFormedReordered(g: Objects, ops: seq<OpId>, ops': seq<OpId>, tensors: seq<TensorId>)
    requires WellFormed(g, ops, tensors) && Elems(ops) == Elems(ops')
    ensures WellFormed(g, ops', tensors)
  {
    assert forall o :: o in ops' <==> o in Elems(ops');
    assert forall o :: o in ops <==> o in Elems(ops);
  }

  // ---------------------------------------------------------------------
  // Each helper adds only links whose ends are in `os`

  lemma AddTargetLinksIn(g: Objects, t: TensorId, o: OpId, os: set<OpId>, ts: set<TensorId>)
    requires LinksIn(g, os, ts) && o in os
    ensures LinksIn(AddTarget(g, t, o), os, ts)
  {
  }

  lemma SetSourceLinksIn(g: Objects, t: TensorId, o: OpId, os: set<OpId>, ts: set<TensorId>)
    requires LinksIn(g, os, ts) && o in os
    ensures LinksIn(SetSource(g, t, o), os, ts)
  {
  }

  lemma AddPredecessorLinksIn(g: Objects, o: OpId, p: OpId, os: set<OpId>, ts: set<TensorId>)
    requires LinksIn(g, os, ts) && p in os
    ensures LinksIn(AddPredecessor(g, o, p), os, ts)
  {
  }

  lemma AddSuccessorLinksIn(g: Objects, o: OpId, s: OpId, os: set<OpId>, ts: set<TensorId>)
    requires LinksIn(g, os, ts) && s in os
    ensures LinksIn(AddSuccessor(g, o, s), os, ts)
  {
  }

  lemma {:induction false} ConnectInputsLinksIn(g: Objects, id: OpId, xs: seq<TensorId>, os: set<OpId>, ts: set<TensorId>)
    requires LinksIn(g, os, ts) && id in os && forall t :: t in xs ==> t in ts
    ensures LinksIn(ConnectInputs(g, id, xs), os, ts)
    decreases |xs|
  {
    if xs != [] {
      var g1 := ConnectInputs(g, id, xs[..|xs| - 1]);
      ConnectInputsLinksIn(g, id, xs[..|xs| - 1], os, ts);
      var t := xs[|xs| - 1];
      var h := AddTarget(g1, t, id);
      AddTargetLinksIn(g1, t, id, os, ts);
      if SourceOf(h, t).Some? {
        var p := SourceOf(h, t).value;
        AddSuccessorLinksIn(h, p, id, os, ts);
        AddPredecessorLinksIn(AddSuccessor(h, p, id), id, p, os, ts);
      }
    }
  }

  lemma {:induction false} LinkConsumersLinksIn(g: Objects, id: OpId, ss: seq<OpId>, os: set<OpId>, ts: set<TensorId>)
    requires LinksIn(g, os, ts) && id in os && forall s :: s in ss ==> s in os
    ensures LinksIn(LinkConsumers(g, id, ss), os, ts)
    decreases |ss|
  {
    if ss != [] {
      var g1 := LinkConsumers(g, id, ss[..|ss| - 1]);
      LinkConsumersLinksIn(g, id, ss[..|ss| - 1], os, ts);
      var s := ss[|ss| - 1];
      AddPredecessorLinksIn(g1, s, id, os, ts);
      AddSuccessorLinksIn(AddPredecessor(g1, s, id), id, s, os, ts);
    }
  }

  lemma {:induction false} ConnectOutputsLinksIn(g: Objects, id: OpId, xs: seq<TensorId>, os: set<OpId>, ts: set<TensorId>)
    requires LinksIn(g, os, ts) && id in os && forall t :: t in xs ==> t in ts
    ensures LinksIn(ConnectOutputs(g, id, xs), os, ts)
    decreases |xs|
  {
    if xs != [] {
      var g1 := ConnectOutputs(g, id, xs[..|xs| - 1]);
      ConnectOutputsLinksIn(g, id, xs[..|xs| - 1], os, ts);
      var t := xs[|xs| - 1];
      var h := SetSource(g1, t, id);
      SetSourceLinksIn(g1, t, id, os, ts);
      assert forall s :: s in TargetsOf(h, t) ==> HasTarget(h, t, s);
      LinkConsumersLinksIn(h, id, TargetsOf(h, t), os, ts);
    }
  }

  /** The graph's links stay within the graph once the new op is wired. */
  lemma ConnectLinksIn(g: Objects, ops: seq<OpId>, tensors: seq<TensorId>, id: OpId, op: Op)
    requires WellFormed(g, ops, tensors) && id !in g.opAt
    requires forall t :: t in op.inputs ==> t in tensors
    requires forall t :: t in op.outputs ==> t in tensors
    requires op.preds == [] && op.succs == []
    ensures LinksIn(Connect(g, id, op), Elems(ops + [id]), Elems(tensors))
  {
    var os, ts := Elems(ops + [id]), Elems(tensors);
    var g0 := g.(opAt := g.opAt[id := op]);
    assert LinksIn(g0, os, ts) by {
      forall o, p | o in os && HasPred(g0, o, p) ensures p in os {
        assert o in ops && OpClosed(Elems(ops), ts, g.opAt[o]);
      }
      forall o, s | o in os && HasSucc(g0, o, s) ensures s in os {
        assert o in ops && OpClosed(Elems(ops), ts, g.opAt[o]);
      }
      forall t, o | t in ts && HasTarget(g0, t, o) ensures o in os {
        assert TensorClosed(Elems(ops), g.tensorAt[t]);
      }
      forall t | t in ts && SourceOf(g0, t).Some? ensures SourceOf(g0, t).value in os {
        assert TensorClosed(Elems(ops), g.tensorAt[t]);
      }
    }
    ConnectInputsLinksIn(g0, id, op.inputs, os, ts);
    ConnectOutputsLinksIn(ConnectInputs(g0, id, op.inputs), id, op.outputs, os, ts);
  }

  /** Each tensor of the graph keeps a source or a target, and its links stay
      in the graph. */
  lemma ConnectKeepsTensorsValid(g: Objects, ops: seq<OpId>, tensors: seq<TensorId>, id: OpId, op: Op)
    requires WellFormed(g, ops, tensors) && id !in g.opAt
    requires LinksIn(Connect(g, id, op), Elems(ops + [id]), Elems(tensors))
    ensures var r := Connect(g, id, op);
      forall t :: t in tensors ==>
        && t in r.tensorAt && (r.tensorAt[t].targets != [] || r.tensorAt[t].source.Some?)
        && TensorClosed(Elems(ops + [id]), r.tensorAt[t])
  {
    var r := Connect(g, id, op);
    ConnectKeeps(g, id, op);
    ConnectTargetsAndSources(g, id, op);
    forall t | t in tensors
      ensures t in r.tensorAt && (r.tensorAt[t].targets != [] || r.tensorAt[t].source.Some?)
      ensures TensorClosed(Elems(ops + [id]), r.tensorAt[t])
    {
      if g.tensorAt[t].targets != [] {
        assert HasTarget(g, t, g.tensorAt[t].targets[0]);
      } else if t !in op.outputs {
        assert SourceOf(r, t) == SourceOf(g, t);
      }
      assert forall o :: o in r.tensorAt[t].targets ==> HasTarget(r, t, o);
    }
  }

  /** Each op of the graph, and the new one, keeps its tensors and its links
      in the graph. */
  lemma ConnectKeepsOpsValid(g: Objects, ops: seq<OpId>, tensors: seq<TensorId>, id: OpId, op: Op)
    requires WellFormed(g, ops, tensors) && id !in g.opAt
    requires forall t :: t in op.inputs ==> t in tensors
    requires forall t :: t in op.outputs ==> t in tensors
    requires LinksIn(Connect(g, id, op), Elems(ops + [id]), Elems(tensors))
    ensures var r := Connect(g, id, op);
      forall o :: o in ops + [id] ==> o in r.opAt && OpClosed(Elems(ops + [id]), Elems(tensors), r.opAt[o])
  {
    var os, ts := Elems(ops + [id]), Elems(tensors);
    var r := Connect(g, id, op);
    ConnectKeeps(g, id, op);
    forall o | o in ops + [id] ensures o in r.opAt && OpClosed(os, ts, r.opAt[o]) {
      if o != id {
        assert OpClosed(Elems(ops), ts, g.opAt[o]);
        assert Core(r.opAt[o]) == Core(g.opAt[o]);
      } else {
        assert Core(r.opAt[id]) == Core(op);
      }
      assert forall p :: p in r.opAt[o].preds ==> HasPred(r, o, p);
      assert forall s :: s in r.opAt[o].succs ==> HasSucc(r, o, s);
    }
  }

  /** `addOperatorAndConnect` of a new op whose tensors are tensors of the
      graph and which has no links yet keeps the graph valid. */
  lemma ConnectKeepsWellFormed(g: Objects, ops: seq<OpId>, tensors: seq<TensorId>, id: OpId, op: Op)
    requires WellFormed(g, ops, tensors) && id !in g.opAt
    requires forall t :: t in op.inputs ==> t in tensors
    requires forall t :: t in op.outputs ==> t in tensors
    requires op.preds == [] && op.succs == []
    ensures WellFormed(Connect(g, id, op), ops + [id], tensors)
  {
    var r := Connect(g, id, op);
    ConnectLinksIn(g, ops, tensors, id, op);
    ConnectKeepsTensorsValid(g, ops, tensors, id, op);
    ConnectKeepsOpsValid(g, ops, tensors, id, op);
    ConnectKeeps(g, id, op);
    forall i, j | 0 <= i < j < |tensors|
      ensures r.tensorAt[tensors[i]].fuid != r.tensorAt[tensors[j]].fuid
    {
      assert Data(r.tensorAt[tensors[i]]) == Data(g.tensorAt[tensors[i]]);
      assert Data(r.tensorAt[tensors[j]]) == Data(g.tensorAt[tensors[j]]);
    }
  }
}
