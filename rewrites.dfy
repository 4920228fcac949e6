/** The two rewrite rules of `optimize` in src/core/graph.cc, as functions on
    the state its scan updates, and what each does to the graph. */
module Rewrites {
  import opened Wrappers
  import opened Sequences
  import opened Permutations
  import opened GraphObjects

  /** What the scan of `optimize` updates: the objects, the graph's tensor
      list and the ops queued for removal. */
  datatype Scan = Scan(g: Objects, tensors: seq<TensorId>, queue: seq<OpId>)

  /** The consumers of `from` read `to` instead and become its targets, after
      `p` stopped being a target of `to`. */
  function Bypass(g: Objects, p: OpId, from: TensorId, to: TensorId): (r: Objects)
    ensures SameKeys(g, r)
  {
    var g1 := RemoveTarget(g, to, p);
    Rewire(g1, from, to, TargetsOf(g1, from))
  }

  lemma BypassOpAt(g: Objects, p: OpId, from: TensorId, to: TensorId, x: OpId)
    requires x in g.opAt
    ensures Bypass(g, p, from, to).opAt[x] == RewiredOp(g.opAt[x], x, from, to, TargetsOf(RemoveTarget(g, to, p), from))
  {
    RewireOpAt(RemoveTarget(g, to, p), from, to, TargetsOf(RemoveTarget(g, to, p), from), x);
  }

  /** The predecessor of `pre`, when it has exactly one. */
  function PrePre(pre: Op): Option<OpId> {
    if |pre.preds| == 1 then Some(pre.preds[0]) else None
  }

  // ---------------------------------------------------------------------
  // Rule 1: two transposes that undo each other

  /** `pre` and `op` are transposes whose permutations compose to the
      identity. The size and range conditions are those invalid_trans asserts
      and indexes by; the arities are those the rule reads. */
  predicate CancellingPair(pre: Op, op: Op) {
    && pre.kind.Transpose? && op.kind.Transpose?
    && |op.kind.perm| == |pre.kind.perm| && InRange(op.kind.perm, |pre.kind.perm|)
    && ComposesToIdentity(op.kind.perm, pre.kind.perm)
    && |pre.inputs| >= 1 && |op.inputs| >= 1 && |op.outputs| >= 1
  }

  /** Rule 1 fires on `o`: it has exactly one predecessor and the two cancel. */
  predicate Rule1Applies(g: Objects, o: OpId) {
    && o in g.opAt && |g.opAt[o].preds| == 1
    && g.opAt[o].preds[0] in g.opAt
    && CancellingPair(g.opAt[g.opAt[o].preds[0]], g.opAt[o])
  }

  /** Rule 1 on `o` with predecessor `pre`: the consumers of `o`'s output read
      `pre`'s input, both tensors between are dropped from the tensor list,
      the predecessor of `pre` (if it is the only one) loses `pre` and gains
      the successors of `o`, which lose `o`; both ops are queued. */
  function Rule1(s: Scan, o: OpId): (r: Scan)
    ensures SameKeys(s.g, r.g)
  {
    if !Rule1Applies(s.g, o) then s
    else
      var op := s.g.opAt[o];
      var p := op.preds[0];
      var pre := s.g.opAt[p];
      var input, output := pre.inputs[0], op.outputs[0];
      var g2 := Bypass(s.g, p, output, input);
      BypassOpAt(s.g, p, output, input, o);
      var mid := g2.opAt[o].inputs[0];
      Scan(Detach(g2, o, p, PrePre(pre)), RemoveAll(RemoveAll(s.tensors, output), mid), s.queue + [p, o])
  }

  /** The links half of Rule 1: `pp` loses `p` as a successor, then the
      successors of `o` (read at that point) lose `o` and are given to `pp`. */
  function Detach(g: Objects, o: OpId, p: OpId, pp: Option<OpId>): (r: Objects)
    ensures SameKeys(g, r)
  {
    var g1 := if pp.Some? then RemoveSuccessor(g, pp.value, p) else g;
    Unlink(g1, o, if o in g1.opAt then g1.opAt[o].succs else [], pp)
  }

  // ---------------------------------------------------------------------
  // Rule 2: a last-two-axes transpose folded into a MatMul

  /** `pre` is a transpose of the last two axes whose only successor is the
      MatMul, with the tensors the rule reads. */
  predicate FoldableTranspose(pre: Op) {
    && pre.kind.Transpose? && |pre.succs| == 1 && IsLastTwoSwap(pre.kind.perm)
    && |pre.inputs| >= 1 && |pre.outputs| >= 1
  }

  /** Rule 2 fires on input `i` of the MatMul `o`. */
  predicate Rule2Applies(g: Objects, o: OpId, i: nat) {
    && o in g.opAt && g.opAt[o].kind.MatMul? && i < |g.opAt[o].inputs|
    && var src := SourceOf(g, g.opAt[o].inputs[i]);
       src.Some? && src.value in g.opAt && FoldableTranspose(g.opAt[src.value])
  }

  /** Rule 2 on input `i` of `o`, produced by `pre`: the flag of that input is
      toggled, the consumers of the input read `pre`'s input, `pre`'s output
      is dropped from the tensor list, the predecessor of `pre` (if it is the
      only one) has `pre` replaced by `o` among its successors, `o` loses
      `pre`, and `pre` is queued. */
  function Rule2(s: Scan, o: OpId, i: nat): (r: Scan)
    ensures SameKeys(s.g, r.g)
  {
    if !Rule2Applies(s.g, o, i) then s
    else
      var input := s.g.opAt[o].inputs[i];
      var p := SourceOf(s.g, input).value;
      var pre := s.g.opAt[p];
      var g1 := Bypass(ToggleTrans(s.g, o, i), p, input, pre.inputs[0]);
      Scan(Refold(g1, o, p, PrePre(pre)), RemoveAll(s.tensors, pre.outputs[0]), s.queue + [p])
  }

  /** The links half of Rule 2: `pp` has its successor `p` replaced by `o`,
      and `o` loses its predecessor `p`. */
  function Refold(g: Objects, o: OpId, p: OpId, pp: Option<OpId>): (r: Objects)
    ensures SameKeys(g, r)
  {
    var g1 := if pp.Some? then AddSuccessor(RemoveSuccessor(g, pp.value, p), pp.value, o) else g;
    RemovePredecessor(g1, o, p)
  }

  // ---------------------------------------------------------------------
  // The scan

  /** One iteration of the scan: Rule 1, then Rule 2 on inputs 0 and 1. */
  function Visit(s: Scan, o: OpId): (r: Scan)
    ensures SameKeys(s.g, r.g)
  {
    Rule2(Rule2(Rule1(s, o), o, 0), o, 1)
  }

  /** The scan over `os`, in order. */
  function ScanOps(s: Scan, os: seq<OpId>): (r: Scan)
    ensures SameKeys(s.g, r.g)
    decreases |os|
  {
    if os == [] then s else Visit(ScanOps(s, os[..|os| - 1]), os[|os| - 1])
  }

  /** `q` is an op of `g` and a transpose. */
  predicate IsTranspose(g: Objects, q: OpId) {
    q in g.opAt && g.opAt[q].kind.Transpose?
  }

  /** From `s` to `r` the scan only made allowed changes: the objects evolve,
      the tensor list only loses tensors, and the queue only gains
      transposes. */
  predicate Progress(s: Scan, r: Scan) {
    && Evolves(s.g, r.g)
    && Elems(r.tensors) <= Elems(s.tensors)
    && |s.queue| <= |r.queue| && r.queue[..|s.queue|] == s.queue
    && forall j :: |s.queue| <= j < |r.queue| ==> IsTranspose(s.g, r.queue[j])
  }

  /** From an empty queue, every queued op was a transpose. */
  lemma ProgressQueued(s: Scan, r: Scan)
    requires Progress(s, r) && s.queue == []
    ensures forall q :: q in r.queue ==> IsTranspose(s.g, q)
  {
    forall q | q in r.queue ensures IsTranspose(s.g, q) {
      var k :| 0 <= k < |r.queue| && r.queue[k] == q;
    }
  }

  lemma ProgressTrans(s1: Scan, s2: Scan, s3: Scan)
    requires Progress(s1, s2) && Progress(s2, s3)
    ensures Progress(s1, s3)
  {
    EvolvesTrans(s1.g, s2.g, s3.g);
    forall j | |s1.queue| <= j < |s3.queue| ensures IsTranspose(s1.g, s3.queue[j]) {
      if j < |s2.queue| {
        assert s3.queue[j] == s3.queue[..|s2.queue|][j] == s2.queue[j];
      } else {
        var q := s3.queue[j];
        assert IsTranspose(s2.g, q);
        assert OpEvolves(s1.g.opAt[q], s2.g.opAt[q]);
      }
    }
  }

  // ---------------------------------------------------------------------
  // Both rules keep the graph's objects linked and evolving as allowed

  lemma BypassKeeps(g: Objects, p: OpId, from: TensorId, to: TensorId)
    ensures Evolves(g, Bypass(g, p, from, to))
    ensures Closed(g) && to in g.tensorAt ==> Closed(Bypass(g, p, from, to))
  {
    var g1 := RemoveTarget(g, to, p);
    RemoveTargetEvolves(g, to, p);
    RewireEvolves(g1, from, to, TargetsOf(g1, from));
    EvolvesTrans(g, g1, Bypass(g, p, from, to));
    if Closed(g) && to in g.tensorAt {
      assert from !in g1.tensorAt || TensorClosed(g1.opAt.Keys, g1.tensorAt[from]);
      RewireClosed(g1, from, to, TargetsOf(g1, from));
    }
  }

  lemma DetachKeeps(g: Objects, o: OpId, p: OpId, pp: Option<OpId>)
    ensures Evolves(g, Detach(g, o, p, pp))
    ensures Closed(g) ==> Closed(Detach(g, o, p, pp))
  {
    var g1 := if pp.Some? then RemoveSuccessor(g, pp.value, p) else g;
    if pp.Some? {
      RemoveSuccessorEvolves(g, pp.value, p);
    }
    var posts := if o in g1.opAt then g1.opAt[o].succs else [];
    UnlinkEvolves(g1, o, posts, pp);
    EvolvesTrans(g, g1, Detach(g, o, p, pp));
    if Closed(g) {
      assert o in g1.opAt ==> OpClosed(g1.opAt.Keys, g1.tensorAt.Keys, g1.opAt[o]);
      UnlinkClosed(g1, o, posts, pp);
    }
  }

  lemma RefoldKeeps(g: Objects, o: OpId, p: OpId, pp: Option<OpId>)
    ensures Evolves(g, Refold(g, o, p, pp))
    ensures Closed(g) && o in g.opAt ==> Closed(Refold(g, o, p, pp))
  {
    var g1 := if pp.Some? then AddSuccessor(RemoveSuccessor(g, pp.value, p), pp.value, o) else g;
    if pp.Some? {
      RemoveSuccessorEvolves(g, pp.value, p);
      AddSuccessorEvolves(RemoveSuccessor(g, pp.value, p), pp.value, o);
      EvolvesTrans(g, RemoveSuccessor(g, pp.value, p), g1);
    }
    RemovePredecessorEvolves(g1, o, p);
    EvolvesTrans(g, g1, Refold(g, o, p, pp));
  }

  lemma Rule1ObjectsKeep(s: Scan, o: OpId)
    requires Rule1Applies(s.g, o)
    ensures Evolves(s.g, Rule1(s, o).g)
    ensures Closed(s.g) ==> Closed(Rule1(s, o).g)
  {
    var op := s.g.opAt[o];
    var p := op.preds[0];
    var pre := s.g.opAt[p];
    var g2 := Bypass(s.g, p, op.outputs[0], pre.inputs[0]);
    assert Closed(s.g) ==> pre.inputs[0] in s.g.tensorAt by {
      if Closed(s.g) {
        assert OpClosed(s.g.opAt.Keys, s.g.tensorAt.Keys, pre);
      }
    }
    BypassKeeps(s.g, p, op.outputs[0], pre.inputs[0]);
    DetachKeeps(g2, o, p, PrePre(pre));
    assert Rule1(s, o).g == Detach(g2, o, p, PrePre(pre));
    EvolvesTrans(s.g, g2, Rule1(s, o).g);
  }

  lemma ProgressBy(s: Scan, r: Scan, added: seq<OpId>)
    requires Evolves(s.g, r.g) && Elems(r.tensors) <= Elems(s.tensors)
    requires r.queue == s.queue + added && forall q :: q in added ==> IsTranspose(s.g, q)
    ensures Progress(s, r)
  {
    assert r.queue[..|s.queue|] == s.queue;
    forall j | |s.queue| <= j < |r.queue| ensures IsTranspose(s.g, r.queue[j]) {
      assert r.queue[j] == added[j - |s.queue|];
    }
  }

  lemma ProgressRefl(s: Scan)
    ensures Progress(s, s)
  {
    assert s.queue[..|s.queue|] == s.queue;
  }

  /** Rule 1 makes only allowed changes and leaves no link dangling. */
  lemma Rule1Keeps(s: Scan, o: OpId)
    requires Closed(s.g)
    ensures Progress(s, Rule1(s, o)) && Closed(Rule1(s, o).g)
  {
    if Rule1Applies(s.g, o) {
      Rule1ObjectsKeep(s, o);
      var p := s.g.opAt[o].preds[0];
      var r := Rule1(s, o);
      var t1 := RemoveAll(s.tensors, s.g.opAt[o].outputs[0]);
      ElemsRemoveAll(s.tensors, s.g.opAt[o].outputs[0]);
      forall x ensures Elems(RemoveAll(t1, x)) <= Elems(s.tensors) {
        ElemsRemoveAll(t1, x);
      }
      ProgressBy(s, r, [p, o]);
    } else {
      ProgressRefl(s);
    }
  }

  lemma Rule2ObjectsKeep(s: Scan, o: OpId, i: nat)
    requires Rule2Applies(s.g, o, i)
    ensures Evolves(s.g, Rule2(s, o, i).g)
    ensures Closed(s.g) ==> Closed(Rule2(s, o, i).g)
  {
    var input := s.g.opAt[o].inputs[i];
    var p := SourceOf(s.g, input).value;
    var pre := s.g.opAt[p];
    var g0 := ToggleTrans(s.g, o, i);
    ToggleTransEvolves(s.g, o, i);
    assert Closed(g0) ==> pre.inputs[0] in g0.tensorAt by {
      if Closed(g0) {
        assert OpClosed(g0.opAt.Keys, g0.tensorAt.Keys, pre);
      }
    }
    var g1 := Bypass(g0, p, input, pre.inputs[0]);
    BypassKeeps(g0, p, input, pre.inputs[0]);
    RefoldKeeps(g1, o, p, PrePre(pre));
    assert Rule2(s, o, i).g == Refold(g1, o, p, PrePre(pre));
    EvolvesTrans(s.g, g0, g1);
    EvolvesTrans(s.g, g1, Rule2(s, o, i).g);
  }

  /** Rule 2 makes only allowed changes and leaves no link dangling. */
  lemma Rule2Keeps(s: Scan, o: OpId, i: nat)
    requires Closed(s.g)
    ensures Progress(s, Rule2(s, o, i)) && Closed(Rule2(s, o, i).g)
  {
    if Rule2Applies(s.g, o, i) {
      Rule2ObjectsKeep(s, o, i);
      var p := SourceOf(s.g, s.g.opAt[o].inputs[i]).value;
      ElemsRemoveAll(s.tensors, s.g.opAt[p].outputs[0]);
      ProgressBy(s, Rule2(s, o, i), [p]);
    } else {
      ProgressRefl(s);
    }
  }

  lemma VisitKeeps(s: Scan, o: OpId)
    requires Closed(s.g)
    ensures Progress(s, Visit(s, o)) && Closed(Visit(s, o).g)
  {
    var s1 := Rule1(s, o);
    Rule1Keeps(s, o);
    var s2 := Rule2(s1, o, 0);
    Rule2Keeps(s1, o, 0);
    Rule2Keeps(s2, o, 1);
    ProgressTrans(s, s1, s2);
    ProgressTrans(s, s2, Visit(s, o));
  }

  /** The whole scan makes only allowed changes and leaves no link dangling:
      objects evolve, tensors are only dropped, only transposes are queued. */
  lemma {:induction false} ScanKeeps(s: Scan, os: seq<OpId>)
    requires Closed(s.g)
    ensures Progress(s, ScanOps(s, os)) && Closed(ScanOps(s, os).g)
    decreases |os|
  {
    if os == [] {
      assert s.queue[..|s.queue|] == s.queue;
    } else {
      var front := ScanOps(s, os[..|os| - 1]);
      ScanKeeps(s, os[..|os| - 1]);
      VisitKeeps(front, os[|os| - 1]);
      ProgressTrans(s, front, ScanOps(s, os));
    }
  }

  /** The scan from an empty queue over a graph with no dangling link and
      the arities the rules read: the outcome has them too, its objects
      evolved from the start, its tensors are among the start's, and it
      queued only transposes. */
  lemma ScanOutcome(s: Scan, os: seq<OpId>)
    requires Closed(s.g) && Shaped(s.g) && TransposeChainsAgree(s.g) && s.queue == []
    ensures var r := ScanOps(s, os);
      && Evolves(s.g, r.g) && Closed(r.g) && Shaped(r.g) && TransposeChainsAgree(r.g)
      && Elems(r.tensors) <= Elems(s.tensors)
      && forall q :: q in r.queue ==> IsTranspose(s.g, q)
  {
    var r := ScanOps(s, os);
    ScanKeeps(s, os);
    EvolvesKeepsShape(s.g, r.g);
    ProgressQueued(s, r);
  }

  // ---------------------------------------------------------------------
  // When they fire, and what they do

  /** In a graph whose links point at existing objects and whose ops have the
      arities they need, the assertion of invalid_trans always holds, and
      Rule 1 fires exactly when `o` has one predecessor, both are
      transposes, and their permutations cancel. */
  lemma Rule1Guard(g: Objects, o: OpId)
    requires Closed(g) && Shaped(g) && TransposeChainsAgree(g) && o in g.opAt
    ensures var op := g.opAt[o];
      |op.preds| == 1 && op.preds[0] in g.opAt && op.kind.Transpose? && g.opAt[op.preds[0]].kind.Transpose? ==>
        && |op.kind.perm| == |g.opAt[op.preds[0]].kind.perm|
        && InRange(op.kind.perm, |g.opAt[op.preds[0]].kind.perm|)
        && (Rule1Applies(g, o) <==> ComposesToIdentity(op.kind.perm, g.opAt[op.preds[0]].kind.perm))
    ensures var op := g.opAt[o];
      Rule1Applies(g, o) ==> |op.preds| == 1 && op.kind.Transpose? && g.opAt[op.preds[0]].kind.Transpose?
  {
    var op := g.opAt[o];
    if |op.preds| == 1 && op.preds[0] in g.opAt && op.kind.Transpose? && g.opAt[op.preds[0]].kind.Transpose? {
      var pre := g.opAt[op.preds[0]];
      assert OpShaped(op) && OpShaped(pre);
      assert op.preds[0] in op.preds;
    }
  }

  /** In such a graph, Rule 2 fires on input `i` of `o` exactly when `o` is a
      MatMul whose input `i` is produced by a transpose of the last two axes
      with a single successor. */
  lemma Rule2Guard(g: Objects, o: OpId, i: nat)
    requires Closed(g) && Shaped(g) && o in g.opAt && i < 2
    ensures var op := g.opAt[o];
      Rule2Applies(g, o, i) <==>
        && op.kind.MatMul?
        && SourceOf(g, op.inputs[i]).Some?
        && var pre := g.opAt[SourceOf(g, op.inputs[i]).value];
           pre.kind.Transpose? && |pre.succs| == 1 && IsLastTwoSwap(pre.kind.perm)
  {
    var op := g.opAt[o];
    assert OpShaped(op);
    if op.kind.MatMul? && SourceOf(g, op.inputs[i]).Some? {
      var t := op.inputs[i];
      assert OpClosed(g.opAt.Keys, g.tensorAt.Keys, op);
      assert TensorClosed(g.opAt.Keys, g.tensorAt[t]);
      assert OpShaped(g.opAt[SourceOf(g, t).value]);
    }
  }

  lemma BypassTensorAt(g: Objects, p: OpId, from: TensorId, to: TensorId, x: TensorId)
    requires x in g.tensorAt
    ensures var g1 := RemoveTarget(g, to, p);
      Bypass(g, p, from, to).tensorAt[x] == RewiredTensor(g1.tensorAt[x], x, to, TargetsOf(g1, from))
  {
    var g1 := RemoveTarget(g, to, p);
    RewireTensorAt(g1, from, to, TargetsOf(g1, from), x);
  }

  lemma DetachOpAt(g: Objects, o: OpId, p: OpId, pp: Option<OpId>, x: OpId)
    requires x in g.opAt && o in g.opAt
    ensures var g1 := if pp.Some? then RemoveSuccessor(g, pp.value, p) else g;
      Detach(g, o, p, pp).opAt[x] == Unlinked(g1.opAt[x], x, o, g1.opAt[o].succs, pp)
  {
    var g1 := if pp.Some? then RemoveSuccessor(g, pp.value, p) else g;
    UnlinkAt(g1, o, g1.opAt[o].succs, pp, x);
  }

  lemma DetachKeepsTensors(g: Objects, o: OpId, p: OpId, pp: Option<OpId>)
    ensures Detach(g, o, p, pp).tensorAt == g.tensorAt
  {
    var g1 := if pp.Some? then RemoveSuccessor(g, pp.value, p) else g;
    UnlinkKeepsTensors(g1, o, if o in g1.opAt then g1.opAt[o].succs else [], pp);
  }

  /** None of the links Rule 1 reads on `o` loops back: `pre`'s input is not
      `o`'s output, `o` does not read its own output, and `o` is not the
      predecessor of `pre`. In an acyclic graph this always holds. */
  predicate Rule1Plain(g: Objects, o: OpId)
    requires Rule1Applies(g, o)
  {
    var op := g.opAt[o];
    var pre := g.opAt[op.preds[0]];
    && pre.inputs[0] != op.outputs[0]
    && o !in TargetsOf(g, op.outputs[0])
    && PrePre(pre) != Some(o)
  }

  /** Rule 1 rewires: every consumer of `o`'s output reads `pre`'s input in
      its place. */
  lemma Rule1Rewires(s: Scan, o: OpId)
    requires Rule1Applies(s.g, o) && Rule1Plain(s.g, o)
    ensures var op := s.g.opAt[o];
            var input, output := s.g.opAt[op.preds[0]].inputs[0], op.outputs[0];
            var r := Rule1(s, o);
      forall c :: c in TargetsOf(s.g, output) && c in s.g.opAt ==>
        r.g.opAt[c].inputs == ReplaceAll(s.g.opAt[c].inputs, output, input)
  {
    var op := s.g.opAt[o];
    var p := op.preds[0];
    var pre := s.g.opAt[p];
    var input, output := pre.inputs[0], op.outputs[0];
    var g2 := Bypass(s.g, p, output, input);
    var r := Rule1(s, o);
    assert r.g == Detach(g2, o, p, PrePre(pre));
    assert TargetsOf(RemoveTarget(s.g, input, p), output) == TargetsOf(s.g, output);
    forall c | c in TargetsOf(s.g, output) && c in s.g.opAt
      ensures r.g.opAt[c].inputs == ReplaceAll(s.g.opAt[c].inputs, output, input)
    {
      BypassOpAt(s.g, p, output, input, c);
      DetachOpAt(g2, o, p, PrePre(pre), c);
    }
  }

  /** Rule 1 retargets `pre`'s input: `pre` leaves its targets and the
      consumers of `o`'s output join them. */
  lemma Rule1Retargets(s: Scan, o: OpId)
    requires Closed(s.g) && Rule1Applies(s.g, o) && Rule1Plain(s.g, o)
    ensures var op := s.g.opAt[o];
            var p := op.preds[0];
            var input, output := s.g.opAt[p].inputs[0], op.outputs[0];
      TargetsOf(Rule1(s, o).g, input) == RemoveAll(TargetsOf(s.g, input), p) + TargetsOf(s.g, output)
  {
    var op := s.g.opAt[o];
    var p := op.preds[0];
    var pre := s.g.opAt[p];
    var input, output := pre.inputs[0], op.outputs[0];
    var g2 := Bypass(s.g, p, output, input);
    assert Rule1(s, o).g == Detach(g2, o, p, PrePre(pre));
    assert TargetsOf(RemoveTarget(s.g, input, p), output) == TargetsOf(s.g, output);
    assert OpClosed(s.g.opAt.Keys, s.g.tensorAt.Keys, pre);
    BypassTensorAt(s.g, p, output, input, input);
    DetachKeepsTensors(g2, o, p, PrePre(pre));
  }

  /** Rule 1 unlinks: the successors of `o` no longer have `o` as a
      predecessor, and the predecessor of `pre`, when it is the only one, has
      `pre` replaced by them among its successors. */
  lemma Rule1Unlinks(s: Scan, o: OpId)
    requires Rule1Applies(s.g, o) && Rule1Plain(s.g, o)
    ensures var op := s.g.opAt[o];
            var p := op.preds[0];
            var pp := PrePre(s.g.opAt[p]);
            var r := Rule1(s, o);
      && (forall post :: post in op.succs && post in s.g.opAt ==> o !in r.g.opAt[post].preds)
      && (pp.Some? && pp.value in s.g.opAt ==>
            r.g.opAt[pp.value].succs == RemoveAll(s.g.opAt[pp.value].succs, p) + op.succs)
  {
    var op := s.g.opAt[o];
    var p := op.preds[0];
    var pre := s.g.opAt[p];
    var pp := PrePre(pre);
    var input, output := pre.inputs[0], op.outputs[0];
    var g2 := Bypass(s.g, p, output, input);
    var r := Rule1(s, o);
    assert r.g == Detach(g2, o, p, pp);
    var g3 := if pp.Some? then RemoveSuccessor(g2, pp.value, p) else g2;
    BypassOpAt(s.g, p, output, input, o);
    assert g3.opAt[o].succs == op.succs;
    forall post | post in op.succs && post in s.g.opAt ensures o !in r.g.opAt[post].preds {
      DetachOpAt(g2, o, p, pp, post);
    }
    if pp.Some? && pp.value in s.g.opAt {
      BypassOpAt(s.g, p, output, input, pp.value);
      DetachOpAt(g2, o, p, pp, pp.value);
    }
  }

  /** Rule 1 drops `o`'s output and `o`'s input (the output of `pre`) from
      the tensor list, and queues `pre` and `o`. */
  lemma Rule1Drops(s: Scan, o: OpId)
    requires Rule1Applies(s.g, o) && Rule1Plain(s.g, o)
    ensures var op := s.g.opAt[o];
            var r := Rule1(s, o);
      && r.queue == s.queue + [op.preds[0], o]
      && Elems(r.tensors) == Elems(s.tensors) - {op.outputs[0], op.inputs[0]}
  {
    var op := s.g.opAt[o];
    var p := op.preds[0];
    var pre := s.g.opAt[p];
    var input, output := pre.inputs[0], op.outputs[0];
    BypassOpAt(s.g, p, output, input, o);
    var mid := Bypass(s.g, p, output, input).opAt[o].inputs[0];
    assert TargetsOf(RemoveTarget(s.g, input, p), output) == TargetsOf(s.g, output);
    assert mid == op.inputs[0];
    ElemsRemoveAll(s.tensors, output);
    ElemsRemoveAll(RemoveAll(s.tensors, output), mid);
  }

  /** None of the links Rule 2 reads loops back: `pre` does not read its own
      output and the MatMul is not the predecessor of `pre`. */
  predicate Rule2Plain(g: Objects, o: OpId, i: nat)
    requires Rule2Applies(g, o, i)
  {
    var input := g.opAt[o].inputs[i];
    var pre := g.opAt[SourceOf(g, input).value];
    pre.inputs[0] != input && PrePre(pre) != Some(o)
  }

  lemma RefoldKeepsCore(g: Objects, o: OpId, p: OpId, pp: Option<OpId>, x: OpId)
    requires x in g.opAt
    ensures Core(Refold(g, o, p, pp).opAt[x]) == Core(g.opAt[x])
  {
  }

  lemma RefoldKeepsTensors(g: Objects, o: OpId, p: OpId, pp: Option<OpId>)
    ensures Refold(g, o, p, pp).tensorAt == g.tensorAt
  {
  }

  /** Rule 2 toggles the flag of input `i` of the MatMul and no other. */
  lemma Rule2Toggles(s: Scan, o: OpId, i: nat)
    requires Rule2Applies(s.g, o, i) && i < 2
    ensures var k := s.g.opAt[o].kind;
            var rk := Rule2(s, o, i).g.opAt[o].kind;
      && rk.MatMul?
      && rk.transA == (if i == 0 then !k.transA else k.transA)
      && rk.transB == (if i == 1 then !k.transB else k.transB)
  {
    var input := s.g.opAt[o].inputs[i];
    var p := SourceOf(s.g, input).value;
    var pre := s.g.opAt[p];
    var g0 := ToggleTrans(s.g, o, i);
    var g1 := Bypass(g0, p, input, pre.inputs[0]);
    assert Rule2(s, o, i).g == Refold(g1, o, p, PrePre(pre));
    BypassOpAt(g0, p, input, pre.inputs[0], o);
    RefoldKeepsCore(g1, o, p, PrePre(pre), o);
    assert Core(Rule2(s, o, i).g.opAt[o]).kind == g0.opAt[o].kind;
  }

  /** Rule 2 drops `pre`'s output from the tensor list and queues `pre`. */
  lemma Rule2Drops(s: Scan, o: OpId, i: nat)
    requires Rule2Applies(s.g, o, i)
    ensures var p := SourceOf(s.g, s.g.opAt[o].inputs[i]).value;
            var r := Rule2(s, o, i);
      && r.queue == s.queue + [p]
      && Elems(r.tensors) == Elems(s.tensors) - {s.g.opAt[p].outputs[0]}
  {
    var p := SourceOf(s.g, s.g.opAt[o].inputs[i]).value;
    ElemsRemoveAll(s.tensors, s.g.opAt[p].outputs[0]);
  }

  /** Rule 2 rewires: every consumer of the MatMul's input `i` reads `pre`'s
      input in its place; in particular the MatMul itself does, at `i`. */
  lemma Rule2Rewires(s: Scan, o: OpId, i: nat)
    requires Rule2Applies(s.g, o, i) && Rule2Plain(s.g, o, i)
    ensures var input := s.g.opAt[o].inputs[i];
            var pre := s.g.opAt[SourceOf(s.g, input).value];
            var r := Rule2(s, o, i);
      && (forall c :: c in TargetsOf(s.g, input) && c in s.g.opAt ==>
            r.g.opAt[c].inputs == ReplaceAll(s.g.opAt[c].inputs, input, pre.inputs[0]))
      && (o in TargetsOf(s.g, input) ==> r.g.opAt[o].inputs[i] == pre.inputs[0])
  {
    var input := s.g.opAt[o].inputs[i];
    var p := SourceOf(s.g, input).value;
    var pre := s.g.opAt[p];
    var g0 := ToggleTrans(s.g, o, i);
    var g1 := Bypass(g0, p, input, pre.inputs[0]);
    var r := Rule2(s, o, i);
    assert r.g == Refold(g1, o, p, PrePre(pre));
    assert g0.tensorAt == s.g.tensorAt;
    assert TargetsOf(RemoveTarget(g0, pre.inputs[0], p), input) == TargetsOf(s.g, input);
    forall c | c in TargetsOf(s.g, input) && c in s.g.opAt
      ensures r.g.opAt[c].inputs == ReplaceAll(s.g.opAt[c].inputs, input, pre.inputs[0])
    {
      BypassOpAt(g0, p, input, pre.inputs[0], c);
      RefoldKeepsCore(g1, o, p, PrePre(pre), c);
      assert Core(r.g.opAt[c]).inputs == g1.opAt[c].inputs;
    }
  }

  /** Rule 2 retargets `pre`'s input: `pre` leaves its targets and the
      consumers of the MatMul's input join them. */
  lemma Rule2Retargets(s: Scan, o: OpId, i: nat)
    requires Closed(s.g) && Rule2Applies(s.g, o, i) && Rule2Plain(s.g, o, i)
    ensures var input := s.g.opAt[o].inputs[i];
            var p := SourceOf(s.g, input).value;
            var input0 := s.g.opAt[p].inputs[0];
      TargetsOf(Rule2(s, o, i).g, input0) == RemoveAll(TargetsOf(s.g, input0), p) + TargetsOf(s.g, input)
  {
    var input := s.g.opAt[o].inputs[i];
    var p := SourceOf(s.g, input).value;
    var pre := s.g.opAt[p];
    var input0 := pre.inputs[0];
    var g0 := ToggleTrans(s.g, o, i);
    var g1 := Bypass(g0, p, input, input0);
    var r := Rule2(s, o, i);
    assert r.g == Refold(g1, o, p, PrePre(pre));
    RefoldKeepsTensors(g1, o, p, PrePre(pre));
    assert g0.tensorAt == s.g.tensorAt;
    assert OpClosed(s.g.opAt.Keys, s.g.tensorAt.Keys, pre);
    assert TargetsOf(RemoveTarget(g0, input0, p), input) == TargetsOf(s.g, input);
    BypassTensorAt(g0, p, input, input0, input0);
  }

  /** Rule 2 refolds the links: the MatMul loses `pre` as a predecessor, and
      the predecessor of `pre`, when it is the only one, has `pre` replaced by
      the MatMul among its successors. */
  lemma Rule2Refolds(s: Scan, o: OpId, i: nat)
    requires Rule2Applies(s.g, o, i) && Rule2Plain(s.g, o, i)
    ensures var p := SourceOf(s.g, s.g.opAt[o].inputs[i]).value;
            var pp := PrePre(s.g.opAt[p]);
            var r := Rule2(s, o, i);
      && r.g.opAt[o].preds == RemoveAll(s.g.opAt[o].preds, p)
      && (pp.Some? && pp.value in s.g.opAt ==>
            r.g.opAt[pp.value].succs == RemoveAll(s.g.opAt[pp.value].succs, p) + [o])
  {
    var input := s.g.opAt[o].inputs[i];
    var p := SourceOf(s.g, input).value;
    var pre := s.g.opAt[p];
    var pp := PrePre(pre);
    var g0 := ToggleTrans(s.g, o, i);
    var g1 := Bypass(g0, p, input, pre.inputs[0]);
    assert Rule2(s, o, i).g == Refold(g1, o, p, pp);
    BypassOpAt(g0, p, input, pre.inputs[0], o);
    if pp.Some? && pp.value in s.g.opAt {
      BypassOpAt(g0, p, input, pre.inputs[0], pp.value);
    }
  }
}
