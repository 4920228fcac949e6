/** The computation graph of src/core/graph.cc: its op and tensor lists, the
    objects they name, the `sorted` flag and the arena allocator, with the
    operations that wire ops in, order them, rewrite transposes away and bind
    tensors to memory. */
module Graphs {
  import opened Wrappers
  import opened Sequences
  import opened Permutations
  import opened GraphObjects
  import opened Rewrites
  import opened TopoOrder
  import opened Layout
  import opened Validity
  import Allocation

  /** Why `dataMalloc` stops: the ops have no topological order, the arena has
      already handed out its buffer, or no free block is large enough. */
  datatype MallocError = Cyclic | PlanningOver | NoFreeBlock

  /** The summing loop of `dataMalloc`: the sizes of the tensors of `ts`. */
  method TotalBytes(g: Objects, ts: seq<TensorId>) returns (total: nat)
    requires forall t :: t in ts ==> t in g.tensorAt
    ensures total == Bytes(g, ts)
  {
    total := 0;
    for i := 0 to |ts|
      invariant total == Bytes(g, ts[..i])
    {
      total := total + g.tensorAt[ts[i]].bytes;
      assert ts[..i + 1][..i] == ts[..i];
    }
    assert ts[..|ts|] == ts;
  }

  /** The binding loop of `dataMalloc`: each tensor of `ts`, in order, is
      bound to the arena's buffer at the offset where the tensors before it
      end, counting from `start`; the buffer is requested before each
      binding. */
  method BindTensors(g0: Objects, ts: seq<TensorId>, arena: Allocation.Allocator, provided: nat, start: nat)
    returns (g: Objects)
    requires arena.ptr == None && forall t :: t in ts ==> t in g0.tensorAt
    modifies arena
    ensures g == Bind(g0, ts, provided, start)
    ensures arena.freeBlocks == old(arena.freeBlocks) && arena.used == old(arena.used) && arena.peak == old(arena.peak)
    ensures ts != [] ==> arena.ptr == Some(Allocation.Buffer(provided, arena.peak))
    ensures ts == [] ==> arena.ptr == None
  {
    g := g0;
    var addr := start;
    for i := 0 to |ts|
      invariant g == Bind(g0, ts[..i], provided, start)
      invariant addr == Offset(g0, ts, start, i)
      invariant arena.freeBlocks == old(arena.freeBlocks) && arena.used == old(arena.used) && arena.peak == old(arena.peak)
      invariant i == 0 ==> arena.ptr == None
      invariant i > 0 ==> arena.ptr == Some(Allocation.Buffer(provided, arena.peak))
    {
      var b := arena.GetPtr(provided);
      var t := ts[i];
      g := SetBlob(g, t, Blob(b.handle, addr));
      BindSnoc(g0, ts, provided, start, i);
      Contiguous(g0, ts, start, i);
      addr := addr + g0.tensorAt[t].bytes;
    }
    assert ts[..|ts|] == ts;
  }

  class Graph {
    var ops: seq<OpId>
    var tensors: seq<TensorId>
    var objs: Objects
    var sorted: bool
    const allocator: Allocation.Allocator

    /** The lists name existing objects, and every link of every object points
        at an existing object. */
    predicate Valid()
      reads this
    {
      && (forall o :: o in ops ==> o in objs.opAt)
      && (forall t :: t in tensors ==> t in objs.tensorAt)
      && Closed(objs)
    }

    /** `checkValid`: the graph's own lists are closed under every link, each
        tensor is used, and fuids are unique. */
    predicate CheckValid()
      reads this
    {
      WellFormed(objs, ops, tensors)
    }

    /** An empty graph over an arena whose free map starts as `initial`. */
    constructor (initial: Allocation.Blocks)
      ensures ops == [] && tensors == [] && objs == Objects(map[], map[]) && !sorted
      ensures fresh(allocator)
      ensures allocator.freeBlocks == initial && allocator.used == 0 && allocator.peak == 0
      ensures allocator.ptr == None
      ensures Valid() && CheckValid()
    {
      ops := [];
      tensors := [];
      objs := Objects(map[], map[]);
      sorted := false;
      allocator := new Allocation.Allocator(initial);
    }

    /** `addTensor`: a new tensor with no links and no memory, appended to the
        tensor list. */
    method AddTensor(id: TensorId, fuid: nat, bytes: nat)
      requires id !in objs.tensorAt
      modifies this
      ensures objs == old(objs).(tensorAt := old(objs).tensorAt[id := Tensor(fuid, bytes, None, [], None)])
      ensures tensors == old(tensors) + [id] && ops == old(ops) && sorted == old(sorted)
      ensures old(Valid()) ==> Valid()
    {
      objs := objs.(tensorAt := objs.tensorAt[id := Tensor(fuid, bytes, None, [], None)]);
      tensors := tensors + [id];
    }

    /** `addOperatorAndConnect`: `op` is appended to the op list, becomes a
        target of each input and the source of each output, and is linked to
        the producers of its inputs and the consumers of its outputs. The
        order is no longer known to be topological. */
    method AddOperatorAndConnect(id: OpId, op: Op)
      requires id !in objs.opAt
      modifies this
      ensures objs == Connect(old(objs), id, op)
      ensures ops == old(ops) + [id] && tensors == old(tensors) && !sorted
      ensures old(Valid())
              && (forall t :: t in op.inputs ==> t in old(objs).tensorAt)
              && (forall t :: t in op.outputs ==> t in old(objs).tensorAt)
              && op.preds == [] && op.succs == []
              ==> Valid()
      ensures old(CheckValid())
              && (forall t :: t in op.inputs ==> t in old(tensors))
              && (forall t :: t in op.outputs ==> t in old(tensors))
              && op.preds == [] && op.succs == []
              ==> CheckValid()
    {
      ghost var g, os, ts := objs, ops, tensors;
      ghost var wasValid, wasChecked := Valid(), CheckValid();
      sorted := false;
      ops := ops + [id];
      objs := objs.(opAt := objs.opAt[id := op]);
      WireInputs(id, op.inputs);
      WireOutputs(id, op.outputs);
      if wasValid
         && (forall t :: t in op.inputs ==> t in g.tensorAt)
         && (forall t :: t in op.outputs ==> t in g.tensorAt)
         && op.preds == [] && op.succs == [] {
        ConnectKeepsClosed(g, id, op);
      }
      if wasChecked
         && (forall t :: t in op.inputs ==> t in ts)
         && (forall t :: t in op.outputs ==> t in ts)
         && op.preds == [] && op.succs == [] {
        ConnectKeepsWellFormed(g, os, ts, id, op);
      }
    }

    /** The input loop of `addOperatorAndConnect`. */
    method WireInputs(id: OpId, xs: seq<TensorId>)
      modifies this
      ensures objs == ConnectInputs(old(objs), id, xs)
      ensures ops == old(ops) && tensors == old(tensors) && sorted == old(sorted)
    {
      ghost var g0 := objs;
      for k := 0 to |xs|
        invariant objs == ConnectInputs(g0, id, xs[..k])
        invariant ops == old(ops) && tensors == old(tensors) && sorted == old(sorted)
      {
        var t := xs[k];
        objs := AddTarget(objs, t, id);
        var src := SourceOf(objs, t);
        if src.Some? {
          objs := AddSuccessor(objs, src.value, id);
          objs := AddPredecessor(objs, id, src.value);
        }
        assert xs[..k + 1][..k] == xs[..k];
      }
      assert xs[..|xs|] == xs;
    }

    /** The output loop of `addOperatorAndConnect`. */
    method WireOutputs(id: OpId, xs: seq<TensorId>)
      modifies this
      ensures objs == ConnectOutputs(old(objs), id, xs)
      ensures ops == old(ops) && tensors == old(tensors) && sorted == old(sorted)
    {
      ghost var g0 := objs;
      for k := 0 to |xs|
        invariant objs == ConnectOutputs(g0, id, xs[..k])
        invariant ops == old(ops) && tensors == old(tensors) && sorted == old(sorted)
      {
        var t := xs[k];
        objs := SetSource(objs, t, id);
        LinkConsumersOf(id, TargetsOf(objs, t));
        assert xs[..k + 1][..k] == xs[..k];
      }
      assert xs[..|xs|] == xs;
    }

    /** The consumer loop of one output. */
    method LinkConsumersOf(id: OpId, ss: seq<OpId>)
      modifies this
      ensures objs == LinkConsumers(old(objs), id, ss)
      ensures ops == old(ops) && tensors == old(tensors) && sorted == old(sorted)
    {
      ghost var g0 := objs;
      for m := 0 to |ss|
        invariant objs == LinkConsumers(g0, id, ss[..m])
        invariant ops == old(ops) && tensors == old(tensors) && sorted == old(sorted)
      {
        objs := AddPredecessor(objs, ss[m], id);
        objs := AddSuccessor(objs, id, ss[m]);
        assert ss[..m + 1][..m] == ss[..m];
      }
      assert ss[..|ss|] == ss;
    }

    /** `topo_sort`: nothing to do when the order is known to be topological;
        otherwise the passes of SortOps, whose order replaces the op list on
        success. On failure nothing changes and no topological order of the
        ops exists. */
    method TopoSort() returns (ok: bool)
      modifies this
      ensures objs == old(objs) && tensors == old(tensors)
      ensures old(sorted) ==> ok && ops == old(ops) && sorted
      ensures !old(sorted) && ok ==> sorted && IsOrderOf(ops, old(ops)) && Topological(objs, ops)
      ensures !ok ==> && ops == old(ops) && sorted == old(sorted)
                      && forall q :: IsOrderOf(q, old(ops)) ==> !Topological(objs, q)
      ensures Elems(ops) == Elems(old(ops))
      ensures old(Valid()) ==> Valid()
      ensures old(CheckValid()) ==> CheckValid()
    {
      if sorted {
        return true;
      }
      var order;
      ghost var passes;
      ok, order, passes := SortOps(objs, ops);
      if ok {
        OrderElems(order, ops);
        if CheckValid() {
          WellFormedReordered(objs, ops, order, tensors);
        }
        ops := order;
        sorted := true;
      }
    }

    /** `getTensor`: the first tensor of the list with the given fuid, or none
        when no tensor of the list has it. Nothing changes. */
    method GetTensor(fuid: nat) returns (r: Option<TensorId>)
      requires forall t :: t in tensors ==> t in objs.tensorAt
      ensures r.Some? ==> exists i :: && 0 <= i < |tensors| && tensors[i] == r.value
                                      && objs.tensorAt[tensors[i]].fuid == fuid
                                      && forall j :: 0 <= j < i ==> objs.tensorAt[tensors[j]].fuid != fuid
      ensures r.None? ==> forall t :: t in tensors ==> objs.tensorAt[t].fuid != fuid
    {
      for i := 0 to |tensors|
        invariant forall j :: 0 <= j < i ==> objs.tensorAt[tensors[j]].fuid != fuid
      {
        if objs.tensorAt[tensors[i]].fuid == fuid {
          return Some(tensors[i]);
        }
      }
      return None;
    }

    /** `dataMalloc`: the ops are sorted first (failing when no order exists);
        then one first-fit block of the tensors' total size is taken from the
        arena, and each tensor, in list order, is bound to the arena's buffer
        at the offset where the tensors before it end. The buffer is requested
        when the first tensor is bound. */
    method DataMalloc(provided: nat) returns (r: Result<nat, MallocError>)
      requires Valid()
      modifies this, allocator
      ensures Valid() && tensors == old(tensors)
      ensures r == Err(Cyclic) ==> && !old(sorted) && ops == old(ops) && objs == old(objs)
                                   && forall q :: IsOrderOf(q, old(ops)) ==> !Topological(old(objs), q)
      ensures r != Err(Cyclic) ==> && sorted && (old(sorted) ==> ops == old(ops))
                                   && (!old(sorted) ==> IsOrderOf(ops, old(ops)) && Topological(old(objs), ops))
      ensures r == Err(PlanningOver) ==> old(allocator.ptr).Some? && objs == old(objs)
      ensures r.Err? ==> && objs == old(objs) && allocator.ptr == old(allocator.ptr)
                         && allocator.freeBlocks == old(allocator.freeBlocks) && allocator.used == old(allocator.used)
      ensures r == Err(NoFreeBlock) ==> && old(allocator.ptr) == None
                                        && Allocation.NoFit(old(allocator.freeBlocks), Allocation.AlignedSize(Bytes(old(objs), tensors)))
      ensures r.Ok? ==> var size := Allocation.AlignedSize(Bytes(old(objs), tensors));
                        && old(allocator.ptr) == None
                        && Allocation.AllocatedAt(old(allocator.freeBlocks), old(allocator.used), old(allocator.peak), size, r.value,
                                                  allocator.freeBlocks, allocator.used, allocator.peak)
                        && (tensors != [] ==> allocator.ptr == Some(Allocation.Buffer(provided, allocator.peak)))
                        && (tensors == [] ==> allocator.ptr == None)
                        && objs == Bind(old(objs), tensors, provided, r.value)
      ensures old(allocator.Valid()) ==> allocator.Valid()
    {
      var ok := TopoSort();
      if !ok {
        return Err(Cyclic);
      }
      r := Place(provided);
    }

    /** The planning half of `dataMalloc`, on the sorted graph: one first-fit
        block of the tensors' total size, then the binding loop. Only the
        objects and the arena change. */
    method Place(provided: nat) returns (r: Result<nat, MallocError>)
      requires Valid()
      modifies this, allocator
      ensures Valid() && ops == old(ops) && tensors == old(tensors) && sorted == old(sorted)
      ensures r != Err(Cyclic)
      ensures r == Err(PlanningOver) ==> old(allocator.ptr).Some?
      ensures r.Err? ==> && objs == old(objs) && allocator.ptr == old(allocator.ptr)
                         && allocator.freeBlocks == old(allocator.freeBlocks) && allocator.used == old(allocator.used)
      ensures r == Err(NoFreeBlock) ==> && old(allocator.ptr) == None
                                        && Allocation.NoFit(old(allocator.freeBlocks), Allocation.AlignedSize(Bytes(old(objs), tensors)))
      ensures r.Ok? ==> var size := Allocation.AlignedSize(Bytes(old(objs), tensors));
                        && old(allocator.ptr) == None
                        && Allocation.AllocatedAt(old(allocator.freeBlocks), old(allocator.used), old(allocator.peak), size, r.value,
                                                  allocator.freeBlocks, allocator.used, allocator.peak)
                        && (tensors != [] ==> allocator.ptr == Some(Allocation.Buffer(provided, allocator.peak)))
                        && (tensors == [] ==> allocator.ptr == None)
                        && objs == Bind(old(objs), tensors, provided, r.value)
      ensures old(allocator.Valid()) ==> allocator.Valid()
    {
      var total := TotalBytes(objs, tensors);
      if allocator.ptr != None {
        return Err(PlanningOver);
      }
      ghost var size := Allocation.AlignedSize(total);
      assert size == Allocation.AlignedSize(Bytes(old(objs), tensors));
      var a := allocator.Alloc(total);
      if a.Err? {
        return Err(NoFreeBlock);
      }
      assert Allocation.AllocatedAt(old(allocator.freeBlocks), old(allocator.used), old(allocator.peak), size, a.value,
                                    allocator.freeBlocks, allocator.used, allocator.peak);
      ghost var g0 := objs;
      assert Closed(g0);
      objs := BindTensors(objs, tensors, allocator, provided, a.value);
      assert SameKeys(g0, objs);
      r := Ok(a.value);
    }

    /** `optimize`: once the ops are sorted, one scan over them applies Rule 1
        and then, on a MatMul, Rule 2 to each of its two inputs; the ops the
        rules queued are then removed from the op list. The scan ends in the
        state ScanOps describes; every queued op was a transpose, the objects
        only evolve as the rules allow, and the tensor list only shrinks. When
        the ops have no topological order nothing changes. */
    method Optimize() returns (ok: bool, ghost order: seq<OpId>, ghost queue: seq<OpId>)
      requires Valid() && Shaped(objs) && TransposeChainsAgree(objs)
      modifies this
      ensures Valid()
      ensures !ok ==> && ops == old(ops) && objs == old(objs) && tensors == old(tensors) && sorted == old(sorted)
                      && forall q :: IsOrderOf(q, old(ops)) ==> !Topological(old(objs), q)
      ensures ok ==> && sorted
                     && (old(sorted) ==> order == old(ops))
                     && (!old(sorted) ==> IsOrderOf(order, old(ops)) && Topological(old(objs), order))
      ensures ok ==> && ScanOps(Scan(old(objs), old(tensors), []), order) == Scan(objs, tensors, queue)
                     && ops == RemoveEach(order, Elems(queue))
      ensures ok ==> && Evolves(old(objs), objs) && Shaped(objs) && TransposeChainsAgree(objs)
                     && Elems(tensors) <= Elems(old(tensors))
                     && forall q :: q in queue ==> IsTranspose(old(objs), q)
    {
      ok := TopoSort();
      if !ok {
        return false, [], [];
      }
      order := ops;
      ghost var s0 := Scan(objs, tensors, []);
      assert s0 == Scan(old(objs), old(tensors), []);
      assert forall o :: o in order ==> o in s0.g.opAt;
      assert forall t :: t in s0.tensors ==> t in s0.g.tensorAt;
      var removeOps := ScanAll();
      ghost var r := ScanOps(s0, order);
      assert r == Scan(objs, tensors, removeOps);
      ScanOutcome(s0, order);
      assert SameKeys(s0.g, objs) && Closed(objs);
      forall t | t in tensors ensures t in objs.tensorAt {
        assert t in Elems(tensors);
        assert t in s0.tensors;
      }
      queue := removeOps;
      RemoveQueued(order, removeOps);
      assert forall o :: o in ops ==> o in objs.opAt by {
        assert forall o :: o in ops ==> o in order;
      }
    }

    /** The scan loop of `optimize`, over the op list in order. */
    method ScanAll() returns (queue: seq<OpId>)
      requires Valid() && Shaped(objs) && TransposeChainsAgree(objs)
      modifies this
      ensures ops == old(ops) && sorted == old(sorted)
      ensures Scan(objs, tensors, queue) == ScanOps(Scan(old(objs), old(tensors), []), ops)
    {
      ghost var s0 := Scan(objs, tensors, []);
      ghost var keys := objs.opAt.Keys;
      queue := [];
      for j := 0 to |ops|
        invariant ops == old(ops) && sorted == old(sorted)
        invariant Scan(objs, tensors, queue) == ScanOps(s0, ops[..j])
      {
        ScanKeeps(s0, ops[..j]);
        EvolvesKeepsShape(s0.g, objs);
        assert ops[j] in keys;
        queue := VisitStep(ops[j], queue);
        assert ops[..j + 1][..j] == ops[..j];
      }
      assert ops[..|ops|] == ops;
    }

    /** The removal loop of `optimize`. */
    method RemoveQueued(ghost order: seq<OpId>, removeOps: seq<OpId>)
      requires ops == order
      modifies this
      ensures ops == RemoveEach(order, Elems(removeOps))
      ensures objs == old(objs) && tensors == old(tensors) && sorted == old(sorted)
    {
      RemoveEachNothing(order);
      assert Elems(removeOps[..0]) == {};
      for k := 0 to |removeOps|
        invariant ops == RemoveEach(order, Elems(removeOps[..k]))
        invariant objs == old(objs) && tensors == old(tensors) && sorted == old(sorted)
      {
        RemoveAllThenEach(order, Elems(removeOps[..k]), removeOps[k]);
        ops := RemoveAll(ops, removeOps[k]);
        assert Elems(removeOps[..k + 1]) == Elems(removeOps[..k]) + {removeOps[k]};
      }
      assert removeOps[..|removeOps|] == removeOps;
    }

    /** One iteration of the scan of `optimize` on `o`: Rule 1, then, when `o`
        is a MatMul, Rule 2 on input 0 and on input 1. */
    method VisitStep(o: OpId, queue: seq<OpId>) returns (queue': seq<OpId>)
      requires o in objs.opAt && Closed(objs) && Shaped(objs) && TransposeChainsAgree(objs)
      modifies this
      ensures Scan(objs, tensors, queue') == Visit(Scan(old(objs), old(tensors), queue), o)
      ensures ops == old(ops) && sorted == old(sorted)
    {
      ghost var s := Scan(objs, tensors, queue);
      queue' := Rule1Step(o, queue);
      ghost var s1 := Scan(objs, tensors, queue');
      Rule1Keeps(s, o);
      EvolvesKeepsShape(s.g, objs);
      if objs.opAt[o].kind.MatMul? {
        for i := 0 to 2
          invariant ops == old(ops) && sorted == old(sorted)
          invariant Scan(objs, tensors, queue') == (if i == 0 then s1 else if i == 1 then Rule2(s1, o, 0) else Rule2(Rule2(s1, o, 0), o, 1))
          invariant o in objs.opAt && objs.opAt[o].kind.MatMul? && Closed(objs) && Shaped(objs)
        {
          ghost var before := Scan(objs, tensors, queue');
          queue' := Rule2Step(o, i, queue');
          Rule2Keeps(before, o, i);
          EvolvesKeepsShape(before.g, objs);
          assert OpEvolves(before.g.opAt[o], objs.opAt[o]);
        }
      }
    }

    /** Rule 1 of `optimize` on `o`, as the scan applies it. */
    method Rule1Step(o: OpId, queue: seq<OpId>) returns (queue': seq<OpId>)
      requires o in objs.opAt && Closed(objs) && Shaped(objs) && TransposeChainsAgree(objs)
      modifies this
      ensures Scan(objs, tensors, queue') == Rule1(Scan(old(objs), old(tensors), queue), o)
      ensures ops == old(ops) && sorted == old(sorted)
    {
      queue' := queue;
      var op := objs.opAt[o];
      if |op.preds| != 1 {
        return;
      }
      var p := op.preds[0];
      assert OpClosed(objs.opAt.Keys, objs.tensorAt.Keys, op) && p in op.preds;
      var pre := objs.opAt[p];
      if !pre.kind.Transpose? || !op.kind.Transpose? {
        return;
      }
      Rule1Guard(objs, o);
      var cancels := InvalidTrans(op.kind.perm, pre.kind.perm);
      if !cancels {
        return;
      }
      queue' := CancelTransposes(o, queue);
    }

    /** The rewrite of Rule 1, once it fires on `o`. */
    method CancelTransposes(o: OpId, queue: seq<OpId>) returns (queue': seq<OpId>)
      requires Rule1Applies(objs, o)
      modifies this
      ensures Scan(objs, tensors, queue') == Rule1(Scan(old(objs), old(tensors), queue), o)
      ensures ops == old(ops) && sorted == old(sorted)
    {
      ghost var g := objs;
      var op := objs.opAt[o];
      var p := op.preds[0];
      var pre := objs.opAt[p];
      var input, output := pre.inputs[0], op.outputs[0];
      objs := RemoveTarget(objs, input, p);
      RewireConsumers(output, input);
      BypassOpAt(g, p, output, input, o);
      tensors := RemoveAll(tensors, output);
      tensors := RemoveAll(tensors, objs.opAt[o].inputs[0]);
      var prePre: Option<OpId> := None;
      if |pre.preds| == 1 {
        prePre := Some(pre.preds[0]);
        objs := RemoveSuccessor(objs, prePre.value, p);
      }
      UnlinkSuccessors(o, objs.opAt[o].succs, prePre);
      queue' := queue + [p, o];
    }

    /** Rule 2 of `optimize` on input `i` of the MatMul `o`, as the scan
        applies it. */
    method Rule2Step(o: OpId, i: nat, queue: seq<OpId>) returns (queue': seq<OpId>)
      requires o in objs.opAt && objs.opAt[o].kind.MatMul? && i < 2 && Closed(objs) && Shaped(objs)
      modifies this
      ensures Scan(objs, tensors, queue') == Rule2(Scan(old(objs), old(tensors), queue), o, i)
      ensures ops == old(ops) && sorted == old(sorted)
    {
      queue' := queue;
      Rule2Guard(objs, o, i);
      assert OpShaped(objs.opAt[o]);
      var input := objs.opAt[o].inputs[i];
      var src := SourceOf(objs, input);
      if src.None? {
        return;
      }
      var p := src.value;
      assert OpClosed(objs.opAt.Keys, objs.tensorAt.Keys, objs.opAt[o]) && input in objs.opAt[o].inputs;
      assert TensorClosed(objs.opAt.Keys, objs.tensorAt[input]);
      var pre := objs.opAt[p];
      if !pre.kind.Transpose? || |pre.succs| != 1 {
        return;
      }
      var swaps := Last2Permute(pre.kind.perm);
      if !swaps {
        return;
      }
      queue' := FoldTranspose(o, i, queue);
    }

    /** The rewrite of Rule 2, once it fires on input `i` of `o`. */
    method FoldTranspose(o: OpId, i: nat, queue: seq<OpId>) returns (queue': seq<OpId>)
      requires Rule2Applies(objs, o, i)
      modifies this
      ensures Scan(objs, tensors, queue') == Rule2(Scan(old(objs), old(tensors), queue), o, i)
      ensures ops == old(ops) && sorted == old(sorted)
    {
      var input := objs.opAt[o].inputs[i];
      var p := SourceOf(objs, input).value;
      var pre := objs.opAt[p];
      objs := ToggleTrans(objs, o, i);
      var input0 := pre.inputs[0];
      objs := RemoveTarget(objs, input0, p);
      RewireConsumers(input, input0);
      tensors := RemoveAll(tensors, pre.outputs[0]);
      if |pre.preds| == 1 {
        objs := RemoveSuccessor(objs, pre.preds[0], p);
        objs := AddSuccessor(objs, pre.preds[0], o);
      }
      objs := RemovePredecessor(objs, o, p);
      queue' := queue + [p];
    }

    /** The consumers of `from` read `to` instead and become its targets. */
    method RewireConsumers(from: TensorId, to: TensorId)
      modifies this
      ensures objs == Rewire(old(objs), from, to, TargetsOf(old(objs), from))
      ensures ops == old(ops) && tensors == old(tensors) && sorted == old(sorted)
    {
      var cs := TargetsOf(objs, from);
      ghost var g0 := objs;
      for k := 0 to |cs|
        invariant objs == Rewire(g0, from, to, cs[..k])
        invariant ops == old(ops) && tensors == old(tensors) && sorted == old(sorted)
      {
        objs := ReplaceInput(objs, cs[k], from, to);
        objs := AddTarget(objs, to, cs[k]);
        assert cs[..k + 1][..k] == cs[..k];
      }
      assert cs[..|cs|] == cs;
    }

    /** The successors `posts` of `o` lose `o` and, when there is one, become
        successors of `prePre`. */
    method UnlinkSuccessors(o: OpId, posts: seq<OpId>, prePre: Option<OpId>)
      modifies this
      ensures objs == Unlink(old(objs), o, posts, prePre)
      ensures ops == old(ops) && tensors == old(tensors) && sorted == old(sorted)
    {
      ghost var g0 := objs;
      for k := 0 to |posts|
        invariant objs == Unlink(g0, o, posts[..k], prePre)
        invariant ops == old(ops) && tensors == old(tensors) && sorted == old(sorted)
      {
        objs := RemovePredecessor(objs, posts[k], o);
        if prePre.Some? {
          objs := AddSuccessor(objs, prePre.value, posts[k]);
        }
        assert posts[..k + 1][..k] == posts[..k];
      }
      assert posts[..|posts|] == posts;
    }
  }

  /** Two transposes by [1, 0] in a row, X0 -> pre -> X1 -> o -> X2, with
      no consumer of X2: op 0 is `pre`, op 1 is `o`, tensor i is Xi. */
  const ChainPre: Op := Op(Transpose([1, 0]), [0], [1], [], [1])
  const ChainPost: Op := Op(Transpose([1, 0]), [1], [2], [0], [])
  const CancellingChain: Objects :=
    Objects(map[0 := ChainPre, 1 := ChainPost],
            map[0 := Tensor(0, 16, None, [0], None),
                1 := Tensor(1, 16, Some(0), [1], None),
                2 := Tensor(2, 16, Some(1), [], None)])

  /** The chain meets what `optimize` asks of its objects. */
  lemma CancellingChainShaped()
    ensures Closed(CancellingChain) && Shaped(CancellingChain) && TransposeChainsAgree(CancellingChain)
  {
    var g := CancellingChain;
    assert g.opAt.Keys == {0, 1} && g.tensorAt.Keys == {0, 1, 2};
    forall o | o in g.opAt ensures OpClosed(g.opAt.Keys, g.tensorAt.Keys, g.opAt[o]) && OpShaped(g.opAt[o]) {
      assert g.opAt[o] == ChainPre || g.opAt[o] == ChainPost;
    }
  }

  /** The chain passes `checkValid`. */
  lemma CancellingChainChecks()
    ensures WellFormed(CancellingChain, [0, 1], [0, 1, 2])
  {
    var g := CancellingChain;
    var os, ts := {0, 1}, {0, 1, 2};
    assert Elems([0, 1]) == os && Elems([0, 1, 2]) == ts;
    forall o | o in [0, 1] ensures o in g.opAt && OpClosed(os, ts, g.opAt[o]) {
      assert g.opAt[o] == ChainPre || g.opAt[o] == ChainPost;
    }
    forall t | t in [0, 1, 2]
      ensures && t in g.tensorAt && (g.tensorAt[t].targets != [] || g.tensorAt[t].source.Some?)
              && TensorClosed(os, g.tensorAt[t])
    {
      assert t == 0 || t == 1 || t == 2;
    }
    forall i, j | 0 <= i < j < 3 ensures g.tensorAt[[0, 1, 2][i]].fuid != g.tensorAt[[0, 1, 2][j]].fuid {
      assert [0, 1, 2][i] == i && [0, 1, 2][j] == j;
    }
  }

  /** On the chain, the scan does nothing at `pre` and applies Rule 1 at `o`. */
  lemma CancellingChainScan()
    ensures var s := Scan(CancellingChain, [0, 1, 2], []);
            && Rule1Applies(s.g, 1) && Rule1Plain(s.g, 1)
            && ScanOps(s, [0, 1]) == Rule1(s, 1)
  {
    var g := CancellingChain;
    var s := Scan(g, [0, 1, 2], []);
    assert ScanOps(s, [0, 1]) == Visit(Visit(s, 0), 1) by {
      assert [0, 1][..1] == [0] && [0][..0] == [];
    }
    assert Visit(s, 0) == s by {
      assert !Rule1Applies(g, 0) && !Rule2Applies(g, 0, 0) && !Rule2Applies(g, 0, 1);
    }
    assert ComposesToIdentity([1, 0], [1, 0]);
    assert Rule1Applies(g, 1) && Rule1Plain(g, 1);
    CancellingChainShaped();
    var r := Rule1(s, 1);
    Rule1Keeps(s, 1);
    assert OpEvolves(g.opAt[1], r.g.opAt[1]);
  }

  /** `optimize` does not keep `checkValid`: the chain passes it, the scan
      removes both transposes, and X0 stays in the tensor list with no source
      and no target left. */
  lemma OptimizeCanBreakCheckValid()
    ensures var r := ScanOps(Scan(CancellingChain, [0, 1, 2], []), [0, 1]);
            && r.queue == [0, 1]
            && !WellFormed(r.g, RemoveEach([0, 1], Elems(r.queue)), r.tensors)
  {
    var s := Scan(CancellingChain, [0, 1, 2], []);
    CancellingChainShaped();
    CancellingChainScan();
    var r := Rule1(s, 1);
    Rule1Keeps(s, 1);
    Rule1Drops(s, 1);
    Rule1Retargets(s, 1);
    assert 0 in Elems(r.tensors);
    assert TensorEvolves(s.g.tensorAt[0], r.g.tensorAt[0]);
    assert TargetsOf(r.g, 0) == [] && r.g.tensorAt[0].source == None;
  }
}
