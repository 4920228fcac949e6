/** The ordering of `topo_sort` in src/core/graph.cc: repeated passes over the
    op list, each placing, in list order, every op not yet placed whose inputs
    all come from placed ops or from no op. */
module TopoOrder {
  import opened Sequences
  import opened GraphObjects

  /** Every input of `o` has no source or a source among `placed`. */
  predicate Ready(g: Objects, placed: set<OpId>, o: OpId) {
    o in g.opAt &&
    forall t :: t in g.opAt[o].inputs ==> SourceOf(g, t).None? || SourceOf(g, t).value in placed
  }

  /** Every op of `q` comes after the producers of its inputs. */
  predicate Topological(g: Objects, q: seq<OpId>) {
    forall i :: 0 <= i < |q| ==> Ready(g, Elems(q[..i]), q[i])
  }

  /** `q` lists the ops of `ops`, each once. */
  predicate IsOrderOf(q: seq<OpId>, ops: seq<OpId>) {
    Distinct(q) && multiset(q) == multiset(ops)
  }

  lemma ReadyGrows(g: Objects, a: set<OpId>, b: set<OpId>, o: OpId)
    requires Ready(g, a, o) && a <= b
    ensures Ready(g, b, o)
  {
  }

  /** Appending an op whose producers are all placed keeps the order
      topological. */
  lemma TopologicalSnoc(g: Objects, q: seq<OpId>, o: OpId)
    requires Topological(g, q) && Ready(g, Elems(q), o)
    ensures Topological(g, q + [o])
  {
    var q' := q + [o];
    forall i | 0 <= i < |q'| ensures Ready(g, Elems(q'[..i]), q'[i]) {
      if i < |q| {
        assert q'[..i] == q[..i];
      } else {
        assert q'[..i] == q;
      }
    }
  }

  /** A prefix of a topological order is one. */
  lemma TopologicalPrefix(g: Objects, q: seq<OpId>, n: nat)
    requires Topological(g, q) && n <= |q|
    ensures Topological(g, q[..n])
  {
    forall i | 0 <= i < n ensures Ready(g, Elems(q[..n][..i]), q[..n][i]) {
      assert q[..n][..i] == q[..i];
    }
  }

  /** When no unplaced op of `ops` is ready, a topological order made of ops
      of `ops` holds only placed ops. */
  lemma {:induction false} StuckKeepsOut(g: Objects, ops: seq<OpId>, placed: set<OpId>, q: seq<OpId>)
    requires forall o :: o in ops && o !in placed ==> !Ready(g, placed, o)
    requires Topological(g, q) && Elems(q) <= Elems(ops)
    ensures Elems(q) <= placed
    decreases |q|
  {
    if q != [] {
      var n := |q| - 1;
      TopologicalPrefix(g, q, n);
      assert Elems(q[..n]) <= Elems(q);
      StuckKeepsOut(g, ops, placed, q[..n]);
      assert Ready(g, Elems(q[..n]), q[n]);
      ReadyGrows(g, Elems(q[..n]), placed, q[n]);
      assert q == q[..n] + [q[n]];
    }
  }

  /** A pass that places nothing before all ops are placed proves that no
      order of the ops is topological. */
  lemma StuckHasNoOrder(g: Objects, ops: seq<OpId>, sorted: seq<OpId>)
    requires Distinct(sorted) && |sorted| < |ops|
    requires forall o :: o in ops && o !in Elems(sorted) ==> !Ready(g, Elems(sorted), o)
    ensures forall q :: IsOrderOf(q, ops) ==> !Topological(g, q)
  {
    forall q: seq<OpId> | IsOrderOf(q, ops) ensures !Topological(g, q) {
      StuckAt(g, ops, sorted, q);
    }
  }

  /** An order of `ops` lists the same ops. */
  lemma OrderElems(q: seq<OpId>, ops: seq<OpId>)
    requires IsOrderOf(q, ops)
    ensures Elems(q) == Elems(ops)
  {
    forall x ensures x in q <==> x in ops {
      assert x in q <==> multiset(q)[x] > 0;
      assert x in ops <==> multiset(ops)[x] > 0;
    }
  }

  lemma StuckAt(g: Objects, ops: seq<OpId>, sorted: seq<OpId>, q: seq<OpId>)
    requires Distinct(sorted) && |sorted| < |ops|
    requires forall o :: o in ops && o !in Elems(sorted) ==> !Ready(g, Elems(sorted), o)
    requires IsOrderOf(q, ops)
    ensures !Topological(g, q)
  {
    OrderElems(q, ops);
    assert |q| == |multiset(q)| == |multiset(ops)| == |ops|;
    ElemsCard(q);
    ElemsCard(sorted);
    if Topological(g, q) {
      StuckKeepsOut(g, ops, Elems(sorted), q);
      SubsetCard(Elems(q), Elems(sorted));
    }
  }

  /** Distinct elements of `ops` are no more than `ops` has positions, and as
      many only when they are all of them and `ops` has no repeats. */
  lemma PlacedWithin(sorted: seq<OpId>, ops: seq<OpId>)
    requires Distinct(sorted) && Elems(sorted) <= Elems(ops)
    ensures |sorted| <= |ops|
    ensures |sorted| == |ops| ==> IsOrderOf(sorted, ops)
  {
    ElemsCard(sorted);
    ElemsCard(ops);
    SubsetCard(Elems(sorted), Elems(ops));
    if |sorted| == |ops| {
      SubsetFull(Elems(sorted), Elems(ops));
      SameElemsPermutation(sorted, ops);
    }
  }

  /** The passes of `topo_sort` over `ops`. On success `sorted` lists every op
      once, after the producers of its inputs; on failure no such order
      exists. Either way at most `|ops|` passes run. */
  method SortOps(g: Objects, ops: seq<OpId>) returns (ok: bool, sorted: seq<OpId>, ghost passes: nat)
    ensures ok ==> IsOrderOf(sorted, ops) && Topological(g, sorted)
    ensures !ok ==> forall q :: IsOrderOf(q, ops) ==> !Topological(g, q)
    ensures passes <= |ops|
  {
    sorted := [];
    passes := 0;
    var flags: set<OpId> := {};
    while |sorted| < |ops|
      invariant Distinct(sorted) && Elems(sorted) == flags && flags <= Elems(ops)
      invariant Topological(g, sorted)
      invariant passes <= |sorted| <= |ops|
      decreases |ops| - |sorted|
    {
      passes := passes + 1;
      var modified := false;
      ghost var before := sorted;
      for j := 0 to |ops|
        invariant Distinct(sorted) && Elems(sorted) == flags && flags <= Elems(ops)
        invariant Topological(g, sorted)
        invariant modified ==> |sorted| > |before|
        invariant !modified ==> sorted == before
        invariant !modified ==> forall k :: 0 <= k < j ==> ops[k] in flags || !Ready(g, flags, ops[k])
      {
        var op := ops[j];
        if op !in flags && Ready(g, flags, op) {
          TopologicalSnoc(g, sorted, op);
          assert Distinct(sorted + [op]);
          modified := true;
          sorted := sorted + [op];
          flags := flags + {op};
        }
      }
      if !modified {
        StuckHasNoOrder(g, ops, sorted);
        return false, sorted, passes;
      }
      PlacedWithin(sorted, ops);
    }
    PlacedWithin(sorted, ops);
    return true, sorted, passes;
  }
}
