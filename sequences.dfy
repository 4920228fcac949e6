/** Sequence and set helpers: the semantics given to the vector helpers of the
    graph (append, remove every occurrence, replace every occurrence) and the
    cardinality facts the topological sort needs. */
module Sequences {

  /** No element occurs twice. */
  predicate Distinct<T(==)>(s: seq<T>) {
    forall i, j :: 0 <= i < j < |s| ==> s[i] != s[j]
  }

  /** The elements of a sequence, as a set. */
  function Elems<T>(s: seq<T>): set<T> {
    set x | x in s
  }

  /** Erases every occurrence of `x`, keeping the order of the rest. */
  function RemoveAll<T(==,!new)>(s: seq<T>, x: T): (r: seq<T>)
    ensures forall y :: y in r <==> y in s && y != x
    ensures |r| <= |s|
  {
    if s == [] then []
    else if s[0] == x then RemoveAll(s[1..], x)
    else [s[0]] + RemoveAll(s[1..], x)
  }

  /** Erases every element that belongs to `xs`, keeping the order of the rest. */
  function RemoveEach<T(==,!new)>(s: seq<T>, xs: set<T>): (r: seq<T>)
    ensures forall y :: y in r <==> y in s && y !in xs
  {
    if s == [] then []
    else if s[0] in xs then RemoveEach(s[1..], xs)
    else [s[0]] + RemoveEach(s[1..], xs)
  }

  /** Replaces every occurrence of `x` by `y`. */
  function ReplaceAll<T(==)>(s: seq<T>, x: T, y: T): seq<T> {
    seq(|s|, i requires 0 <= i < |s| => if s[i] == x then y else s[i])
  }

  /** Erasing the elements of a set one at a time erases them all. */
  lemma {:induction false} RemoveAllThenEach<T(!new)>(s: seq<T>, xs: set<T>, x: T)
    ensures RemoveAll(RemoveEach(s, xs), x) == RemoveEach(s, xs + {x})
  {
    if s != [] {
      RemoveAllThenEach(s[1..], xs, x);
    }
  }

  /** Removing no element keeps the sequence. */
  lemma {:induction false} RemoveEachNothing<T(!new)>(s: seq<T>)
    ensures RemoveEach(s, {}) == s
  {
    if s != [] {
      RemoveEachNothing(s[1..]);
    }
  }

  lemma {:induction false} ElemsCons<T>(s: seq<T>)
    requires s != []
    ensures Elems(s) == {s[0]} + Elems(s[1..])
  {
    assert s == [s[0]] + s[1..];
  }

  /** A sequence has at least as many positions as elements, exactly as many iff
      no element repeats. */
  lemma {:induction false} ElemsCard<T>(s: seq<T>)
    ensures |Elems(s)| <= |s|
    ensures |Elems(s)| == |s| <==> Distinct(s)
  {
    if s != [] {
      ElemsCons(s);
      ElemsCard(s[1..]);
      if s[0] in s[1..] {
        assert Elems(s) == Elems(s[1..]);
        var j :| 0 <= j < |s[1..]| && s[1..][j] == s[0];
        assert s[0] == s[j + 1];
      } else {
        assert Elems(s) == Elems(s[1..]) + {s[0]};
        if Distinct(s[1..]) {
          assert Distinct(s);
        } else {
          var i, j :| 0 <= i < j < |s[1..]| && s[1..][i] == s[1..][j];
          assert s[i + 1] == s[j + 1];
        }
      }
    }
  }

  /** A subset has no more elements than its superset. */
  lemma {:induction false} SubsetCard<T>(a: set<T>, b: set<T>)
    requires a <= b
    ensures |a| <= |b|
    decreases a
  {
    if a != {} {
      var x :| x in a;
      SubsetCard(a - {x}, b - {x});
    }
  }

  /** A subset with as many elements as its superset is the superset. */
  lemma SubsetFull<T>(a: set<T>, b: set<T>)
    requires a <= b && |a| >= |b|
    ensures a == b
  {
    if a != b {
      assert !(b <= a);
      var x :| x in b && x !in a;
      SubsetCard(a, b - {x});
    }
  }

  /** Replacing twice is replacing once. */
  lemma ReplaceAllTwice<T>(s: seq<T>, x: T, y: T)
    ensures ReplaceAll(ReplaceAll(s, x, y), x, y) == ReplaceAll(s, x, y)
  {
  }

  /** Erasing twice is erasing once. */
  lemma {:induction false} RemoveAllTwice<T(!new)>(s: seq<T>, x: T)
    ensures RemoveAll(RemoveAll(s, x), x) == RemoveAll(s, x)
  {
    if s != [] {
      RemoveAllTwice(s[1..], x);
    }
  }

  lemma ElemsRemoveAll<T(!new)>(s: seq<T>, x: T)
    ensures Elems(RemoveAll(s, x)) == Elems(s) - {x}
  {
  }

  /** In a sequence without repeats every element occurs exactly once. */
  lemma {:induction false} DistinctOccursOnce<T>(s: seq<T>, x: T)
    requires Distinct(s)
    ensures multiset(s)[x] == if x in s then 1 else 0
  {
    if s != [] {
      assert s == [s[0]] + s[1..];
      assert Distinct(s[1..]) by {
        forall i, j | 0 <= i < j < |s[1..]| ensures s[1..][i] != s[1..][j] {
          assert s[1..][i] == s[i + 1] && s[1..][j] == s[j + 1];
        }
      }
      DistinctOccursOnce(s[1..], x);
      if s[0] == x {
        forall j | 0 <= j < |s[1..]| ensures s[1..][j] != x {
          assert s[1..][j] == s[j + 1];
        }
      }
    }
  }

  /** Two sequences without repeats and with the same elements are
      permutations of each other. */
  lemma SameElemsPermutation<T>(a: seq<T>, b: seq<T>)
    requires Distinct(a) && Distinct(b) && Elems(a) == Elems(b)
    ensures multiset(a) == multiset(b)
  {
    forall x ensures multiset(a)[x] == multiset(b)[x] {
      DistinctOccursOnce(a, x);
      DistinctOccursOnce(b, x);
      assert x in a <==> x in Elems(a);
      assert x in b <==> x in Elems(b);
    }
  }
}
