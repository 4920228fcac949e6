/** The arena allocator of src/core/allocator.cc: a planning-phase byte-range
    arena over an address-ordered free map, and a one-shot materialisation of
    one backing buffer of `peak` bytes. */
module Allocation {
  import opened Wrappers

  /** `alignment` is sizeof(uint64_t), the widest supported element type. */
  const Alignment: nat := 8

  /** The range of size_t. */
  const SizeRange: int := 0x1_0000_0000_0000_0000

  /** Reduction modulo 2^64: what size_t arithmetic keeps of an integer. */
  function Wrap(x: int): (r: nat)
    ensures r < SizeRange
  {
    x % SizeRange
  }

  /** A value already in the size_t range is its own reduction. */
  lemma WrapInRange(x: int)
    requires 0 <= x < SizeRange
    ensures Wrap(x) == x
  {
  }

  function Max(a: int, b: int): int {
    if a >= b then a else b
  }

  /** getAlignedSize: `size` rounded up to a multiple of the alignment. For size 0
      the size_t expression wraps twice, (0 - 1) / 8 + 1 being 2^61, and gives 0. */
  function AlignedSize(size: nat): (r: nat)
    ensures r % Alignment == 0
    ensures size <= r < size + Alignment
  {
    if size == 0 then 0
    else
      RoundUpBounds(size - 1);
      ((size - 1) / Alignment + 1) * Alignment
  }

  lemma RoundUpBounds(n: nat)
    ensures var r := (n / Alignment + 1) * Alignment;
      r % Alignment == 0 && n < r <= n + Alignment
  {
    var q := n / Alignment;
    assert q * Alignment <= n < q * Alignment + Alignment;
    assert (q + 1) * Alignment == q * Alignment + Alignment;
  }

  /** No multiple of the alignment lies between `size` and its aligned size. */
  lemma AlignedSizeIsLeast(size: nat, q: nat)
    requires size <= q * Alignment
    ensures AlignedSize(size) <= q * Alignment
  {
  }

  /** The free map: block start address to block length, ordered by address. */
  type Blocks = map<nat, nat>

  predicate PositiveLengths(m: Blocks) {
    forall a :: a in m ==> m[a] > 0
  }

  /** No two free blocks share a byte. */
  predicate Disjoint(m: Blocks) {
    forall a, b :: a in m && b in m && a < b ==> a + m[a] <= b
  }

  /** No free block ends where another begins: `free` merges such neighbours
      into one block. */
  predicate Coalesced(m: Blocks) {
    forall a, b :: a in m && b in m ==> a + m[a] != b
  }

  /** The range [addr, addr + size) shares no byte with a free block: it is
      allocated, the only kind of range `free` is defined for. */
  predicate NotFree(m: Blocks, addr: nat, size: nat) {
    forall k :: k in m ==> k + m[k] <= addr || addr + size <= k
  }

  /** No free block starts below `addr`: `lower_bound(addr)` is the first block. */
  predicate NoBlockBelow(m: Blocks, addr: nat) {
    forall k :: k in m ==> addr <= k
  }

  /** `a` starts the lowest-addressed free block of at least `size` bytes. */
  predicate IsFirstFit(m: Blocks, size: nat, a: nat) {
    a in m && m[a] >= size && forall b :: b in m && b < a ==> m[b] < size
  }

  /** The arena after a successful `alloc` of `size` aligned bytes at `a`:
      the first fit is split, `used` grows by `size` modulo 2^64, and `peak`
      follows `used`. */
  predicate AllocatedAt(m0: Blocks, used0: nat, peak0: nat, size: nat, a: nat, m: Blocks, used: nat, peak: nat) {
    && IsFirstFit(m0, size, a)
    && m == SplitBlock(m0, a, size)
    && used == Wrap(used0 + size)
    && peak == Max(peak0, used)
  }

  /** No free block has `size` bytes. */
  predicate NoFit(m: Blocks, size: nat) {
    forall b :: b in m ==> m[b] < size
  }

  /** The free map after `alloc` took the low `size` bytes of block `a`: the block
      is erased and only its non-empty tail is put back. */
  function SplitBlock(m: Blocks, a: nat, size: nat): Blocks
    requires a in m && m[a] >= size
  {
    if m[a] - size > 0 then (m - {a})[a + size := m[a] - size] else m - {a}
  }

  /** Splitting keeps the free map a set of disjoint non-empty blocks and frees
      nothing inside the granted range. */
  lemma SplitBlockKeepsBlocks(m: Blocks, a: nat, size: nat)
    requires PositiveLengths(m) && Disjoint(m) && a in m && m[a] >= size
    ensures PositiveLengths(SplitBlock(m, a, size)) && Disjoint(SplitBlock(m, a, size))
    ensures NotFree(SplitBlock(m, a, size), a, size)
  {
    var r := SplitBlock(m, a, size);
    forall x, y | x in r && y in r && x < y ensures x + r[x] <= y {
      if m[a] - size > 0 && x == a + size {
        assert y in m && a < y;
      }
    }
  }

  /** Splitting a block leaves no two free blocks adjacent. */
  lemma SplitBlockKeepsCoalesced(m: Blocks, a: nat, size: nat)
    requires PositiveLengths(m) && Disjoint(m) && Coalesced(m) && a in m && m[a] >= size
    ensures Coalesced(SplitBlock(m, a, size))
  {
    var r := SplitBlock(m, a, size);
    var tail := a + size;
    forall x, y | x in r && y in r ensures x + r[x] != y {
      if m[a] - size > 0 && x == tail {
        if y != tail {
          assert y in m && a + m[a] != y;
        }
      } else if m[a] - size > 0 && y == tail {
        assert x in m && x != a;
        if x < a {
          assert x + m[x] <= a && x + m[x] != a;
        } else {
          assert a + m[a] <= x;
        }
      } else {
        assert x in m && y in m;
      }
    }
  }

  /** Strictly increasing sequences of addresses: the iteration order of the map. */
  predicate Increasing(ks: seq<nat>) {
    forall i, j :: 0 <= i < j < |ks| ==> ks[i] < ks[j]
  }

  lemma {:induction false} LeastElement(s: set<nat>) returns (k: nat)
    requires s != {}
    ensures k in s && forall j :: j in s ==> k <= j
    decreases s
  {
    var x :| x in s;
    if s == {x} {
      k := x;
    } else {
      var y := LeastElement(s - {x});
      k := if x < y then x else y;
      forall j | j in s ensures k <= j {
        if j != x { assert j in s - {x}; }
      }
    }
  }

  lemma MinExists(s: set<nat>)
    requires s != {}
    ensures exists k :: k in s && forall j :: j in s ==> k <= j
  {
    var k := LeastElement(s);
  }

  function MinKey(s: set<nat>): (k: nat)
    requires s != {}
    ensures k in s && forall j :: j in s ==> k <= j
  {
    MinExists(s);
    var k :| k in s && forall j :: j in s ==> k <= j; k
  }

  /** The start addresses of the free blocks, in the order a map iterator visits
      them. */
  function SortedKeys(s: set<nat>): (ks: seq<nat>)
    ensures Increasing(ks)
    ensures forall k :: k in ks <==> k in s
    ensures forall j :: 0 <= j < |ks| ==> ks[j] in s
    decreases s
  {
    if s == {} then []
    else
      var k := MinKey(s);
      [k] + SortedKeys(s - {k})
  }

  /** `lower_bound`: the index of the first address at or above `addr`. */
  function LowerBound(ks: seq<nat>, addr: nat): (i: nat)
    requires Increasing(ks)
    ensures i <= |ks|
    ensures forall j :: 0 <= j < i ==> ks[j] < addr
    ensures forall j :: i <= j < |ks| ==> addr <= ks[j]
  {
    LowerBoundFrom(ks, addr, 0)
  }

  /** The search of `lower_bound`, past the first `from` addresses. */
  function LowerBoundFrom(ks: seq<nat>, addr: nat, from: nat): (i: nat)
    requires Increasing(ks) && from <= |ks|
    requires forall j :: 0 <= j < from ==> ks[j] < addr
    ensures from <= i <= |ks|
    ensures forall j :: 0 <= j < i ==> ks[j] < addr
    ensures forall j :: i <= j < |ks| ==> addr <= ks[j]
    decreases |ks| - from
  {
    if from == |ks| || ks[from] >= addr then from else LowerBoundFrom(ks, addr, from + 1)
  }

  /** The merging loop of `free`: walks the blocks whose starts `ks` lists, in
      address order from index `i`, while they start at or below `limit`; each
      one is erased, its length added to `used`, and the merged end `rhs` widened
      to its end. Yields the merged end, the counter and the remaining map. */
  function Absorb(m: Blocks, ks: seq<nat>, i: nat, limit: nat, rhs: nat, used: int): (r: (nat, int, Blocks))
    requires Increasing(ks) && i <= |ks|
    requires forall j :: i <= j < |ks| ==> ks[j] in m
    ensures r.0 >= rhs
    decreases |ks| - i
  {
    if i == |ks| || ks[i] > limit then (rhs, used, m)
    else Absorb(m - {ks[i]}, ks, i + 1, limit, Max(ks[i] + m[ks[i]], rhs), used + m[ks[i]])
  }

  /** `ks` lists the free blocks in address order and `lb` is `lower_bound(addr)`. */
  predicate SplitAt(m: Blocks, ks: seq<nat>, lb: nat, addr: nat) {
    && Increasing(ks) && lb <= |ks|
    && (forall j :: 0 <= j < |ks| ==> ks[j] in m)
    && (forall k :: k in m ==> k in ks)
    && (forall j :: 0 <= j < lb ==> ks[j] < addr)
    && (forall j :: lb <= j < |ks| ==> addr <= ks[j])
  }

  lemma SortedKeysSplit(m: Blocks, addr: nat)
    ensures SplitAt(m, SortedKeys(m.Keys), LowerBound(SortedKeys(m.Keys), addr), addr)
  {
  }

  /** `free` of [addr, addr + size) (size already aligned) with the block before
      `lower_bound(addr)` taken as the left neighbour: yields the free map and
      the `used` counter. This is the corrected reading of line 67. `used` is a
      size_t: the loop's additions and the final subtraction are taken modulo
      2^64, which is the same as reducing the exact result once at the end. */
  function Release(m: Blocks, used: int, addr: nat, size: nat): (Blocks, int)
  {
    var ks := SortedKeys(m.Keys);
    SortedKeysSplit(m, addr);
    ReleaseFrom(m, ks, LowerBound(ks, addr), used, addr, size)
  }

  function ReleaseFrom(m: Blocks, ks: seq<nat>, lb: nat, used: int, addr: nat, size: nat): (Blocks, int)
    requires SplitAt(m, ks, lb, addr)
  {
    var limit := addr + size;
    if lb > 0 && ks[lb - 1] + m[ks[lb - 1]] >= addr then
      var p := ks[lb - 1];
      var r := Absorb(m - {p}, ks, lb, limit, limit, used + m[p]);
      (r.2[p := r.0 - p], Wrap(r.1 - (r.0 - p)))
    else
      var r := Absorb(m, ks, lb, limit, limit, used);
      (r.2[addr := r.0 - addr], Wrap(r.1 - (r.0 - addr)))
  }

  /** size_t subtraction `a - b` of two addresses: it wraps only when `b` exceeds
      `a`, since addresses themselves are unbounded here. */
  function SizeSub(a: nat, b: nat): (r: nat)
    ensures a >= b ==> r == a - b
    ensures a < b ==> r < SizeRange && (r - (a - b)) % SizeRange == 0
  {
    if a >= b then a - b else Wrap(a - b)
  }

  /** Some free block starts below `addr` and none at or above it: the iterator
      `lower_bound(addr)` is end() and differs from begin(). */
  predicate EndDereferenced(m: Blocks, addr: nat) {
    m != map[] && forall k :: k in m ==> k < addr
  }

  /** The address order `ks` once the block at index `i` is erased. */
  function Without(ks: seq<nat>, i: nat): (o: seq<nat>)
    requires Increasing(ks) && i < |ks|
    ensures |o| == |ks| - 1 && Increasing(o)
    ensures forall j :: 0 <= j < |o| ==> o[j] in ks && o[j] != ks[i]
  {
    seq(|ks| - 1, j requires 0 <= j < |ks| - 1 => if j < i then ks[j] else ks[j + 1])
  }

  /** `free` exactly as written: `auto jt = it--` leaves `jt` on the block at
      `lower_bound(addr)` and moves `it` onto the block before it. The test on
      `jt` always holds (it starts at or after `addr`), so `jt` is erased, its
      start becomes the merged block's start, and the loop then walks from the
      block before it, which it absorbs (it starts below `addr`). None stands
      for the dereference of end() when no block starts at or after `addr`. The
      block length `rhs - lhs` is a size_t difference. */
  function ReleaseAsWritten(m: Blocks, used: int, addr: nat, size: nat): Option<(Blocks, int)>
  {
    var ks := SortedKeys(m.Keys);
    SortedKeysSplit(m, addr);
    ReleaseAsWrittenFrom(m, ks, LowerBound(ks, addr), used, addr, size)
  }

  function ReleaseAsWrittenFrom(m: Blocks, ks: seq<nat>, lb: nat, used: int, addr: nat, size: nat)
    : Option<(Blocks, int)>
    requires SplitAt(m, ks, lb, addr)
  {
    if lb > 0 && lb == |ks| then None
    else
      var st := WalkStart(m, ks, lb, used, addr);
      Some(Insert(Absorb(st.0, st.1, st.2, addr + size, addr + size, st.3), st.4))
  }

  /** The last step of `free` as written: the merged block [lhs, rhs) is put
      back with its size_t length, which is taken off the size_t `used`. The
      loop's additions to `used` are kept exact and the whole sum is reduced
      modulo 2^64 here, which gives what the size_t operations give. */
  function Insert(r: (nat, int, Blocks), lhs: nat): (Blocks, nat) {
    (r.2[lhs := SizeSub(r.0, lhs)], Wrap(r.1 - SizeSub(r.0, lhs)))
  }

  /** The state in which `free` as written enters its merging loop: the free
      map, the address order the iterator follows, the loop's start index, the
      `used` counter and `lhs`. With a block below `addr`, `jt` (the block at
      `lower_bound(addr)`) has been erased and made `lhs`, and the iterator walks
      the remaining blocks in address order from the one before `jt`. */
  function WalkStart(m: Blocks, ks: seq<nat>, lb: nat, used: int, addr: nat): (st: (Blocks, seq<nat>, nat, int, nat))
    requires SplitAt(m, ks, lb, addr) && !(lb > 0 && lb == |ks|)
    ensures Increasing(st.1) && st.2 <= |st.1|
    ensures forall j :: st.2 <= j < |st.1| ==> st.1[j] in st.0
  {
    if lb == 0 then (m, ks, 0, used, addr)
    else
      var jt := ks[lb];
      (m - {jt}, Without(ks, lb), lb - 1, used + m[jt], jt)
  }

  /** `free` as written, away from the dereference of end(), is the merging
      loop run from WalkStart's state followed by the insertion at `lhs`. */
  lemma ReleaseAsWrittenWalks(m: Blocks, used: int, addr: nat, size: nat)
    requires !EndDereferenced(m, addr)
    ensures var ks := SortedKeys(m.Keys);
            var lb := LowerBound(ks, addr);
            && SplitAt(m, ks, lb, addr) && !(lb > 0 && lb == |ks|)
            && ReleaseAsWritten(m, used, addr, size) == ReleaseAsWrittenFrom(m, ks, lb, used, addr, size)
  {
    var ks := SortedKeys(m.Keys);
    var lb := LowerBound(ks, addr);
    SortedKeysSplit(m, addr);
    if lb > 0 {
      assert ks[0] in m;
      var k :| k in m && addr <= k;
      var j :| 0 <= j < |ks| && ks[j] == k;
    }
  }

  lemma WalkStartBelow(m: Blocks, ks: seq<nat>, lb: nat, used: int, addr: nat)
    requires SplitAt(m, ks, lb, addr) && 0 < lb < |ks|
    ensures WalkStart(m, ks, lb, used, addr)
            == (m - {ks[lb]}, Without(ks, lb), lb - 1, used + m[ks[lb]], ks[lb])
  {
  }

  /** The merging loop, started at `lower_bound(addr)` when the released range
      [addr, addr + size) is allocated: it absorbs the block starting exactly at
      `addr + size`, if there is one, and stops. */
  lemma AbsorbAdjacent(m: Blocks, ks: seq<nat>, i: nat, addr: nat, size: nat, used: int)
    requires PositiveLengths(m) && NotFree(m, addr, size) && size > 0
    requires Increasing(ks) && i <= |ks|
    requires forall j :: i <= j < |ks| ==> ks[j] in m && addr <= ks[j]
    requires forall j :: 0 <= j < i ==> ks[j] < addr
    requires forall k :: k in m && addr <= k ==> k in ks
    ensures var next := addr + size;
            Absorb(m, ks, i, next, next, used)
            == if next in m then (next + m[next], used + m[next], m - {next})
               else (next, used, m)
  {
    var next := addr + size;
    if i < |ks| && ks[i] <= next {
      assert ks[i] == next;
      var rest := m - {next};
      if i + 1 < |ks| {
        assert ks[i] < ks[i + 1];
      }
      assert Absorb(rest, ks, i + 1, next, next + m[next], used + m[next])
             == (next + m[next], used + m[next], rest);
    }
  }

  /** Coalescing: releasing an allocated range [addr, addr + size) between
      disjoint free blocks leaves ONE free block from `lo` to `hi`, where `lo` is
      the start of the free block ending exactly at `addr` (or `addr`) and `hi`
      the end of the free block starting exactly at `addr + size` (or
      `addr + size`); `used` decreases by exactly `size`, and the free map stays
      a set of disjoint non-empty blocks. */
  lemma ReleaseCoalesces(m: Blocks, used: int, addr: nat, size: nat, lo: nat, hi: nat)
    requires PositiveLengths(m) && Disjoint(m) && NotFree(m, addr, size) && size > 0
    requires (lo in m && lo + m[lo] == addr) || (lo == addr && forall p :: p in m ==> p + m[p] != addr)
    requires hi == if addr + size in m then addr + size + m[addr + size] else addr + size
    ensures lo <= addr < addr + size <= hi
    ensures Release(m, used, addr, size) == ((m - {lo, addr + size})[lo := hi - lo], Wrap(used - size))
    ensures PositiveLengths(Release(m, used, addr, size).0)
    ensures Disjoint(Release(m, used, addr, size).0)
    ensures Coalesced(m) ==> Coalesced(Release(m, used, addr, size).0)
  {
    var ks := SortedKeys(m.Keys);
    SortedKeysSplit(m, addr);
    ReleaseFromCoalesces(m, ks, LowerBound(ks, addr), used, addr, size, lo, hi);
    MergedBlockKeepsBlocks(m, addr, size, lo, hi);
    if Coalesced(m) {
      MergedBlockKeepsCoalesced(m, addr, size, lo, hi);
    }
  }

  lemma ReleaseFromCoalesces(m: Blocks, ks: seq<nat>, lb: nat, used: int, addr: nat, size: nat, lo: nat, hi: nat)
    requires SplitAt(m, ks, lb, addr)
    requires PositiveLengths(m) && Disjoint(m) && NotFree(m, addr, size) && size > 0
    requires (lo in m && lo + m[lo] == addr) || (lo == addr && forall p :: p in m ==> p + m[p] != addr)
    requires hi == if addr + size in m then addr + size + m[addr + size] else addr + size
    ensures ReleaseFrom(m, ks, lb, used, addr, size) == ((m - {lo, addr + size})[lo := hi - lo], Wrap(used - size))
  {
    var next := addr + size;
    if lo in m && lo + m[lo] == addr {
      ReleaseFromAfterPredecessor(m, ks, lb, used, addr, size, lo, hi);
    } else {
      ReleaseFromAtAddr(m, ks, lb, used, addr, size, hi);
    }
  }

  lemma ReleaseFromAfterPredecessor(m: Blocks, ks: seq<nat>, lb: nat, used: int, addr: nat, size: nat, lo: nat, hi: nat)
    requires SplitAt(m, ks, lb, addr)
    requires PositiveLengths(m) && Disjoint(m) && NotFree(m, addr, size) && size > 0
    requires lo in m && lo + m[lo] == addr
    requires hi == if addr + size in m then addr + size + m[addr + size] else addr + size
    ensures ReleaseFrom(m, ks, lb, used, addr, size) == ((m - {lo, addr + size})[lo := hi - lo], Wrap(used - size))
  {
    var i :| 0 <= i < |ks| && ks[i] == lo;
    assert i < lb;
    var p := ks[lb - 1];
    assert lo <= p by {
      if i < lb - 1 { assert ks[i] < ks[lb - 1]; }
    }
    assert p in m;
    var loEnd := lo + m[lo];
    assert lo < p ==> loEnd <= p;
    ReleaseFromMergesPredecessor(m, ks, lb, used, addr, size, hi);
  }

  /** The block just before `lower_bound(addr)` ends exactly at `addr`. */
  lemma ReleaseFromMergesPredecessor(m: Blocks, ks: seq<nat>, lb: nat, used: int, addr: nat, size: nat, hi: nat)
    requires SplitAt(m, ks, lb, addr)
    requires PositiveLengths(m) && NotFree(m, addr, size) && size > 0
    requires lb > 0 && ks[lb - 1] + m[ks[lb - 1]] == addr
    requires hi == if addr + size in m then addr + size + m[addr + size] else addr + size
    ensures var lo := ks[lb - 1];
            ReleaseFrom(m, ks, lb, used, addr, size) == ((m - {lo, addr + size})[lo := hi - lo], Wrap(used - size))
  {
    var lo := ks[lb - 1];
    var next := addr + size;
    var rest := m - {lo};
    AbsorbAdjacent(rest, ks, lb, addr, size, used + m[lo]);
    if next in m {
      assert rest - {next} == m - {lo, next};
    } else {
      assert rest == m - {lo, next};
    }
  }

  lemma ReleaseFromAtAddr(m: Blocks, ks: seq<nat>, lb: nat, used: int, addr: nat, size: nat, hi: nat)
    requires SplitAt(m, ks, lb, addr)
    requires PositiveLengths(m) && NotFree(m, addr, size) && size > 0
    requires forall p :: p in m ==> p + m[p] != addr
    requires hi == if addr + size in m then addr + size + m[addr + size] else addr + size
    ensures ReleaseFrom(m, ks, lb, used, addr, size) == ((m - {addr, addr + size})[addr := hi - addr], Wrap(used - size))
  {
    var next := addr + size;
    if lb > 0 {
      var p := ks[lb - 1];
      assert p in m && p < addr;
      assert p + m[p] < addr;
    }
    AbsorbAdjacent(m, ks, lb, addr, size, used);
    assert (m - {next})[addr := hi - addr] == (m - {addr, next})[addr := hi - addr];
    if next !in m {
      assert m - {next} == m;
    }
  }

  /** The merged block [lo, hi) is disjoint from every block that remains. */
  lemma MergedBlockKeepsBlocks(m: Blocks, addr: nat, size: nat, lo: nat, hi: nat)
    requires PositiveLengths(m) && Disjoint(m) && NotFree(m, addr, size) && size > 0
    requires (lo in m && lo + m[lo] == addr) || (lo == addr && forall p :: p in m ==> p + m[p] != addr)
    requires hi == if addr + size in m then addr + size + m[addr + size] else addr + size
    ensures lo <= addr < addr + size <= hi
    ensures PositiveLengths((m - {lo, addr + size})[lo := hi - lo])
    ensures Disjoint((m - {lo, addr + size})[lo := hi - lo])
  {
    var next := addr + size;
    var r := (m - {lo, next})[lo := hi - lo];
    forall x, y | x in r && y in r && x < y ensures x + r[x] <= y {
      if x == lo {
        assert y in m && y != next && addr <= y;
        if next in m { assert next + m[next] <= y; }
      } else if y == lo {
        assert x in m && x < lo;
        if lo != addr { assert x + m[x] <= lo; }
      }
    }
  }

  /** The merged block [lo, hi) touches no remaining free block. */
  lemma MergedBlockKeepsCoalesced(m: Blocks, addr: nat, size: nat, lo: nat, hi: nat)
    requires PositiveLengths(m) && Disjoint(m) && Coalesced(m) && NotFree(m, addr, size) && size > 0
    requires (lo in m && lo + m[lo] == addr) || (lo == addr && forall p :: p in m ==> p + m[p] != addr)
    requires hi == if addr + size in m then addr + size + m[addr + size] else addr + size
    ensures Coalesced((m - {lo, addr + size})[lo := hi - lo])
  {
    var next := addr + size;
    var r := (m - {lo, next})[lo := hi - lo];
    assert lo <= addr < next <= hi;
    forall x, y | x in r && y in r ensures x + r[x] != y {
      if x == lo {
        if y != lo {
          assert y in m && y != next;
          if next in m { assert next + m[next] != y; }
        }
      } else if y == lo {
        assert x in m && x != next;
      } else {
        assert x in m && y in m;
      }
    }
  }

  /** The keys from position `i` of `ks` on that start at or below `limit`. */
  function Walked(ks: seq<nat>, i: nat, limit: nat): set<nat> {
    set j | i <= j < |ks| && ks[j] <= limit :: ks[j]
  }

  /** The merged end of the loop: at least where it started, covering every
      absorbed block, and equal to the start value or to one absorbed block's
      end; the loop erases exactly the walked blocks that start at or below
      `limit`. */
  lemma {:induction false} AbsorbSpan(m: Blocks, ks: seq<nat>, i: nat, limit: nat, rhs: nat, used: int)
    requires Increasing(ks) && i <= |ks|
    requires forall j :: i <= j < |ks| ==> ks[j] in m
    ensures var r := Absorb(m, ks, i, limit, rhs, used);
            && r.2 == m - Walked(ks, i, limit)
            && (forall j :: i <= j < |ks| && ks[j] <= limit ==> ks[j] + m[ks[j]] <= r.0)
            && (r.0 == rhs || exists j :: i <= j < |ks| && ks[j] <= limit && r.0 == ks[j] + m[ks[j]])
    decreases |ks| - i
  {
    var r := Absorb(m, ks, i, limit, rhs, used);
    if i == |ks| || ks[i] > limit {
      if i < |ks| {
        forall j | i <= j < |ks| ensures ks[j] > limit {
          assert ks[i] <= ks[j];
        }
      }
      assert Walked(ks, i, limit) == {};
    } else {
      var k0 := ks[i];
      var rest := m - {k0};
      assert forall j :: i < j < |ks| ==> k0 < ks[j];
      AbsorbSpan(rest, ks, i + 1, limit, Max(k0 + m[k0], rhs), used + m[k0]);
      assert Walked(ks, i, limit) == {k0} + Walked(ks, i + 1, limit);
    }
  }

  /** `free` when no free block starts below `addr`: every free block starting at
      or before `addr + size` is erased, all others are kept, and one block is
      put at `addr` whose end is the larger of `addr + size` and the erased
      blocks' ends; so a block starting exactly at `addr + size` is merged. */
  lemma ReleaseWithoutPredecessor(m: Blocks, used: int, addr: nat, size: nat)
    requires NoBlockBelow(m, addr)
    ensures var r := Release(m, used, addr, size).0;
            && r.Keys == m.Keys - (set k | k in m && k <= addr + size) + {addr}
            && (forall k :: k in r && k != addr ==> r[k] == m[k])
            && size <= r[addr]
            && (forall k :: k in m && k <= addr + size ==> k + m[k] <= addr + r[addr])
            && (r[addr] == size || exists k :: k in m && k <= addr + size && k + m[k] == addr + r[addr])
  {
    var ks := SortedKeys(m.Keys);
    SortedKeysSplit(m, addr);
    var lb := LowerBound(ks, addr);
    assert lb == 0 by {
      if ks != [] { assert ks[0] in m; }
    }
    ReleaseFromWithoutPredecessor(m, ks, used, addr, size);
  }

  lemma ReleaseFromWithoutPredecessor(m: Blocks, ks: seq<nat>, used: int, addr: nat, size: nat)
    requires SplitAt(m, ks, 0, addr)
    ensures var r := ReleaseFrom(m, ks, 0, used, addr, size).0;
            && r.Keys == m.Keys - (set k | k in m && k <= addr + size) + {addr}
            && (forall k :: k in r && k != addr ==> r[k] == m[k])
            && size <= r[addr]
            && (forall k :: k in m && k <= addr + size ==> k + m[k] <= addr + r[addr])
            && (r[addr] == size || exists k :: k in m && k <= addr + size && k + m[k] == addr + r[addr])
  {
    var limit := addr + size;
    AbsorbFromStart(m, ks, limit, used);
    var a := Absorb(m, ks, 0, limit, limit, used);
    assert ReleaseFrom(m, ks, 0, used, addr, size).0 == a.2[addr := a.0 - addr];
  }

  /** The merging loop started at the lowest free block erases every block
      starting at or below `limit` and covers all of them. */
  lemma AbsorbFromStart(m: Blocks, ks: seq<nat>, limit: nat, used: int)
    requires Increasing(ks)
    requires forall j :: 0 <= j < |ks| ==> ks[j] in m
    requires forall k :: k in m ==> k in ks
    ensures var a := Absorb(m, ks, 0, limit, limit, used);
            && a.2 == m - (set k | k in m && k <= limit)
            && (forall k :: k in m && k <= limit ==> k + m[k] <= a.0)
            && (a.0 == limit || exists k :: k in m && k <= limit && a.0 == k + m[k])
  {
    AbsorbSpan(m, ks, 0, limit, limit, used);
    var erased := Walked(ks, 0, limit);
    assert erased == (set k | k in m && k <= limit) by {
      forall k | k in m && k <= limit ensures k in erased {
        var j :| 0 <= j < |ks| && ks[j] == k;
      }
    }
    var a := Absorb(m, ks, 0, limit, limit, used);
    forall k | k in m && k <= limit ensures k + m[k] <= a.0 {
      var j :| 0 <= j < |ks| && ks[j] == k;
    }
  }

  /** Accounting when no free block starts below an allocated range: `free` as
      written gives back exactly `size` bytes and keeps the free map a set of
      disjoint non-empty blocks. */
  lemma ReleaseWithoutPredecessorAccounts(m: Blocks, used: int, addr: nat, size: nat)
    requires PositiveLengths(m) && Disjoint(m) && NoBlockBelow(m, addr)
    requires NotFree(m, addr, size) && size > 0
    ensures ReleaseAsWritten(m, used, addr, size).Some?
    ensures var r := ReleaseAsWritten(m, used, addr, size).value;
            r.1 == Wrap(used - size) && PositiveLengths(r.0) && Disjoint(r.0)
    ensures Coalesced(m) ==> Coalesced(ReleaseAsWritten(m, used, addr, size).value.0)
    ensures size <= used < SizeRange ==> ReleaseAsWritten(m, used, addr, size).value.1 == used - size
  {
    ReleaseAsWrittenWithoutPredecessor(m, used, addr, size);
    var hi := if addr + size in m then addr + size + m[addr + size] else addr + size;
    ReleaseCoalesces(m, used, addr, size, addr, hi);
    if size <= used < SizeRange {
      WrapInRange(used - size);
    }
  }

  /** When no free block starts below `addr` the code as written and the
      corrected reading agree. */
  lemma ReleaseAsWrittenWithoutPredecessor(m: Blocks, used: int, addr: nat, size: nat)
    requires NoBlockBelow(m, addr)
    ensures ReleaseAsWritten(m, used, addr, size) == Some(Release(m, used, addr, size))
  {
    var ks := SortedKeys(m.Keys);
    SortedKeysSplit(m, addr);
    assert LowerBound(ks, addr) == 0 by {
      if ks != [] { assert ks[0] in m; }
    }
    assert WalkStart(m, ks, 0, used, addr) == (m, ks, 0, used, addr);
    var r := Absorb(m, ks, 0, addr + size, addr + size, used);
    assert ReleaseAsWritten(m, used, addr, size) == Some(Insert(r, addr));
    assert Release(m, used, addr, size) == (r.2[addr := r.0 - addr], Wrap(r.1 - (r.0 - addr)));
    assert SizeSub(r.0, addr) == r.0 - addr;
  }

  lemma SortedKeysOfTwo()
    ensures SortedKeys({0, 16}) == [0, 16]
  {
    assert MinKey({0, 16}) == 0;
    assert {0, 16} - {0} == {16} && MinKey({16}) == 16;
    assert {16} - {16} == {};
  }

  /** Freeing [8, 16) between free blocks [0, 8) and [16, 24): as written, the block
      at 16 becomes the merged block's start and the predecessor's end (16)
      its end, so the free map is left with one empty block at 16 and `used`
      grows. */
  lemma ReleaseAsWrittenLosesBlocks()
    ensures ReleaseAsWritten(map[0 := 8, 16 := 8], 8, 8, 8) == Some((map[16 := 0], 24))
  {
    var m := map[0 := 8, 16 := 8];
    assert m.Keys == {0, 16};
    SortedKeysOfTwo();
    var ks := SortedKeys(m.Keys);
    assert LowerBound(ks, 8) == 1;
    assert Without(ks, 1) == [0];
    assert m - {16} == map[0 := 8];
    assert WalkStart(m, ks, 1, 8, 8) == (map[0 := 8], [0], 0, 16, 16);
    assert Absorb(map[0 := 8], [0], 0, 16, 16, 16) == (16, 24, map[]) by {
      assert map[0 := 8] - {0} == map[];
      assert Absorb(map[], [0], 1, 16, 16, 24) == (16, 24, map[]);
    }
    assert map[][16 := 0] == map[16 := 0];
  }

  lemma SortedKeysOfPair()
    ensures SortedKeys({0, 32}) == [0, 32]
  {
    assert MinKey({0, 32}) == 0;
    assert {0, 32} - {0} == {32} && MinKey({32}) == 32;
    assert {32} - {32} == {};
  }

  /** Freeing [8, 16) with free blocks [0, 8) and [32, 40): as written, the
      merged block starts at 32 and ends at 16, so its size_t length wraps to
      2^64 - 16, and `used`, which first grew by the 16 walked bytes, wraps
      back through the subtraction to 56. */
  lemma ReleaseAsWrittenWrapsLength()
    ensures ReleaseAsWritten(map[0 := 8, 32 := 8], 24, 8, 8) == Some((map[32 := SizeRange - 16], 56))
  {
    var m := map[0 := 8, 32 := 8];
    assert m.Keys == {0, 32};
    SortedKeysOfPair();
    var ks := SortedKeys(m.Keys);
    assert LowerBound(ks, 8) == 1;
    assert Without(ks, 1) == [0];
    assert m - {32} == map[0 := 8];
    assert WalkStart(m, ks, 1, 24, 8) == (map[0 := 8], [0], 0, 32, 32);
    assert Absorb(map[0 := 8], [0], 0, 16, 16, 32) == (16, 40, map[]) by {
      assert map[0 := 8] - {0} == map[];
      assert Absorb(map[], [0], 1, 16, 16, 40) == (16, 40, map[]);
    }
    assert SizeSub(16, 32) == SizeRange - 16;
    assert Wrap(40 - (SizeRange - 16)) == 56;
    assert map[][32 := SizeRange - 16] == map[32 := SizeRange - 16];
  }

  /** The same release, corrected, yields the single block [0, 24). */
  lemma ReleaseMergesBothNeighbours()
    ensures Release(map[0 := 8, 16 := 8], 8, 8, 8) == (map[0 := 24], 0)
  {
    var m := map[0 := 8, 16 := 8];
    assert m.Keys == {0, 16};
    SortedKeysOfTwo();
    var ks := SortedKeys(m.Keys);
    assert LowerBound(ks, 8) == 1;
    assert m - {0} == map[16 := 8];
    assert Absorb(map[16 := 8], ks, 1, 16, 16, 16) == (24, 24, map[]);
  }

  /** Freeing just above the last free block dereferences end(). */
  lemma ReleaseAsWrittenReadsEnd()
    ensures ReleaseAsWritten(map[0 := 8], 8, 8, 8) == None
  {
    var ks := SortedKeys({0});
    assert ks == [0] by {
      assert MinKey({0}) == 0 && {0} - {0} == {};
    }
    assert LowerBound(ks, 8) == 1;
  }

  /** The first block in address order with `size` bytes is the first fit. */
  lemma FirstInOrderFits(m: Blocks, ks: seq<nat>, i: nat, size: nat)
    requires Increasing(ks) && (forall k :: k in ks <==> k in m)
    requires i < |ks| && m[ks[i]] >= size
    requires forall j :: 0 <= j < i ==> m[ks[j]] < size
    ensures IsFirstFit(m, size, ks[i])
  {
    forall b | b in m && b < ks[i] ensures m[b] < size {
      var j :| 0 <= j < |ks| && ks[j] == b;
      assert i < j ==> ks[i] < ks[j];
    }
  }

  /** When no block in address order has `size` bytes, none does. */
  lemma NoneFits(m: Blocks, ks: seq<nat>, size: nat)
    requires forall k :: k in ks <==> k in m
    requires forall j :: 0 <= j < |ks| ==> m[ks[j]] < size
    ensures NoFit(m, size)
  {
    forall b | b in m ensures m[b] < size {
      var j :| 0 <= j < |ks| && ks[j] == b;
    }
  }

  /** The search of `alloc`: the free blocks in address order, up to the
      first one of at least `size` bytes. */
  method FirstFit(m: Blocks, size: nat) returns (found: bool, a: nat)
    ensures found ==> IsFirstFit(m, size, a)
    ensures !found ==> NoFit(m, size)
  {
    var ks := SortedKeys(m.Keys);
    var i := 0;
    while i < |ks| && m[ks[i]] < size
      invariant i <= |ks|
      invariant forall j :: 0 <= j < i ==> m[ks[j]] < size
    {
      i := i + 1;
    }
    if i == |ks| {
      NoneFits(m, ks, size);
      return false, 0;
    }
    FirstInOrderFits(m, ks, i, size);
    return true, ks[i];
  }

  /** The step of `free` before its merging loop: with a block below `addr`,
      `jt` (the block at `lower_bound(addr)`) is erased and made `lhs`, and
      the iterator moves to the block before it. */
  method WalkFrom(m0: Blocks, ks: seq<nat>, lb: nat, used0: int, addr: nat)
    returns (m: Blocks, order: seq<nat>, i: nat, used: int, lhs: nat)
    requires SplitAt(m0, ks, lb, addr) && !(lb > 0 && lb == |ks|)
    ensures (m, order, i, used, lhs) == WalkStart(m0, ks, lb, used0, addr)
  {
    m, order, i, used, lhs := m0, ks, lb, used0, addr;
    if lb > 0 {
      // auto jt = it--: jt stays on lower_bound(addr), it moves one block down
      var jt := ks[lb];
      lhs := jt;
      used := used + m0[jt];
      m := m0 - {jt};
      // the iterator walks the remaining blocks, from the one before jt
      order := Without(ks, lb);
      i := lb - 1;
      WalkStartBelow(m0, ks, lb, used0, addr);
    }
  }

  /** The merging loop of `free`: walks the free blocks in the address order
      `order` from index `i` while they start at or below `limit`, erasing each
      one, adding its length to `used` and widening `rhs` to its end. */
  method MergeUpTo(m0: Blocks, order: seq<nat>, i0: nat, limit: nat, rhs0: nat, used0: int)
    returns (rhs: nat, used: int, m: Blocks)
    requires Increasing(order) && i0 <= |order|
    requires forall j :: i0 <= j < |order| ==> order[j] in m0
    ensures (rhs, used, m) == Absorb(m0, order, i0, limit, rhs0, used0)
  {
    m, used, rhs := m0, used0, rhs0;
    var i := i0;
    while i < |order| && order[i] <= limit
      invariant i <= |order|
      invariant forall j :: i <= j < |order| ==> order[j] in m
      invariant Absorb(m, order, i, limit, rhs, used) == Absorb(m0, order, i0, limit, rhs0, used0)
      decreases |order| - i
    {
      var k := order[i];
      rhs := Max(k + m[k], rhs);
      used := used + m[k];
      m := m - {k};
      i := i + 1;
    }
  }

  /** The body of `free` as written, on the free map and the `used` counter:
      the walk down from `lower_bound(addr)`, the merge loop, and the
      re-inserted block with its size_t length. */
  method ReleaseBlocks(m0: Blocks, u0: nat, addr: nat, s: nat) returns (m': Blocks, u': nat)
    requires !EndDereferenced(m0, addr)
    ensures ReleaseAsWritten(m0, u0, addr, s) == Some((m', u'))
  {
    var m := m0;
    var u: int := u0;
    var limit := addr + s;
    var ks := SortedKeys(m.Keys);
    var i := LowerBound(ks, addr);
    ReleaseAsWrittenWalks(m0, u0, addr, s);
    var order, lhs;
    m, order, i, u, lhs := WalkFrom(m, ks, i, u, addr);
    var rhs;
    rhs, u, m := MergeUpTo(m, order, i, limit, limit, u);
    var r := Insert((rhs, u, m), lhs);
    m', u' := r.0, r.1;
  }

  /** The physical backing buffer: an opaque handle from the backing-store
      provider and the number of bytes requested for it. */
  datatype Buffer = Buffer(handle: nat, bytes: nat)

  datatype AllocError = OutOfMemory

  /** The arena. While `ptr` is None it is in the planning phase, where `alloc`
      and `free` move byte ranges between the free map and the `used` count. */
  class Allocator {
    var freeBlocks: Blocks
    var used: nat
    var peak: nat
    var ptr: Option<Buffer>

    /** The free map is a set of disjoint non-empty blocks with no two
        adjacent, and `used` is a size_t value that never exceeds its
        high-water mark. */
    predicate Valid()
      reads this
    {
      && PositiveLengths(freeBlocks) && Disjoint(freeBlocks) && Coalesced(freeBlocks)
      && used < SizeRange && used <= peak
    }

    /** The initial free map is a parameter: the constructor itself leaves it
        empty, so an arena over [0, cap) starts from map[0 := cap]. */
    constructor (initial: Blocks)
      ensures freeBlocks == initial && used == 0 && peak == 0 && ptr == None
    {
      freeBlocks := initial;
      used := 0;
      peak := 0;
      ptr := None;
    }

    /** `alloc`: first fit over the free blocks in address order, splitting the
        chosen block; fails with OutOfMemory, changing nothing, when no block
        is large enough. */
    method Alloc(size: nat) returns (r: Result<nat, AllocError>)
      requires ptr == None
      modifies this
      ensures ptr == old(ptr)
      ensures r.Ok? ==> && IsFirstFit(old(freeBlocks), AlignedSize(size), r.value)
                        && freeBlocks == SplitBlock(old(freeBlocks), r.value, AlignedSize(size))
                        && used == Wrap(old(used) + AlignedSize(size))
                        && peak == Max(old(peak), used)
      ensures r.Err? ==> && NoFit(old(freeBlocks), AlignedSize(size))
                         && freeBlocks == old(freeBlocks) && used == old(used) && peak == old(peak)
      ensures old(Valid()) ==> Valid()
      ensures r.Ok? && old(Valid()) ==> NotFree(freeBlocks, r.value, AlignedSize(size))
    {
      var s := AlignedSize(size);
      var found, a := FirstFit(freeBlocks, s);
      if !found {
        return Err(OutOfMemory);
      }
      if Valid() {
        SplitBlockKeepsBlocks(freeBlocks, a, s);
        SplitBlockKeepsCoalesced(freeBlocks, a, s);
      }
      ghost var m0 := freeBlocks;
      var remain := freeBlocks[a] - s;
      freeBlocks := freeBlocks - {a};
      if remain > 0 {
        freeBlocks := freeBlocks[a + s := remain];
      }
      assert freeBlocks == SplitBlock(m0, a, s);
      used := Wrap(used + s);
      peak := Max(peak, used);
      return Ok(a);
    }

    /** `free` of [addr, addr + size), as written (see ReleaseAsWritten). The
        dereference of end() is undefined behaviour and excluded. When no free
        block starts below `addr` and the range is allocated, the range is
        merged with the block starting at its end, if any, and `used` drops by
        the aligned size modulo 2^64. */
    method Free(addr: nat, size: nat)
      requires ptr == None
      requires !EndDereferenced(freeBlocks, addr)
      modifies this
      ensures ReleaseAsWritten(old(freeBlocks), old(used), addr, AlignedSize(size)) == Some((freeBlocks, used))
      ensures peak == old(peak) && ptr == old(ptr)
      ensures old(Valid()) && NoBlockBelow(old(freeBlocks), addr)
              && NotFree(old(freeBlocks), addr, AlignedSize(size)) && size > 0
              ==> && used == Wrap(old(used) - AlignedSize(size))
                  && PositiveLengths(freeBlocks) && Disjoint(freeBlocks) && Coalesced(freeBlocks)
                  && (AlignedSize(size) <= old(used) ==> Valid())
    {
      var s := AlignedSize(size);
      var m, u := ReleaseBlocks(freeBlocks, used, addr, s);
      if Valid() && NoBlockBelow(freeBlocks, addr) && NotFree(freeBlocks, addr, s) && size > 0 {
        ReleaseWithoutPredecessorAccounts(freeBlocks, used, addr, s);
      }
      freeBlocks, used := m, u;
    }

    /** `getPtr`: the first call requests exactly `peak` bytes (`provided` is the
        handle the backing store returns) and ends the planning phase; later
        calls return the cached buffer. Nothing else changes. */
    method GetPtr(provided: nat) returns (b: Buffer)
      modifies this
      ensures old(ptr) == None ==> b == Buffer(provided, peak)
      ensures old(ptr) != None ==> b == old(ptr).value
      ensures ptr == Some(b)
      ensures freeBlocks == old(freeBlocks) && used == old(used) && peak == old(peak)
    {
      if ptr == None {
        ptr := Some(Buffer(provided, peak));
      }
      b := ptr.value;
    }
  }

  /** Freeing [0, 8) below the only free block [24, 64) puts back [0, 8) on
      its own and gives back 8 bytes. */
  lemma FreeBelowOnlyBlock()
    ensures ReleaseAsWritten(map[24 := 40], 24, 0, 8) == Some((map[0 := 8, 24 := 40], 16))
  {
    var m := map[24 := 40];
    var ks := SortedKeys(m.Keys);
    assert ks == [24] by {
      assert m.Keys == {24} && MinKey({24}) == 24 && {24} - {24} == {};
    }
    assert LowerBound(ks, 0) == 0;
    assert WalkStart(m, ks, 0, 24, 0) == (m, ks, 0, 24, 0);
    assert Absorb(m, ks, 0, 8, 8, 24) == (8, 24, m) by {
      assert 0 < |ks| && ks[0] > 8;
    }
    assert SizeSub(8, 0) == 8;
    assert m[0 := 8] == map[0 := 8, 24 := 40];
    assert Insert((8, 24, m), 0) == (map[0 := 8, 24 := 40], 16);
  }

  /** From one free block [0, 64): `alloc(8)` gives 0, `alloc(16)` gives 8, and
      after `free(0, 8)` the next `alloc(8)` reuses address 0. */
  method ReuseLowestBlock() returns (a1: Result<nat, AllocError>, a2: Result<nat, AllocError>, a3: Result<nat, AllocError>)
    ensures a1 == Ok(0) && a2 == Ok(8) && a3 == Ok(0)
  {
    assert AlignedSize(8) == 8 && AlignedSize(16) == 16;
    var arena := new Allocator(map[0 := 64]);
    a1 := arena.Alloc(8);
    assert !NoFit(map[0 := 64], 8) by { assert 0 in map[0 := 64]; }
    assert a1.value == 0;
    assert (map[0 := 64] - {0})[8 := 56] == map[8 := 56];
    WrapInRange(8);
    assert arena.freeBlocks == map[8 := 56] && arena.used == 8;
    a2 := arena.Alloc(16);
    assert !NoFit(map[8 := 56], 16) by { assert 8 in map[8 := 56]; }
    assert a2.value == 8;
    assert (map[8 := 56] - {8})[24 := 40] == map[24 := 40];
    WrapInRange(24);
    assert arena.freeBlocks == map[24 := 40] && arena.used == 24;
    FreeBelowOnlyBlock();
    arena.Free(0, 8);
    assert arena.freeBlocks == map[0 := 8, 24 := 40];
    a3 := arena.Alloc(8);
    assert !NoFit(map[0 := 8, 24 := 40], 8) by { assert 0 in map[0 := 8, 24 := 40]; }
    assert a3.value == 0 by {
      assert IsFirstFit(map[0 := 8, 24 := 40], 8, a3.value);
      assert map[0 := 8, 24 := 40][0] >= 8;
    }
  }
}
