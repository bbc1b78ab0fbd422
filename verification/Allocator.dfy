/**
  The first-fit free-list allocator (`VramAllocator`). The driver keeps one over VRAM and one over the
  managed address range. The ordered map of free blocks is a sequence sorted by address here.
*/
module Allocator {
  import opened Base

  datatype Block = Block(start: nat, len: nat)

  // ---------------------------------------------------------------------------------------------
  // What a free list means
  // ---------------------------------------------------------------------------------------------

  ghost predicate Covers(free: seq<Block>, a: int) {
    exists i :: 0 <= i < |free| && free[i].start <= a < free[i].start + free[i].len
  }

  /** Sorted, no empty block, and never two blocks that touch: every block is a maximal interval. */
  ghost predicate Canonical(free: seq<Block>) {
    && (forall i :: 0 <= i < |free| ==> free[i].len > 0)
    && (forall i, j :: 0 <= i < j < |free| ==> free[i].start + free[i].len < free[j].start)
  }

  /** `a` belongs to some block of `held`. */
  ghost predicate Holds(held: map<nat, nat>, a: int) {
    exists s :: s in held && s <= a < s + held[s]
  }

  /** `free` is the maximal-interval decomposition of the region minus the held blocks. */
  ghost predicate IsFreeList(base: nat, size: nat, held: map<nat, nat>, free: seq<Block>) {
    && Canonical(free)
    && (forall a :: Covers(free, a) <==> base <= a < base + size && !Holds(held, a))
  }

  /** The whole of [a, a + need) is free. */
  ghost predicate Fits(free: seq<Block>, a: int, need: nat) {
    forall x :: a <= x < a + need ==> Covers(free, x)
  }

  lemma CoversTail(free: seq<Block>, a: int)
    requires Canonical(free) && free != []
    ensures Canonical(free[1..])
    ensures Covers(free[1..], a) <==> Covers(free, a) && !(free[0].start <= a < free[0].start + free[0].len)
  {
    if Covers(free[1..], a) {
      var i :| 0 <= i < |free[1..]| && free[1..][i].start <= a < free[1..][i].start + free[1..][i].len;
      assert free[i + 1] == free[1..][i];
    }
    if Covers(free, a) && !(free[0].start <= a < free[0].start + free[0].len) {
      var i :| 0 <= i < |free| && free[i].start <= a < free[i].start + free[i].len;
      assert free[1..][i - 1] == free[i];
    }
  }

  lemma FirstBlock(x: seq<Block>, y: seq<Block>)
    requires Canonical(x) && Canonical(y) && x != [] && (forall a :: Covers(x, a) ==> Covers(y, a))
    ensures y != [] && y[0].start <= x[0].start
    ensures x[0].start == y[0].start ==> x[0].len <= y[0].len
  {
    assert Covers(x, x[0].start);
    assert Covers(y, x[0].start);
    var a := y[0].start + y[0].len;
    assert !Covers(y, a) && !Covers(x, a);
    assert x[0].start <= a < x[0].start + x[0].len ==> Covers(x, a);
  }

  /** The decomposition is unique: a free list is determined by the set of free addresses. */
  lemma {:induction false} CanonicalUnique(x: seq<Block>, y: seq<Block>)
    requires Canonical(x) && Canonical(y) && (forall a :: Covers(x, a) <==> Covers(y, a))
    ensures x == y
  {
    if x == [] {
      if y != [] {
        FirstBlock(y, x);
      }
    } else {
      FirstBlock(x, y);
      FirstBlock(y, x);
      forall a
        ensures Covers(x[1..], a) <==> Covers(y[1..], a)
      {
        CoversTail(x, a);
        CoversTail(y, a);
      }
      CoversTail(x, 0);
      CoversTail(y, 0);
      CanonicalUnique(x[1..], y[1..]);
      assert x == [x[0]] + x[1..] && y == [y[0]] + y[1..];
    }
  }

  /** No history: the free list depends only on what is held, not on the order of the operations. */
  lemma FreeListUnique(base: nat, size: nat, held: map<nat, nat>, x: seq<Block>, y: seq<Block>)
    requires IsFreeList(base, size, held, x) && IsFreeList(base, size, held, y)
    ensures x == y
  {
    CanonicalUnique(x, y);
  }

  /** A free interval lies inside one block, because blocks do not touch. */
  lemma {:induction false} FitsOneBlock(free: seq<Block>, a: nat, need: nat) returns (i: nat)
    requires Canonical(free) && need > 0 && Fits(free, a, need)
    ensures i < |free| && free[i].start <= a && a + need <= free[i].start + free[i].len
    decreases need
  {
    assert Covers(free, a + need - 1);
    i :| 0 <= i < |free| && free[i].start <= a + need - 1 < free[i].start + free[i].len;
    if need > 1 {
      var j := FitsOneBlock(free, a, need - 1);
    }
  }

  // ---------------------------------------------------------------------------------------------
  // Rounding and sums
  // ---------------------------------------------------------------------------------------------

  function Round(bytes: nat, align: nat): (r: nat)
    requires align > 0
  {
    (bytes + align - 1) / align * align
  }

  /** The rounded size is the least multiple of the alignment that is large enough. */
  lemma RoundLeast(bytes: nat, align: nat, k: nat)
    requires align > 0
    ensures Round(bytes, align) % align == 0 && bytes <= Round(bytes, align) < bytes + align
    ensures bytes <= k * align ==> Round(bytes, align) <= k * align
  {
    var x := bytes + align - 1;
    var q := x / align;
    assert x == align * q + x % align;
    MulMod(q, align);
    if k < q {
      MulStep(k, q, align);
    }
    if q <= k {
      MulMonotone(q, k, align);
    }
  }

  lemma MulMonotone(q: nat, k: nat, align: nat)
    requires q <= k
    ensures q * align <= k * align
  {
  }

  lemma MulStep(k: nat, q: nat, align: nat)
    requires k < q
    ensures k * align + align <= q * align
  {
    MulMonotone(k + 1, q, align);
  }

  lemma MulMod(q: int, align: nat)
    requires align > 0
    ensures (q * align) % align == 0
  {
    var x := q * align;
    var d := q - x / align;
    assert x == align * (x / align) + x % align;
    assert align * d == x % align by {
      assert align * d == align * q - align * (x / align);
    }
    assert d == 0 by {
      MulBounds(align, d);
    }
  }

  lemma MulBounds(align: nat, d: int)
    requires align > 0 && 0 <= align * d < align
    ensures d == 0
  {
  }

  ghost function Sum(m: map<nat, nat>): (r: nat)
    decreases |m|
  {
    if m == map[] then 0 else
      var k :| k in m;
      assert |m - {k}| < |m| by { assert m.Keys == (m - {k}).Keys + {k}; }
      m[k] + Sum(m - {k})
  }

  lemma {:induction false} SumRemove(m: map<nat, nat>, k: nat)
    requires k in m
    ensures Sum(m) == m[k] + Sum(m - {k})
    decreases |m|
  {
    var j :| j in m && Sum(m) == m[j] + Sum(m - {j});
    if j != k {
      RemoveSmaller(m, j);
      RemoveSmaller(m, k);
      SumRemove(m - {j}, k);
      SumRemove(m - {k}, j);
      assert m - {j} - {k} == m - {k} - {j};
    }
  }

  lemma RemoveSmaller(m: map<nat, nat>, k: nat)
    requires k in m
    ensures |m - {k}| < |m|
  {
    assert m.Keys == (m - {k}).Keys + {k};
  }

  lemma SumInsert(m: map<nat, nat>, k: nat, v: nat)
    requires k !in m
    ensures Sum(m[k := v]) == Sum(m) + v
  {
    SumRemove(m[k := v], k);
    assert m[k := v] - {k} == m;
  }

  // ---------------------------------------------------------------------------------------------
  // Free-list surgery
  // ---------------------------------------------------------------------------------------------

  /** `alloc` takes the front of block `i`. */
  function TakeFront(free: seq<Block>, i: nat, need: nat): (r: seq<Block>)
    requires i < |free| && need <= free[i].len
  {
    var remain := free[i].len - need;
    free[..i] + (if remain > 0 then [Block(free[i].start + need, remain)] else []) + free[i + 1..]
  }

  lemma CoversConcat(x: seq<Block>, y: seq<Block>, a: int)
    ensures Covers(x + y, a) <==> Covers(x, a) || Covers(y, a)
  {
    if Covers(x, a) {
      var i :| 0 <= i < |x| && x[i].start <= a < x[i].start + x[i].len;
      assert (x + y)[i] == x[i];
    }
    if Covers(y, a) {
      var i :| 0 <= i < |y| && y[i].start <= a < y[i].start + y[i].len;
      assert (x + y)[|x| + i] == y[i];
    }
  }

  lemma CanonicalConcat(x: seq<Block>, y: seq<Block>)
    requires Canonical(x) && Canonical(y)
    requires x != [] && y != [] ==> x[|x| - 1].start + x[|x| - 1].len < y[0].start
    ensures Canonical(x + y)
  {
    var z := x + y;
    forall i, j | 0 <= i < j < |z|
      ensures z[i].start + z[i].len < z[j].start
    {
      if i < |x| <= j {
        assert i < |x| - 1 ==> x[i].start + x[i].len < x[|x| - 1].start;
        assert |x| < j ==> y[0].start + y[0].len < y[j - |x|].start;
      }
    }
  }

  /** Replacing blocks lo..hi-1 by `mid`, which must keep its distance from the blocks around it. */
  lemma Replace(free: seq<Block>, lo: nat, hi: nat, mid: seq<Block>)
    requires Canonical(free) && lo <= hi <= |free| && Canonical(mid) && |mid| <= 1
    requires mid != [] && lo > 0 ==> free[lo - 1].start + free[lo - 1].len < mid[0].start
    requires mid != [] && hi < |free| ==> mid[0].start + mid[0].len < free[hi].start
    ensures Canonical(free[..lo] + mid + free[hi..])
    ensures forall a ::
            Covers(free[..lo] + mid + free[hi..], a) <==>
            Covers(free[..lo], a) || Covers(mid, a) || Covers(free[hi..], a)
    ensures forall a :: Covers(free, a) <==> Covers(free[..lo], a) || Covers(free[lo..hi], a) || Covers(free[hi..], a)
  {
    ReplaceCanonical(free[..lo], mid, free[hi..]);
    CoversParts(free[..lo], mid, free[hi..]);
    assert free == free[..lo] + free[lo..hi] + free[hi..];
    CoversParts(free[..lo], free[lo..hi], free[hi..]);
  }

  lemma ReplaceCanonical(x: seq<Block>, mid: seq<Block>, z: seq<Block>)
    requires Canonical(x) && Canonical(mid) && Canonical(z) && |mid| <= 1
    requires mid != [] && x != [] ==> x[|x| - 1].start + x[|x| - 1].len < mid[0].start
    requires mid != [] && z != [] ==> mid[0].start + mid[0].len < z[0].start
    requires x != [] && z != [] ==> x[|x| - 1].start + x[|x| - 1].len < z[0].start
    ensures Canonical(x + mid + z)
  {
    CanonicalConcat(x, mid);
    CanonicalConcat(x + mid, z);
  }

  lemma CoversParts(x: seq<Block>, y: seq<Block>, z: seq<Block>)
    ensures forall a :: Covers(x + y + z, a) <==> Covers(x, a) || Covers(y, a) || Covers(z, a)
  {
    forall a
      ensures Covers(x + y + z, a) <==> Covers(x, a) || Covers(y, a) || Covers(z, a)
    {
      CoversThree(x, y, z, a);
    }
  }

  lemma CoversThree(x: seq<Block>, y: seq<Block>, z: seq<Block>, a: int)
    ensures Covers(x + y + z, a) <==> Covers(x, a) || Covers(y, a) || Covers(z, a)
  {
    CoversConcat(x, y, a);
    CoversConcat(x + y, z, a);
  }

  lemma CoversOne(b: Block, a: int)
    ensures Covers([b], a) <==> b.start <= a < b.start + b.len
  {
    assert [b][0] == b;
  }

  lemma TakeFrontAt(free: seq<Block>, i: nat, need: nat, rest: Block, a: int)
    requires Canonical(free) && i < |free| && 0 < need <= free[i].len
             && rest == Block(free[i].start + need, free[i].len - need)
    ensures Covers([rest], a) <==> Covers([free[i]], a) && !(free[i].start <= a < free[i].start + need)
    ensures Covers(free[..i], a) || Covers(free[i + 1..], a) ==> !(free[i].start <= a < free[i].start + need)
  {
    CoversOne(free[i], a);
    CoversOne(rest, a);
    assert Covers(free[..i], a) ==> a < free[i].start;
    assert Covers(free[i + 1..], a) ==> a > free[i].start + free[i].len;
  }

  lemma TakeFrontCovers(free: seq<Block>, i: nat, need: nat)
    requires Canonical(free) && i < |free| && 0 < need <= free[i].len
    ensures Canonical(TakeFront(free, i, need))
    ensures forall a ::
            Covers(TakeFront(free, i, need), a) <==> Covers(free, a) && !(free[i].start <= a < free[i].start + need)
  {
    var rest := Block(free[i].start + need, free[i].len - need);
    var mid := if rest.len > 0 then [rest] else [];
    Replace(free, i, i + 1, mid);
    assert free[i..i + 1] == [free[i]];
    forall a
      ensures Covers(TakeFront(free, i, need), a) <==> Covers(free, a) && !(free[i].start <= a < free[i].start + need)
    {
      TakeFrontAt(free, i, need, rest, a);
      assert rest.len == 0 ==> !Covers([rest], a);
    }
  }

  /** `release` puts [start, start + len) back between blocks `lo - 1` and `hi`, dropping lo..hi-1. */
  function Splice(free: seq<Block>, lo: nat, hi: nat, start: nat, len: nat): (r: seq<Block>)
    requires lo <= hi <= |free|
  {
    free[..lo] + [Block(start, len)] + free[hi..]
  }

  lemma SpliceCovers(free: seq<Block>, lo: nat, hi: nat, start: nat, len: nat)
    requires Canonical(free) && lo <= hi <= |free| && len > 0
    requires lo > 0 ==> free[lo - 1].start + free[lo - 1].len < start
    requires hi < |free| ==> start + len < free[hi].start
    requires forall i :: lo <= i < hi ==> start <= free[i].start && free[i].start + free[i].len <= start + len
    ensures Canonical(Splice(free, lo, hi, start, len))
    ensures forall a :: Covers(Splice(free, lo, hi, start, len), a) <==> Covers(free, a) || start <= a < start + len
  {
    Replace(free, lo, hi, [Block(start, len)]);
    forall a
      ensures Covers(Splice(free, lo, hi, start, len), a) <==> Covers(free, a) || start <= a < start + len
    {
      CoversOne(Block(start, len), a);
      assert Covers(free[lo..hi], a) ==> start <= a < start + len;
    }
  }

  // ---------------------------------------------------------------------------------------------
  // Held blocks
  // ---------------------------------------------------------------------------------------------

  /** Held blocks are inside the region, aligned, not empty and do not overlap. */
  ghost predicate Apart(base: nat, size: nat, align: nat, held: map<nat, nat>)
    requires align > 0
  {
    && (forall s :: s in held ==> base <= s && held[s] > 0 && s + held[s] <= base + size)
    && (forall s :: s in held ==> (s - base) % align == 0 && held[s] % align == 0)
    && (forall s, t :: s in held && t in held && s < t ==> s + held[s] <= t)
  }

  lemma HoldsInsert(held: map<nat, nat>, addr: nat, len: nat)
    requires addr !in held
    ensures forall a :: Holds(held[addr := len], a) <==> Holds(held, a) || addr <= a < addr + len
  {
    var h := held[addr := len];
    forall a
      ensures Holds(h, a) <==> Holds(held, a) || addr <= a < addr + len
    {
      if Holds(held, a) {
        var s :| s in held && s <= a < s + held[s];
        assert s in h && h[s] == held[s];
      }
      if addr <= a < addr + len {
        assert addr in h;
      }
    }
  }

  lemma HoldsRemove(base: nat, size: nat, align: nat, held: map<nat, nat>, addr: nat)
    requires align > 0 && Apart(base, size, align, held) && addr in held
    ensures forall a :: Holds(held - {addr}, a) <==> Holds(held, a) && !(addr <= a < addr + held[addr])
  {
    var h := held - {addr};
    assert held == h[addr := held[addr]];
    HoldsInsert(h, addr, held[addr]);
    forall a | Holds(h, a)
      ensures !(addr <= a < addr + held[addr])
    {
      var s :| s in h && s <= a < s + h[s];
      assert s in held && held[s] == h[s];
      assert s < addr ==> s + held[s] <= addr;
      assert addr < s ==> addr + held[addr] <= s;
    }
  }

  /** A block cut from the free list does not overlap a held one. */
  lemma InsertApart(base: nat, size: nat, align: nat, held: map<nat, nat>, addr: nat, len: nat)
    requires align > 0 && Apart(base, size, align, held)
    requires base <= addr && 0 < len && addr + len <= base + size && (addr - base) % align == 0 && len % align == 0
    requires forall a :: addr <= a < addr + len ==> !Holds(held, a)
    ensures addr !in held && Apart(base, size, align, held[addr := len])
  {
    assert !Holds(held, addr);
    assert addr !in held;
    forall s | s in held
      ensures s < addr ==> s + held[s] <= addr
      ensures addr < s ==> addr + len <= s
    {
      assert s < addr < s + held[s] ==> Holds(held, addr);
      assert addr < s < addr + len ==> Holds(held, s);
    }
  }

  /** The allocator's invariant, over the values of its fields. */
  ghost predicate Consistent(base: nat, size: nat, align: nat, free: seq<Block>, live: map<nat, nat>,
                             detached: map<nat, nat>) {
    && align > 0
    && live.Keys !! detached.Keys
    && Apart(base, size, align, live + detached)
    && IsFreeList(base, size, live + detached, free)
    && AlignedBlocks(base, align, free)
  }

  /** Consistent, stated so that the verifier looks inside only where that is mentioned. */
  ghost predicate InOrder(base: nat, size: nat, align: nat, free: seq<Block>, live: map<nat, nat>,
                          detached: map<nat, nat>) {
    forall d {:trigger Consistent(base, size, align, free, live, d)} ::
        d == detached ==> Consistent(base, size, align, free, live, d)
  }

  ghost predicate AlignedBlocks(base: nat, align: nat, free: seq<Block>)
    requires align > 0
  {
    forall i :: 0 <= i < |free| ==> free[i].start >= base && (free[i].start - base) % align == 0
  }

  lemma TakesFirst(free: seq<Block>, i: nat, need: nat)
    requires Canonical(free) && i < |free| && 0 < need <= free[i].len
    requires forall j :: 0 <= j < i ==> free[j].len < need
    ensures Fits(free, free[i].start, need)
    ensures forall a: nat :: a < free[i].start ==> !Fits(free, a, need)
  {
    forall a: nat | a < free[i].start
      ensures !Fits(free, a, need)
    {
      if Fits(free, a, need) {
        var j := FitsOneBlock(free, a, need);
      }
    }
  }

  lemma NothingFits(free: seq<Block>, need: nat)
    requires Canonical(free) && need > 0 && forall j :: 0 <= j < |free| ==> free[j].len < need
    ensures forall a: nat :: !Fits(free, a, need)
  {
    forall a: nat
      ensures !Fits(free, a, need)
    {
      if Fits(free, a, need) {
        var j := FitsOneBlock(free, a, need);
      }
    }
  }

  lemma ModAdd(x: int, y: int, align: nat)
    requires align > 0 && x % align == 0 && y % align == 0
    ensures (x + y) % align == 0
  {
    assert x == align * (x / align) && y == align * (y / align);
    assert x + y == (x / align + y / align) * align;
    MulMod(x / align + y / align, align);
  }

  lemma CutAligned(free: seq<Block>, base: nat, align: nat, i: nat, need: nat)
    requires align > 0 && i < |free| && need <= free[i].len && need % align == 0
    requires AlignedBlocks(base, align, free)
    ensures AlignedBlocks(base, align, TakeFront(free, i, need))
  {
    var r := TakeFront(free, i, need);
    ModAdd(free[i].start - base, need, align);
    forall j | 0 <= j < |r|
      ensures r[j].start >= base && (r[j].start - base) % align == 0
    {
      assert r[j] == Block(free[i].start + need, free[i].len - need) || r[j] in free;
    }
  }

  lemma SpliceAligned(free: seq<Block>, base: nat, align: nat, lo: nat, hi: nat, start: nat, len: nat)
    requires align > 0 && lo <= hi <= |free| && base <= start && (start - base) % align == 0
    requires AlignedBlocks(base, align, free)
    ensures AlignedBlocks(base, align, Splice(free, lo, hi, start, len))
  {
    var r := Splice(free, lo, hi, start, len);
    forall j | 0 <= j < |r|
      ensures r[j].start >= base && (r[j].start - base) % align == 0
    {
      assert r[j] == Block(start, len) || r[j] in free;
    }
  }

  /** Merging neighbours adds no address beyond the released block. */
  lemma ReleaseCovers(was: seq<Block>, now: seq<Block>, addr: nat, len: nat, lo: nat, hi: nat, start: nat, stop: nat)
    requires start <= addr && addr + len <= stop && lo <= hi <= |was|
    requires start < addr ==> lo < |was| && was[lo] == Block(start, addr - start)
    requires addr + len < stop ==> 0 < hi && was[hi - 1] == Block(addr + len, stop - addr - len)
    requires forall a :: Covers(now, a) <==> Covers(was, a) || start <= a < stop
    ensures forall a :: Covers(now, a) <==> Covers(was, a) || addr <= a < addr + len
  {
  }

  lemma AllocKeeps(base: nat, size: nat, align: nat, free: seq<Block>, live: map<nat, nat>, detached: map<nat, nat>,
                   i: nat, need: nat)
    requires Consistent(base, size, align, free, live, detached)
    requires i < |free| && 0 < need <= free[i].len && need % align == 0
    ensures free[i].start !in live && free[i].start !in detached
    ensures Consistent(base, size, align, TakeFront(free, i, need), live[free[i].start := need], detached)
  {
    var addr, held := free[i].start, live + detached;
    forall a | addr <= a < addr + need
      ensures base <= a < base + size && !Holds(held, a)
    {
      assert Covers(free, a);
    }
    assert Covers(free, addr + need - 1);
    InsertApart(base, size, align, held, addr, need);
    TakeFrontCovers(free, i, need);
    CutAligned(free, base, align, i, need);
    HoldsInsert(held, addr, need);
    assert live[addr := need] + detached == held[addr := need];
  }

  lemma DetachKeeps(base: nat, size: nat, align: nat, free: seq<Block>, live: map<nat, nat>, detached: map<nat, nat>,
                    addr: nat)
    requires Consistent(base, size, align, free, live, detached) && addr in live
    ensures Consistent(base, size, align, free, live - {addr}, detached[addr := live[addr]])
  {
    assert (live - {addr}) + detached[addr := live[addr]] == live + detached;
  }

  /** A held block sits strictly between the free blocks around it. */
  lemma ReleaseGaps(base: nat, size: nat, align: nat, free: seq<Block>, live: map<nat, nat>, detached: map<nat, nat>,
                    addr: nat, next: nat)
    requires Consistent(base, size, align, free, live, detached) && addr in detached && next <= |free|
    requires forall j :: 0 <= j < next ==> free[j].start < addr
    requires forall j :: next <= j < |free| ==> addr <= free[j].start
    ensures base <= addr && (addr - base) % align == 0 && detached[addr] > 0
    ensures next < |free| ==> addr + detached[addr] <= free[next].start
    ensures next > 0 ==> free[next - 1].start + free[next - 1].len <= addr
  {
    var held := live + detached;
    assert held[addr] == detached[addr];
    assert Holds(held, addr);
    assert !Covers(free, addr);
    if next < |free| {
      assert Covers(free, free[next].start);
      assert !Holds(held, free[next].start);
    }
  }

  /** Merging with the neighbours that touch the block gives a canonical list again. */
  lemma Merged(base: nat, align: nat, free: seq<Block>, addr: nat, len: nat, next: nat, lo: nat, hi: nat, start: nat,
               stop: nat)
    requires align > 0 && Canonical(free) && AlignedBlocks(base, align, free) && base <= addr
             && (addr - base) % align == 0
    requires len > 0 && next <= |free|
    requires next < |free| ==> addr + len <= free[next].start
    requires next > 0 ==> free[next - 1].start + free[next - 1].len <= addr
    requires (hi, stop) == if next < |free| && free[next].start == addr + len
             then (next + 1, addr + len + free[next].len) else (next, addr + len)
    requires (lo, start) == if next > 0 && free[next - 1].start + free[next - 1].len == addr
             then (next - 1, free[next - 1].start) else (next, addr)
    ensures var now := Splice(free, lo, hi, start, stop - start);
            && Canonical(now) && AlignedBlocks(base, align, now)
            && forall a :: Covers(now, a) <==> Covers(free, a) || addr <= a < addr + len
  {
    var now := Splice(free, lo, hi, start, stop - start);
    assert AlignedBlocks(base, align, now) by {
      SpliceAligned(free, base, align, lo, hi, start, stop - start);
    }
    SpliceCovers(free, lo, hi, start, stop - start);
    ReleaseCovers(free, now, addr, len, lo, hi, start, stop);
  }

  lemma ReleaseKeeps(base: nat, size: nat, align: nat, free: seq<Block>, free': seq<Block>, live: map<nat, nat>,
                     detached: map<nat, nat>, addr: nat)
    requires Consistent(base, size, align, free, live, detached) && addr in detached
    requires Canonical(free') && AlignedBlocks(base, align, free')
    requires forall a :: Covers(free', a) <==> Covers(free, a) || addr <= a < addr + detached[addr]
    ensures Consistent(base, size, align, free', live, detached - {addr})
  {
    var held := live + detached;
    assert live + (detached - {addr}) == held - {addr};
    assert held[addr] == detached[addr];
    HoldsRemove(base, size, align, held, addr);
  }

  // ---------------------------------------------------------------------------------------------
  // Conservation
  // ---------------------------------------------------------------------------------------------

  ghost function Interval(lo: int, hi: int): (r: set<int>)
    requires lo <= hi
    ensures forall a :: a in r <==> lo <= a < hi
    ensures |r| == hi - lo
    decreases hi - lo
  {
    if lo == hi then {} else Interval(lo, hi - 1) + {hi - 1}
  }

  ghost function HeldAddresses(base: nat, size: nat, held: map<nat, nat>): (r: set<int>) {
    set a | base <= a < base + size && Holds(held, a)
  }

  lemma SplitAddresses(base: nat, size: nat, held: map<nat, nat>, rest: map<nat, nat>, lo: int, hi: int)
    requires base <= lo <= hi <= base + size
    requires forall a :: Holds(rest, a) <==> Holds(held, a) && !(lo <= a < hi)
    requires forall a :: lo <= a < hi ==> Holds(held, a)
    ensures |HeldAddresses(base, size, held)| == |HeldAddresses(base, size, rest)| + hi - lo
  {
    var x, y, z := HeldAddresses(base, size, held), HeldAddresses(base, size, rest), Interval(lo, hi);
    assert x == y + z;
    assert y !! z;
  }

  /** Summing block sizes counts held addresses, because held blocks do not overlap. */
  lemma {:induction false} SumCounts(base: nat, size: nat, align: nat, held: map<nat, nat>)
    requires align > 0 && Apart(base, size, align, held)
    ensures Sum(held) == |HeldAddresses(base, size, held)|
    decreases |held|
  {
    if held == map[] {
      assert HeldAddresses(base, size, held) == {};
    } else {
      var k :| k in held;
      var rest := held - {k};
      assert |rest| < |held| by { assert held.Keys == rest.Keys + {k}; }
      SumCounts(base, size, align, rest);
      SumRemove(held, k);
      HoldsRemove(base, size, align, held, k);
      SplitAddresses(base, size, held, rest, k, k + held[k]);
    }
  }

  /** A free block of an aligned region is at least one unit of alignment long. */
  lemma FreeBlockFits(base: nat, size: nat, align: nat, free: seq<Block>, live: map<nat, nat>, detached: map<nat, nat>,
                      i: nat)
    requires Consistent(base, size, align, free, live, detached) && size % align == 0 && i < |free|
    ensures free[i].len >= align
  {
    var held, b := live + detached, free[i];
    var e := b.start + b.len;
    assert Covers(free, e - 1);
    assert !Covers(free, e) by {
      assert forall j :: i < j < |free| ==> e < free[j].start;
      assert forall j :: 0 <= j < i ==> free[j].start + free[j].len < b.start;
    }
    assert (e - base) % align == 0 by {
      if e < base + size {
        var s :| s in held && s <= e < s + held[s];
        assert !Holds(held, e - 1);
      }
    }
    ModAdd(e - base, -(b.start - base), align) by {
      NegMod(b.start - base, align);
    }
    SmallMod(b.len, align);
  }

  lemma SmallMod(x: nat, align: nat)
    requires align > 0 && x % align == 0 && x > 0
    ensures x >= align
  {
    assert x == align * (x / align);
  }

  lemma NegMod(x: int, align: nat)
    requires align > 0 && x % align == 0
    ensures (-x) % align == 0
  {
    assert x == align * (x / align);
    assert -x == (-(x / align)) * align;
    MulMod(-(x / align), align);
  }

  /** One unit can be allocated exactly while the region is not full. */
  lemma FullIffNothingFits(base: nat, size: nat, align: nat, free: seq<Block>, live: map<nat, nat>)
    requires Consistent(base, size, align, free, live, map[]) && size % align == 0
    ensures Sum(live) <= size
    ensures (forall a: nat :: !Fits(free, a, align)) <==> Sum(live) == size
  {
    assert live + map[] == live;
    SumCounts(base, size, align, live);
    var all := Interval(base, base + size);
    assert HeldAddresses(base, size, live) <= all;
    SubsetSize(HeldAddresses(base, size, live), all);
    if free == [] {
      assert forall a :: !Covers(free, a);
      assert HeldAddresses(base, size, live) == all;
      assert forall a: nat :: Fits(free, a, align) ==> Covers(free, a);
    } else {
      FreeBlockFits(base, size, align, free, live, map[], 0);
      FrontFits(free, align);
      assert free[0].start in all && free[0].start !in HeldAddresses(base, size, live);
    }
  }

  lemma FrontFits(free: seq<Block>, need: nat)
    requires free != [] && 0 < need <= free[0].len
    ensures Fits(free, free[0].start, need) && Covers(free, free[0].start)
  {
  }

  class VramAllocator {
    const align: nat
    ghost const base: nat
    ghost const size: nat
    var free: seq<Block>
    var live: map<nat, nat>
    var liveBytes: nat
    /** Blocks between `detach` and `release`: not live, not free. */
    ghost var detached: map<nat, nat>

    ghost predicate Valid()
      reads this
    {
      align > 0 && InOrder(base, size, align, free, live, detached) && liveBytes == Sum(live)
    }

    constructor (base: nat, size: nat, align: nat)
      requires size > 0 && align > 0
      ensures Valid() && this.base == base && this.size == size && this.align == align
      ensures live == map[] && detached == map[]
    {
      this.base, this.size, this.align := base, size, align;
      free := [Block(base, size)];
      live, liveBytes, detached := map[], 0, map[];
      new;
      forall a
        ensures Covers(free, a) <==> base <= a < base + size
      {
        CoversOne(Block(base, size), a);
      }
    }

    /** First fit: fails exactly when no free gap holds the rounded size, and otherwise takes the
        lowest address at which it fits. */
    method Alloc(bytes: nat) returns (r: Option<nat>)
      requires Valid()
      modifies this
      ensures Valid() && detached == old(detached)
      ensures r.None? <==> bytes == 0 || (forall a: nat :: !Fits(old(free), a, Round(bytes, align)))
      ensures r.None? ==> live == old(live) && free == old(free)
      ensures r.Some? ==> Fits(old(free), r.value, Round(bytes, align))
      ensures r.Some? ==> forall a: nat :: a < r.value ==> !Fits(old(free), a, Round(bytes, align))
      ensures r.Some? ==> r.value !in old(live) && r.value !in old(detached)
      ensures r.Some? ==> live == old(live)[r.value := Round(bytes, align)]
    {
      assert Consistent(base, size, align, free, live, detached);
      if bytes == 0 {
        return None;
      }
      var need := (bytes + align - 1) / align * align;
      RoundLeast(bytes, align, 0);
      var i := 0;
      while i < |free|
        invariant 0 <= i <= |free|
        invariant forall j :: 0 <= j < i ==> free[j].len < need
      {
        if free[i].len >= need {
          var addr := free[i].start;
          TakesFirst(free, i, need);
          AllocKeeps(base, size, align, free, live, detached, i, need);
          SumInsert(live, addr, need);
          free := TakeFront(free, i, need);
          live := live[addr := need];
          liveBytes := liveBytes + need;
          return Some(addr);
        }
        i := i + 1;
      }
      NothingFits(free, need);
      r := None;
    }

    method Free(addr: nat) returns (ok: bool)
      requires Valid()
      modifies this
      ensures Valid() && detached == old(detached)
      ensures ok <==> addr in old(live)
      ensures live == old(live) - {addr}
    {
      assert Consistent(base, size, align, free, live, detached);
      assert addr in live ==> addr !in detached;
      var len;
      ok, len := Detach(addr);
      if ok {
        Release(addr, len);
        assert detached == old(detached);
      }
    }

    /** Takes a block out of the live set without making it free. */
    method Detach(addr: nat) returns (ok: bool, len: nat)
      requires Valid()
      modifies this`live, this`liveBytes, this`detached
      ensures Valid()
      ensures ok <==> addr in old(live)
      ensures ok ==> len == old(live)[addr] && detached == old(detached)[addr := len]
      ensures !ok ==> detached == old(detached)
      ensures live == old(live) - {addr}
    {
      assert Consistent(base, size, align, free, live, detached);
      if addr !in live {
        assert live == live - {addr};
        return false, 0;
      }
      len := live[addr];
      SumRemove(live, addr);
      DetachKeeps(base, size, align, free, live, detached, addr);
      live := live - {addr};
      liveBytes := liveBytes - len;
      detached := detached[addr := len];
      ok := true;
    }

    /** Returns a detached block to the free list and merges it with its neighbours. */
    method Release(addr: nat, len: nat)
      requires Valid() && addr in detached && detached[addr] == len
      modifies this`free, this`detached
      ensures Valid() && live == old(live) && detached == old(detached) - {addr}
    {
      assert Consistent(base, size, align, free, live, detached);
      var next := LowerBound(addr);
      ReleaseGaps(base, size, align, free, live, detached, addr, next);
      var lo, hi, start, stop := next, next, addr, addr + len;
      if hi < |free| && free[hi].start == stop {
        stop := stop + free[hi].len;
        hi := hi + 1;
      }
      if lo > 0 && free[lo - 1].start + free[lo - 1].len == start {
        lo := lo - 1;
        start := free[lo].start;
      }
      var now := Splice(free, lo, hi, start, stop - start);
      assert Consistent(base, size, align, now, live, detached - {addr}) by {
        Merged(base, align, free, addr, len, next, lo, hi, start, stop);
        ReleaseKeeps(base, size, align, free, now, live, detached, addr);
      }
      free := now;
      detached := detached - {addr};
    }

    /** std::map::lower_bound on the ordered free blocks. */
    method LowerBound(start: nat) returns (j: nat)
      requires Canonical(free)
      ensures j <= |free|
      ensures forall i :: 0 <= i < j ==> free[i].start < start
      ensures forall i :: j <= i < |free| ==> start <= free[i].start
    {
      j := 0;
      while j < |free| && free[j].start < start
        invariant j <= |free| && forall i :: 0 <= i < j ==> free[i].start < start
      {
        j := j + 1;
      }
    }

    /** True exactly when [addr, addr + len) lies inside one live allocation. */
    method OwnsRange(addr: nat, len: nat) returns (r: bool)
      ensures r <==> exists s :: s in live && s <= addr && addr + len <= s + live[s]
    {
      var todo := live.Keys;
      while todo != {}
        invariant todo <= live.Keys
        invariant forall s :: s in live && s <= addr && addr + len <= s + live[s] ==> s in todo
        decreases todo
      {
        var s :| s in todo;
        if addr >= s && addr - s <= live[s] && len <= live[s] - (addr - s) {
          return true;
        }
        todo := todo - {s};
      }
      r := false;
    }

    /** With nothing detached, one unit of alignment fits exactly while the region is not full. */
    lemma UnitFits()
      requires Valid() && detached == map[] && size % align == 0
      ensures Apart(base, size, align, live) && liveBytes == Sum(live) <= size && Round(align, align) == align
      ensures (forall a: nat :: !Fits(free, a, Round(align, align))) <==> liveBytes == size
    {
      assert Consistent(base, size, align, free, live, detached);
      assert live + map[] == live;
      RoundLeast(align, align, 1);
      FullIffNothingFits(base, size, align, free, live);
    }

    /** `alloc` of one page, as migration uses it: it fails exactly when every byte is live. */
    method AllocUnit() returns (r: Option<nat>)
      requires Valid() && detached == map[] && size % align == 0
      modifies this
      ensures Valid() && detached == map[]
      ensures r.None? <==> Sum(old(live)) == size
      ensures if r.Some? then r.value !in old(live) && live == old(live)[r.value := align] else live == old(live)
      ensures Apart(base, size, align, live)
    {
      UnitFits();
      r := Alloc(align);
      UnitFits();
    }

    /** Allocating and freeing again leaves the free list exactly as it was. */
    method AllocThenFree(bytes: nat)
      requires Valid()
      modifies this
      ensures Valid() && free == old(free) && live == old(live) && detached == old(detached)
    {
      assert Consistent(base, size, align, free, live, detached);
      var r := Alloc(bytes);
      if r.Some? {
        var ok := Free(r.value);
        assert live == old(live);
      }
      assert Consistent(base, size, align, free, live, detached);
      FreeListUnique(base, size, live + detached, free, old(free));
    }
  }
}
