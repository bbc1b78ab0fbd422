/**
  The MMU with whole operations, one after the other: page table, one TLB per engine, shootdowns, and the
  replacement of TLB entries. Module Shootdown has the same operations access by access.
*/
module Tlb {
  import opened Base
  import opened Modular

  const TLB_ENTRIES: nat := 64

  datatype Pte = Pte(present: bool, inVram: bool, dirty: bool, accessed: bool, frame: nat)

  const ABSENT := Pte(false, false, false, false, 0)

  datatype Translation = Ok(frame: nat) | NotPresent | HostResident

  /** `vpn` is None in an empty entry. */
  datatype Entry = Entry(vpn: Option<nat>, pte: Pte, lastUsed: nat)

  datatype EngineTlb = EngineTlb(entries: seq<Entry>, clock: nat)

  // ---------------------------------------------------------------------------------------------
  // What a translation is
  // ---------------------------------------------------------------------------------------------

  /** A bare walk of the page table. */
  function Walked(table: seq<Pte>, vpn: nat): (r: Translation) {
    if vpn >= |table| || !table[vpn].present then NotPresent
    else if !table[vpn].inVram then HostResident
    else Ok(table[vpn].frame)
  }

  /** An entry repeats what the table says, and has DIRTY only if the table has. */
  ghost predicate EntryOk(table: seq<Pte>, x: Entry) {
    x.vpn.Some? ==>
      && x.pte.present && x.pte.inVram
      && Walked(table, x.vpn.value) == Ok(x.pte.frame)
      && (x.pte.dirty ==> table[x.vpn.value].dirty)
  }

  ghost predicate Distinct(entries: seq<Entry>) {
    forall i, j :: 0 <= i < j < |entries| && entries[i].vpn.Some? ==> entries[i].vpn != entries[j].vpn
  }

  /** Entries were used before now. */
  ghost predicate Timed(t: EngineTlb) {
    t.clock > 0 && forall i :: 0 <= i < |t.entries| && t.entries[i].vpn.Some? ==> 1 <= t.entries[i].lastUsed < t.clock
  }

  ghost predicate TlbOk(table: seq<Pte>, t: EngineTlb) {
    && |t.entries| == TLB_ENTRIES && Distinct(t.entries) && Timed(t)
    && forall i :: 0 <= i < |t.entries| ==> EntryOk(table, t.entries[i])
  }

  ghost predicate Holds(t: EngineTlb, vpn: nat) {
    exists i :: 0 <= i < |t.entries| && t.entries[i].vpn == Some(vpn)
  }

  // ---------------------------------------------------------------------------------------------
  // Replacement
  // ---------------------------------------------------------------------------------------------

  /** The first empty entry, or else the one used longest ago. */
  ghost predicate IsVictim(entries: seq<Entry>, slot: nat) {
    && slot < |entries|
    && if entries[slot].vpn.None? then forall j :: 0 <= j < slot ==> entries[j].vpn.Some?
       else forall j :: 0 <= j < |entries| ==> entries[j].vpn.Some? && entries[slot].lastUsed <= entries[j].lastUsed
  }

  /** A translation of `vpn` has gone through the TLB and left `pte` in it. */
  ghost predicate Touches(t: EngineTlb, t': EngineTlb, vpn: nat, pte: Pte) {
    && t'.clock == t.clock + 1
    && exists slot: nat ::
        Replaces(t, t', vpn, pte, slot)
        && if Holds(t, vpn) then t.entries[slot].vpn == Some(vpn) else IsVictim(t.entries, slot)
  }

  ghost predicate Replaces(t: EngineTlb, t': EngineTlb, vpn: nat, pte: Pte, slot: nat) {
    slot < |t.entries| && t'.entries == t.entries[slot := Entry(Some(vpn), pte, t.clock)]
  }

  /** When `vpn` was last used in a history of translations: 0 for never, else its position plus one. */
  ghost function Stamp(h: seq<nat>, vpn: nat): (r: nat)
    ensures r <= |h| && (r == 0 <==> vpn !in h) && (r > 0 ==> h[r - 1] == vpn)
            && forall k :: r <= k < |h| ==> h[k] != vpn
  {
    if h == [] then 0
    else if h[|h| - 1] == vpn then |h|
    else
      assert h == h[..|h| - 1] + [h[|h| - 1]];
      Stamp(h[..|h| - 1], vpn)
  }

  lemma StampGrows(h: seq<nat>, vpn: nat, u: nat)
    ensures Stamp(h + [vpn], u) == if u == vpn then |h| + 1 else Stamp(h, u)
  {
    assert (h + [vpn])[..|h|] == h;
  }

  /**
    What the TLB holds after the translations `h`, of which the first was made at time `base`. Entries for pages of `h`
    carry the time of their last use, all others are older; and whatever page of `h` is not held was used before
    everything that is, and found the TLB full.
  */
  ghost predicate Lru(t: EngineTlb, h: seq<nat>, base: nat) {
    && |t.entries| == TLB_ENTRIES && base > 0 && t.clock == base + |h| && Distinct(t.entries)
    && (forall i :: 0 <= i < |t.entries| && t.entries[i].vpn.Some? ==> UsedAt(t.entries[i], h, base))
    && (forall v, i :: v in h && !Holds(t, v) && 0 <= i < |t.entries| ==> NewerThan(t.entries[i], h, base, v))
  }

  ghost predicate UsedAt(x: Entry, h: seq<nat>, base: nat)
    requires x.vpn.Some?
  {
    if x.vpn.value in h then x.lastUsed + 1 == base + Stamp(h, x.vpn.value) else 1 <= x.lastUsed < base
  }

  ghost predicate NewerThan(x: Entry, h: seq<nat>, base: nat, v: nat) {
    x.vpn.Some? && base + Stamp(h, v) <= x.lastUsed
  }

  /** Before any translation, whatever the TLB holds is old. */
  lemma StartsLru(t: EngineTlb)
    requires |t.entries| == TLB_ENTRIES && Distinct(t.entries) && Timed(t)
    ensures Lru(t, [], t.clock)
  {
  }

  lemma TouchedEntry(t: EngineTlb, t': EngineTlb, h: seq<nat>, base: nat, vpn: nat, pte: Pte, slot: nat, i: nat)
    requires Lru(t, h, base) && Replaces(t, t', vpn, pte, slot) && i < |t.entries|
             && (i != slot ==> t.entries[i].vpn != Some(vpn))
    ensures t'.entries[i].vpn.Some? ==> UsedAt(t'.entries[i], h + [vpn], base)
  {
    if t'.entries[i].vpn.Some? {
      StampGrows(h, vpn, t'.entries[i].vpn.value);
    }
  }

  /** A page that is not held after the translation was not held before, or is the victim. */
  lemma TouchedOut(t: EngineTlb, t': EngineTlb, h: seq<nat>, base: nat, vpn: nat, pte: Pte, slot: nat, v: nat, i: nat)
    requires Lru(t, h, base) && Replaces(t, t', vpn, pte, slot) && i < |t.entries|
    requires if Holds(t, vpn) then t.entries[slot].vpn == Some(vpn) else IsVictim(t.entries, slot)
    requires v in h + [vpn] && !Holds(t', v)
    ensures NewerThan(t'.entries[i], h + [vpn], base, v)
  {
    assert v != vpn by {
      assert t'.entries[slot].vpn == Some(vpn);
    }
    StampGrows(h, vpn, v);
    if Holds(t, v) {
      var j :| 0 <= j < |t.entries| && t.entries[j].vpn == Some(v);
      assert j == slot by {
        assert t'.entries[j].vpn != Some(v);
      }
      assert !Holds(t, vpn);
      assert i != slot ==> t.entries[i].vpn != t.entries[slot].vpn;
      if i != slot && t.entries[i].vpn.value in h {
        StampsDiffer(h, v, t.entries[i].vpn.value);
      }
    }
  }

  lemma StampsDiffer(h: seq<nat>, u: nat, v: nat)
    requires u in h && u != v
    ensures Stamp(h, u) != Stamp(h, v)
  {
  }

  /** A translation keeps the TLB least-recently-used. */
  lemma TouchKeepsLru(t: EngineTlb, t': EngineTlb, h: seq<nat>, base: nat, vpn: nat, pte: Pte)
    requires Lru(t, h, base) && Touches(t, t', vpn, pte)
    ensures Lru(t', h + [vpn], base) && Holds(t', vpn) && forall v :: Holds(t', v) ==> v == vpn || Holds(t, v)
  {
    var slot: nat :| Replaces(t, t', vpn, pte, slot)
        && if Holds(t, vpn) then t.entries[slot].vpn == Some(vpn) else IsVictim(t.entries, slot);
    TouchKeepsDistinct(t, t', vpn, pte, slot);
    assert t'.entries[slot].vpn == Some(vpn);
    forall i | 0 <= i < |t'.entries| && t'.entries[i].vpn.Some?
      ensures UsedAt(t'.entries[i], h + [vpn], base)
    {
      assert i != slot ==> t'.entries[i].vpn != t'.entries[slot].vpn;
      TouchedEntry(t, t', h, base, vpn, pte, slot, i);
    }
    forall v, i | v in h + [vpn] && !Holds(t', v) && 0 <= i < |t'.entries|
      ensures NewerThan(t'.entries[i], h + [vpn], base, v)
    {
      TouchedOut(t, t', h, base, vpn, pte, slot, v, i);
    }
  }

  lemma TouchKeepsDistinct(t: EngineTlb, t': EngineTlb, vpn: nat, pte: Pte, slot: nat)
    requires Distinct(t.entries) && Replaces(t, t', vpn, pte, slot)
             && (Holds(t, vpn) ==> t.entries[slot].vpn == Some(vpn))
    ensures Distinct(t'.entries)
  {
    forall i, j | 0 <= i < j < |t'.entries| && t'.entries[i].vpn.Some?
      ensures t'.entries[i].vpn != t'.entries[j].vpn
    {
      assert i != slot ==> t.entries[i].vpn == Some(vpn) ==> Holds(t, vpn);
      assert j != slot ==> t.entries[j].vpn == Some(vpn) ==> Holds(t, vpn);
    }
  }

  // ---------------------------------------------------------------------------------------------
  // Which translations hit
  // ---------------------------------------------------------------------------------------------

  /** The distinct pages used since the last use of `vpn`. */
  ghost function Since(h: seq<nat>, vpn: nat): (r: set<nat>) {
    set k | Stamp(h, vpn) <= k < |h| :: h[k]
  }

  ghost function Held(entries: seq<Entry>): (r: set<nat>) {
    set i | 0 <= i < |entries| && entries[i].vpn.Some? :: entries[i].vpn.value
  }

  lemma HeldSplits(entries: seq<Entry>, n: nat)
    requires Distinct(entries) && n + 1 == |entries|
    ensures Held(entries) == Held(entries[..n]) + if entries[n].vpn.Some? then {entries[n].vpn.value} else {}
    ensures entries[n].vpn.Some? ==> entries[n].vpn.value !in Held(entries[..n])
  {
    assert entries == entries[..n] + [entries[n]];
  }

  lemma {:induction false} HeldSize(entries: seq<Entry>)
    requires Distinct(entries)
    ensures |Held(entries)| <= |entries|
            && ((forall i :: 0 <= i < |entries| ==> entries[i].vpn.Some?) ==> |Held(entries)| == |entries|)
  {
    if entries == [] {
      assert Held(entries) == {};
    } else {
      HeldSize(entries[..|entries| - 1]);
      HeldSplits(entries, |entries| - 1);
    }
  }

  lemma SinceIs(h: seq<nat>, vpn: nat, u: nat)
    ensures u in Since(h, vpn) <==> Stamp(h, u) > Stamp(h, vpn)
  {
    if u in Since(h, vpn) {
      var k :| Stamp(h, vpn) <= k < |h| && h[k] == u;
      assert Stamp(h, u) > k;
    }
    if Stamp(h, u) > Stamp(h, vpn) {
      assert h[Stamp(h, u) - 1] == u;
    }
  }

  lemma HeldIs(t: EngineTlb, vpn: nat)
    ensures vpn in Held(t.entries) <==> Holds(t, vpn)
  {
  }

  /** The LRU law: a page is held exactly if fewer than 64 other pages were used since its last use. From the start of
      an empty TLB, that means a page that was used at all. */
  lemma HeldIff(t: EngineTlb, h: seq<nat>, base: nat, vpn: nat)
    requires Lru(t, h, base)
    ensures vpn in h ==> (Holds(t, vpn) <==> |Since(h, vpn)| < TLB_ENTRIES)
    ensures base == 1 && Holds(t, vpn) ==> vpn in h
  {
    HeldSize(t.entries);
    var held, since := Held(t.entries), Since(h, vpn);
    if Holds(t, vpn) && vpn in h {
      var i :| 0 <= i < |t.entries| && t.entries[i].vpn == Some(vpn);
      forall u | u in since
        ensures u in held - {vpn}
      {
        SinceIs(h, vpn, u);
        HeldIs(t, u);
      }
      HeldIs(t, vpn);
      SubsetSize(since, held - {vpn});
    } else if vpn in h {
      assert forall i :: 0 <= i < |t.entries| ==> t.entries[i].vpn.Some?;
      forall u | u in held
        ensures u in since
      {
        HeldIs(t, u);
        var i :| 0 <= i < |t.entries| && t.entries[i].vpn == Some(u);
        assert NewerThan(t.entries[i], h, base, vpn);
        SinceIs(h, vpn, u);
      }
      SubsetSize(held, since);
    }
  }

  /** The history is a walk round and round over `pages`. */
  ghost predicate Cyclic(h: seq<nat>, pages: seq<nat>) {
    Unequal(pages) && forall k :: 0 <= k < |h| ==> h[k] == pages[k % |pages|]
  }

  /** Within one round no page comes twice. */
  lemma RoundDistinct(h: seq<nat>, pages: seq<nat>, i: nat, j: nat)
    requires Cyclic(h, pages) && i < j < i + |pages| && j <= |h|
    ensures h[i] != pages[j % |pages|]
  {
    SlotsDiffer(|pages|, i, j);
    var n := |pages|;
    assert i % n < j % n || j % n < i % n;
  }

  lemma {:induction false} ElementsSize(s: seq<nat>)
    requires forall i, j :: 0 <= i < j < |s| ==> s[i] != s[j]
    ensures |set k | 0 <= k < |s| :: s[k]| == |s|
  {
    if s != [] {
      var n := |s| - 1;
      ElementsSize(s[..n]);
      assert (set k | 0 <= k < |s| :: s[k]) == (set k | 0 <= k < |s[..n]| :: s[..n][k]) + {s[n]};
    }
  }

  lemma CyclicSince(h: seq<nat>, pages: seq<nat>, vpn: nat)
    requires Cyclic(h, pages) && |h| >= |pages| && vpn == pages[|h| % |pages|]
    ensures vpn in h && |Since(h, vpn)| == |pages| - 1
  {
    var n := |pages|;
    var m := |h| - n;
    SameSlot(m, n);
    assert h[m] == vpn;
    forall k | m < k < |h|
      ensures h[k] != vpn
    {
      RoundDistinct(h, pages, k, |h|);
    }
    assert Stamp(h, vpn) == m + 1;
    var last := h[m + 1..];
    forall i, j | 0 <= i < j < |last|
      ensures last[i] != last[j]
    {
      RoundDistinct(h, pages, m + 1 + i, m + 1 + j);
    }
    ElementsSize(last);
    assert Since(h, vpn) == set k | 0 <= k < |last| :: last[k] by {
      assert forall k :: m + 1 <= k < |h| ==> h[k] == last[k - (m + 1)];
    }
  }

  /** Passes over at most 64 pages hit from the second pass on; cyclic passes over more always miss. */
  lemma CyclicHitsIff(t: EngineTlb, h: seq<nat>, base: nat, pages: seq<nat>)
    requires Lru(t, h, base) && Cyclic(h, pages)
    ensures |h| >= |pages| ==> (Holds(t, pages[|h| % |pages|]) <==> |pages| <= TLB_ENTRIES)
    ensures |h| < |pages| && base == 1 ==> !Holds(t, pages[|h| % |pages|])
  {
    var vpn := pages[|h| % |pages|];
    HeldIff(t, h, base, vpn);
    if |h| >= |pages| {
      CyclicSince(h, pages, vpn);
    } else {
      assert vpn !in h by {
        ModIs(|h|, |pages|, 0, |h|);
        forall k | 0 <= k < |h|
          ensures h[k] != vpn
        {
          RoundDistinct(h, pages, k, |h|);
        }
      }
    }
  }

  ghost predicate Unequal(pages: seq<nat>) {
    pages != [] && forall i, j :: 0 <= i < j < |pages| ==> pages[i] != pages[j]
  }

  /** One more step of the walk. */
  lemma CyclicGrows(h: seq<nat>, pages: seq<nat>, start: nat, i: nat)
    requires Cyclic(h, pages) && start % |pages| == 0 && |h| == start + i && i < |pages|
    ensures |h| % |pages| == i && Cyclic(h + [pages[i]], pages)
  {
    ModIs(|h|, |pages|, start / |pages|, i);
  }

  /** The walk is at the end of a round. */
  ghost predicate RoundEnds(h: seq<nat>, pages: seq<nat>) {
    Cyclic(h, pages) && |h| >= |pages| && |h| % |pages| == 0
  }

  lemma RoundAgain(start: nat, n: nat)
    requires n > 0 && start % n == 0
    ensures (start + n) % n == 0
  {
    SameSlot(start, n);
  }

  // ---------------------------------------------------------------------------------------------
  // Shootdown
  // ---------------------------------------------------------------------------------------------

  /** The entry without the page. */
  function ShotEntry(x: Entry, vpn: nat): (r: Entry) {
    if x.vpn == Some(vpn) then x.(vpn := None) else x
  }

  /** The TLB without the page. */
  ghost predicate Shot(t: EngineTlb, t': EngineTlb, vpn: nat) {
    t'.clock == t.clock && |t'.entries| == |t.entries|
        && forall i :: 0 <= i < |t.entries| ==> t'.entries[i] == ShotEntry(t.entries[i], vpn)
  }

  /** The entry is in order, unless it is for one of `stale`. */
  ghost predicate EntryOkBut(table: seq<Pte>, x: Entry, stale: set<nat>) {
    (x.vpn.Some? && x.vpn.value in stale) || EntryOk(table, x)
  }

  ghost predicate TlbOkBut(table: seq<Pte>, t: EngineTlb, stale: set<nat>) {
    && |t.entries| == TLB_ENTRIES && Distinct(t.entries) && Timed(t)
    && forall i :: 0 <= i < |t.entries| ==> EntryOkBut(table, t.entries[i], stale)
  }

  lemma ShotOk(table: seq<Pte>, t: EngineTlb, t': EngineTlb, vpn: nat, stale: set<nat>)
    requires TlbOkBut(table, t, stale) && Shot(t, t', vpn)
    ensures TlbOkBut(table, t', stale - {vpn})
  {
  }

  lemma NothingStale(table: seq<Pte>, t: EngineTlb)
    ensures TlbOkBut(table, t, {}) <==> TlbOk(table, t)
  {
  }

  /** Changing one PTE makes at most the entries for its page stale. */
  lemma StoreMakesStale(table: seq<Pte>, t: EngineTlb, vpn: nat, p: Pte, stale: set<nat>)
    requires TlbOkBut(table, t, stale) && vpn < |table|
    ensures TlbOkBut(table[vpn := p], t, stale + {vpn})
  {
    forall i | 0 <= i < |t.entries|
      ensures EntryOkBut(table[vpn := p], t.entries[i], stale + {vpn})
    {
      assert EntryOkBut(table, t.entries[i], stale);
    }
  }

  /** Setting bits of a PTE makes none stale. */
  lemma MarkKeepsOk(table: seq<Pte>, t: EngineTlb, vpn: nat, p: Pte)
    requires TlbOk(table, t) && vpn < |table| && p == table[vpn].(dirty := p.dirty, accessed := p.accessed)
             && (table[vpn].dirty ==> p.dirty)
    ensures TlbOk(table[vpn := p], t)
  {
    forall i | 0 <= i < |t.entries|
      ensures EntryOk(table[vpn := p], t.entries[i])
    {
      assert EntryOk(table, t.entries[i]);
    }
  }

  lemma ReplaceKeepsOk(table: seq<Pte>, t: EngineTlb, t': EngineTlb, vpn: nat, pte: Pte, slot: nat)
    requires TlbOk(table, t) && Replaces(t, t', vpn, pte, slot) && (Holds(t, vpn) ==> t.entries[slot].vpn == Some(vpn))
    requires EntryOk(table, Entry(Some(vpn), pte, 0)) && t'.clock == t.clock + 1
    ensures TlbOk(table, t')
  {
    TouchKeepsDistinct(t, t', vpn, pte, slot);
    forall i | 0 <= i < |t'.entries|
      ensures EntryOk(table, t'.entries[i])
    {
      assert i != slot ==> EntryOk(table, t.entries[i]);
    }
  }

  ghost predicate AllOkBut(table: seq<Pte>, tlbs: seq<EngineTlb>, stale: set<nat>) {
    forall e :: 0 <= e < |tlbs| ==> TlbOkBut(table, tlbs[e], stale)
  }

  class Mmu {
    const pte: array<Pte>
    const vramPages: nat
    const tlb: array<EngineTlb>
    var hits: nat
    var misses: nat

    ghost predicate Valid()
      reads this, pte, tlb
    {
      AllOkBut(pte[..], tlb[..], {})
    }

    constructor (pages: nat, vramPages: nat, engines: nat)
      ensures Valid() && fresh(pte) && fresh(tlb) && pte.Length == pages && tlb.Length == engines
              && this.vramPages == vramPages
      ensures forall e :: 0 <= e < engines ==> Lru(tlb[e], [], 1) && forall v :: !Holds(tlb[e], v)
      ensures forall v :: 0 <= v < pages ==> pte[v] == ABSENT
    {
      pte := new Pte[pages](_ => ABSENT);
      tlb := new EngineTlb[engines](_ => EngineTlb(seq(TLB_ENTRIES, _ => Entry(None, ABSENT, 0)), 1));
      this.vramPages := vramPages;
      hits, misses := 0, 0;
    }

    /** tlb_invalidate_vpn: drops the page from the TLB of every engine. */
    method Invalidate(vpn: nat, ghost stale: set<nat>)
      requires AllOkBut(pte[..], tlb[..], stale)
      modifies tlb
      ensures AllOkBut(pte[..], tlb[..], stale - {vpn})
      ensures forall e :: 0 <= e < tlb.Length ==> Shot(old(tlb[e]), tlb[e], vpn)
    {
      for e := 0 to tlb.Length
        invariant forall d :: 0 <= d < e ==> Shot(old(tlb[d]), tlb[d], vpn)
        invariant forall d :: e <= d < tlb.Length ==> tlb[d] == old(tlb[d])
      {
        var t := tlb[e];
        for i := 0 to |t.entries|
          invariant t.clock == old(tlb[e]).clock && |t.entries| == |old(tlb[e]).entries|
          invariant forall j :: 0 <= j < i ==> t.entries[j] == ShotEntry(old(tlb[e]).entries[j], vpn)
          invariant forall j :: i <= j < |t.entries| ==> t.entries[j] == old(tlb[e]).entries[j]
        {
          if t.entries[i].vpn == Some(vpn) {
            t := t.(entries := t.entries[i := t.entries[i].(vpn := None)]);
          }
        }
        tlb[e] := t;
      }
      forall e | 0 <= e < tlb.Length
        ensures TlbOkBut(pte[..], tlb[..][e], stale - {vpn})
      {
        assert TlbOkBut(pte[..], old(tlb[..])[e], stale);
        ShotOk(pte[..], old(tlb[e]), tlb[e], vpn, stale);
      }
    }

    /** Stores one PTE and shoots its page down. */
    method StoreAndShoot(vpn: nat, p: Pte)
      requires Valid() && vpn < pte.Length
      modifies pte, tlb
      ensures Valid() && pte[..] == old(pte[..])[vpn := p]
    {
      forall e | 0 <= e < tlb.Length
        ensures TlbOkBut(pte[..][vpn := p], tlb[..][e], {vpn})
      {
        StoreMakesStale(pte[..], tlb[e], vpn, p, {});
        assert {} + {vpn} == {vpn};
      }
      pte[vpn] := p;
      assert pte[..] == old(pte[..])[vpn := p];
      Invalidate(vpn, {vpn});
      assert {vpn} - {vpn} == {};
    }

    /** True if some page of the range is mapped. */
    method AnyPresent(vpn0: nat, n: nat) returns (r: bool)
      requires vpn0 + n <= pte.Length
      ensures r <==> exists v :: vpn0 <= v < vpn0 + n && pte[v].present
    {
      for i := 0 to n
        invariant forall v :: vpn0 <= v < vpn0 + i ==> !pte[v].present
      {
        if pte[vpn0 + i].present {
          return true;
        }
      }
      r := false;
    }

    /** map_vram: contiguous frames. Nothing is mapped over a page that is mapped. */
    method MapVram(vpn0: nat, pfn0: nat, n: nat) returns (ok: bool)
      requires Valid()
      modifies pte, tlb
      ensures Valid()
      ensures ok <==>
              && n > 0 && vpn0 + n <= pte.Length && pfn0 + n <= vramPages
              && forall v :: vpn0 <= v < vpn0 + n ==> !old(pte[v]).present
      ensures !ok ==> pte[..] == old(pte[..])
      ensures ok ==> forall v :: 0 <= v < pte.Length ==>
                pte[v] == if vpn0 <= v < vpn0 + n then Pte(true, true, false, false, pfn0 + v - vpn0) else old(pte[v])
    {
      if n == 0 || vpn0 >= pte.Length || n > pte.Length - vpn0 || pfn0 >= vramPages || n > vramPages - pfn0 {
        return false;
      }
      var taken := AnyPresent(vpn0, n);
      if taken {
        return false;
      }
      for i := 0 to n
        invariant Valid()
        invariant forall v :: 0 <= v < pte.Length ==>
                    pte[v] == if vpn0 <= v < vpn0 + i then Pte(true, true, false, false, pfn0 + v - vpn0)
                        else old(pte[v])
      {
        ghost var was := pte[..];
        StoreAndShoot(vpn0 + i, Pte(true, true, false, false, pfn0 + i));
        assert forall v :: 0 <= v < pte.Length ==> pte[..][v] == pte[v] && (v != vpn0 + i ==> pte[v] == was[v]);
      }
      ok := true;
    }

    /** map_host: present, and not in VRAM. */
    method MapHost(vpn0: nat, n: nat) returns (ok: bool)
      requires Valid()
      modifies pte, tlb
      ensures Valid()
      ensures ok <==> n > 0 && vpn0 + n <= pte.Length && forall v :: vpn0 <= v < vpn0 + n ==> !old(pte[v]).present
      ensures !ok ==> pte[..] == old(pte[..])
      ensures ok ==> forall v ::
              0 <= v < pte.Length ==>
              pte[v] == if vpn0 <= v < vpn0 + n then Pte(true, false, false, false, 0) else old(pte[v])
    {
      if n == 0 || vpn0 >= pte.Length || n > pte.Length - vpn0 {
        return false;
      }
      var taken := AnyPresent(vpn0, n);
      if taken {
        return false;
      }
      for i := 0 to n
        invariant Valid()
        invariant forall v ::
                  0 <= v < pte.Length ==>
                  pte[v] == if vpn0 <= v < vpn0 + i then Pte(true, false, false, false, 0) else old(pte[v])
      {
        ghost var was := pte[..];
        StoreAndShoot(vpn0 + i, Pte(true, false, false, false, 0));
        assert forall v :: 0 <= v < pte.Length ==> pte[..][v] == pte[v] && (v != vpn0 + i ==> pte[v] == was[v]);
      }
      ok := true;
    }

    /** make_resident: a host-resident page gets a frame, clean and referenced. */
    method MakeResident(vpn: nat, pfn: nat) returns (ok: bool)
      requires Valid()
      modifies pte, tlb
      ensures Valid()
      ensures ok <==> vpn < pte.Length && pfn < vramPages && old(pte[..])[vpn].present
      ensures pte[..] == if ok && !old(pte[..])[vpn].inVram then old(pte[..])[vpn := Pte(true, true, false, true, pfn)]
              else old(pte[..])
    {
      if vpn >= pte.Length || pfn >= vramPages || !pte[vpn].present {
        return false;
      }
      if !pte[vpn].inVram {
        StoreAndShoot(vpn, Pte(true, true, false, true, pfn));
      }
      ok := true;
    }

    /** begin_evict: back to the host, and out of every TLB. Returns the old entry. */
    method BeginEvict(vpn: nat) returns (was: Option<Pte>)
      requires Valid()
      modifies pte, tlb
      ensures Valid()
      ensures was == if Walked(old(pte[..]), vpn).Ok? then Some(old(pte[..])[vpn]) else None
      ensures pte[..] == if was.Some? then old(pte[..])[vpn := Pte(true, false, false, false, 0)] else old(pte[..])
      ensures was.Some? ==> forall e :: 0 <= e < tlb.Length ==> !Holds(tlb[e], vpn)
    {
      if vpn >= pte.Length || !pte[vpn].present || !pte[vpn].inVram {
        return None;
      }
      was := Some(pte[vpn]);
      StoreAndShoot(vpn, Pte(true, false, false, false, 0));
      forall e | 0 <= e < tlb.Length
        ensures !Holds(tlb[e], vpn)
      {
        assert TlbOkBut(pte[..], tlb[..][e], {});
      }
    }

    /** unmap: clears every PTE of the range, then shoots the range down. */
    method Unmap(vpn0: nat, n: nat) returns (ok: bool)
      requires Valid()
      modifies pte, tlb
      ensures Valid()
      ensures ok <==> n == 0 || vpn0 + n <= pte.Length
      ensures forall v :: 0 <= v < pte.Length ==> pte[v] == if ok && vpn0 <= v < vpn0 + n then ABSENT else old(pte[v])
    {
      if n == 0 {
        return true;
      }
      if vpn0 >= pte.Length || n > pte.Length - vpn0 {
        return false;
      }
      ghost var stale := ClearRange(vpn0, n);
      for i := 0 to n
        invariant forall v :: 0 <= v < pte.Length ==> pte[v] == if vpn0 <= v < vpn0 + n then ABSENT else old(pte[v])
        invariant AllOkBut(pte[..], tlb[..], stale)
        invariant forall v :: v in stale ==> vpn0 + i <= v < vpn0 + n
      {
        ghost var table := pte[..];
        Invalidate(vpn0 + i, stale);
        assert pte[..] == table;
        stale := stale - {vpn0 + i};
      }
      assert stale == {};
      ok := true;
    }

    method ClearRange(vpn0: nat, n: nat) returns (ghost stale: set<nat>)
      requires Valid() && vpn0 + n <= pte.Length
      modifies pte
      ensures forall v :: 0 <= v < pte.Length ==> pte[v] == if vpn0 <= v < vpn0 + n then ABSENT else old(pte[v])
      ensures AllOkBut(pte[..], tlb[..], stale) && forall v :: v in stale ==> vpn0 <= v < vpn0 + n
    {
      stale := {};
      for i := 0 to n
        invariant forall v :: 0 <= v < pte.Length ==> pte[v] == if vpn0 <= v < vpn0 + i then ABSENT else old(pte[v])
        invariant AllOkBut(pte[..], tlb[..], stale)
        invariant forall v :: v in stale ==> vpn0 <= v < vpn0 + i
      {
        forall e | 0 <= e < tlb.Length
          ensures TlbOkBut(pte[..][vpn0 + i := ABSENT], tlb[..][e], stale + {vpn0 + i})
        {
          assert TlbOkBut(pte[..], tlb[..][e], stale);
          StoreMakesStale(pte[..], tlb[e], vpn0 + i, ABSENT, stale);
        }
        ghost var table := pte[..];
        pte[vpn0 + i] := ABSENT;
        assert pte[..] == table[vpn0 + i := ABSENT];
        stale := stale + {vpn0 + i};
      }
    }

    /** Sets bits of a PTE. */
    method Mark(vpn: nat, p: Pte)
      requires Valid() && vpn < pte.Length
      requires p == pte[vpn].(dirty := p.dirty, accessed := p.accessed) && (pte[vpn].dirty ==> p.dirty)
      modifies pte
      ensures Valid() && pte[..] == old(pte[..])[vpn := p]
    {
      forall e | 0 <= e < tlb.Length
        ensures TlbOkBut(pte[..][vpn := p], tlb[..][e], {})
      {
        assert TlbOkBut(pte[..], tlb[..][e], {});
        NothingStale(pte[..], tlb[e]);
        MarkKeepsOk(pte[..], tlb[e], vpn, p);
        NothingStale(pte[..][vpn := p], tlb[e]);
      }
      pte[vpn] := p;
      assert pte[..] == old(pte[..])[vpn := p];
    }

    /** Puts a translation into a slot of an engine's TLB. */
    method Fill(engine: nat, vpn: nat, p: Pte, slot: nat)
      requires Valid() && engine < tlb.Length && slot < |tlb[engine].entries|
      requires Holds(tlb[engine], vpn) ==> tlb[engine].entries[slot].vpn == Some(vpn)
      requires EntryOk(pte[..], Entry(Some(vpn), p, 0))
      modifies tlb
      ensures Valid() && Replaces(old(tlb[engine]), tlb[engine], vpn, p, slot)
              && tlb[engine].clock == old(tlb[engine]).clock + 1
      ensures forall e :: 0 <= e < tlb.Length && e != engine ==> tlb[e] == old(tlb[e])
    {
      var t := tlb[engine];
      assert TlbOkBut(pte[..], tlb[..][engine], {});
      NothingStale(pte[..], t);
      var now := EngineTlb(t.entries[slot := Entry(Some(vpn), p, t.clock)], t.clock + 1);
      ReplaceKeepsOk(pte[..], t, now, vpn, p, slot);
      NothingStale(pte[..], now);
      tlb[engine] := now;
      forall e | 0 <= e < tlb.Length
        ensures TlbOkBut(pte[..], tlb[..][e], {})
      {
        assert e != engine ==> TlbOkBut(pte[..], old(tlb[..])[e], {});
      }
    }

    method FindVictim(engine: nat) returns (slot: nat)
      requires engine < tlb.Length && |tlb[engine].entries| > 0
      ensures IsVictim(tlb[engine].entries, slot)
    {
      var entries := tlb[engine].entries;
      slot := 0;
      for i := 0 to |entries|
        invariant slot < |entries| && (i > 0 ==> slot < i)
        invariant forall j :: 0 <= j < i ==> entries[j].vpn.Some? && entries[slot].lastUsed <= entries[j].lastUsed
      {
        if entries[i].vpn.None? {
          return i;
        }
        if i == 0 || entries[i].lastUsed < entries[slot].lastUsed {
          slot := i;
        }
      }
    }

    /** The entry for a page in an engine's TLB. */
    method Probe(engine: nat, vpn: nat) returns (slot: Option<nat>)
      requires engine < tlb.Length
      ensures slot.Some? <==> Holds(tlb[engine], vpn)
      ensures slot.Some? ==> slot.value < |tlb[engine].entries| && tlb[engine].entries[slot.value].vpn == Some(vpn)
    {
      for i := 0 to |tlb[engine].entries|
        invariant forall j :: 0 <= j < i ==> tlb[engine].entries[j].vpn != Some(vpn)
      {
        if tlb[engine].entries[i].vpn == Some(vpn) {
          return Some(i);
        }
      }
      slot := None;
    }

    /** What a translation does to the PTE: a walk sets ACCESSED, a hit does not; both set DIRTY for a write. */
    ghost predicate Marked(p: Pte, p': Pte, write: bool, hit: bool) {
      p' == p.(dirty := p.dirty || write, accessed := p.accessed || !hit)
    }

    /** translate: the same answer as a bare walk, whether it hits or misses. */
    method Translate(engine: nat, vpn: nat, write: bool) returns (r: Translation)
      requires Valid() && engine < tlb.Length
      modifies this`hits, this`misses, pte, tlb
      ensures Valid()
      ensures r == Walked(old(pte[..]), vpn)
      ensures Holds(old(tlb[engine]), vpn) ==> r.Ok? && hits == old(hits) + 1 && misses == old(misses)
      ensures !Holds(old(tlb[engine]), vpn) ==> misses == old(misses) + 1 && hits == old(hits)
      ensures !r.Ok? ==> pte[..] == old(pte[..]) && tlb[..] == old(tlb[..])
      ensures r.Ok? ==> exists p :: Touches(old(tlb[engine]), tlb[engine], vpn, p)
      ensures r.Ok? ==> forall e :: 0 <= e < tlb.Length && e != engine ==> tlb[e] == old(tlb[e])
      ensures r.Ok? ==>
              pte[..] == old(pte[..])[vpn := pte[vpn]]
              && Marked(old(pte[..])[vpn], pte[vpn], write, Holds(old(tlb[engine]), vpn))
    {
      assert TlbOkBut(pte[..], tlb[..][engine], {});
      var slot := Probe(engine, vpn);
      if slot.Some? {
        var x := tlb[engine].entries[slot.value];
        assert EntryOk(pte[..], x);
        hits := hits + 1;
        var p := x.pte;
        if write && !p.dirty {
          p := p.(dirty := true);
          Mark(vpn, pte[vpn].(dirty := true));
        }
        Fill(engine, vpn, p, slot.value);
        assert Touches(old(tlb[engine]), tlb[engine], vpn, p);
        return Ok(p.frame);
      }
      misses := misses + 1;
      if vpn >= pte.Length || !pte[vpn].present {
        return NotPresent;
      }
      if !pte[vpn].inVram {
        return HostResident;
      }
      var p := pte[vpn].(accessed := true, dirty := pte[vpn].dirty || write);
      Mark(vpn, p);
      var victim := FindVictim(engine);
      Fill(engine, vpn, p, victim);
      assert Touches(old(tlb[engine]), tlb[engine], vpn, p);
      r := Ok(p.frame);
    }

    /** Every page is in VRAM. */
    ghost predicate AllResident(pages: seq<nat>)
      reads this, pte
    {
      forall i :: 0 <= i < |pages| ==> Walked(pte[..], pages[i]).Ok?
    }

    /** One translation of a resident page. */
    method Touch(engine: nat, vpn: nat, write: bool, ghost pages: seq<nat>, ghost h: seq<nat>, ghost base: nat)
      requires Valid() && engine < tlb.Length && AllResident(pages) && vpn in pages && Lru(tlb[engine], h, base)
      modifies this`hits, this`misses, pte, tlb
      ensures Valid() && AllResident(pages) && Lru(tlb[engine], h + [vpn], base)
      ensures hits + misses == old(hits + misses) + 1
              && hits == old(hits) + if Holds(old(tlb[engine]), vpn) then 1 else 0
      ensures forall v :: Holds(tlb[engine], v) ==> v == vpn || Holds(old(tlb[engine]), v)
    {
      ghost var t, table := tlb[engine], pte[..];
      var r := Translate(engine, vpn, write);
      ghost var p :| Touches(t, tlb[engine], vpn, p);
      TouchKeepsLru(t, tlb[engine], h, base, vpn, p);
      assert forall i :: 0 <= i < |pages| ==> Walked(pte[..], pages[i]) == Walked(table, pages[i]);
    }

    /** The first pass over pages finds some of them or none. */
    method FirstPass(engine: nat, pages: seq<nat>, write: bool) returns (ghost h: seq<nat>, ghost base: nat)
      requires Valid() && engine < tlb.Length && AllResident(pages) && Unequal(pages)
      modifies this`hits, this`misses, pte, tlb
      ensures Valid() && AllResident(pages) && Lru(tlb[engine], h, base) && RoundEnds(h, pages)
      ensures hits + misses == old(hits + misses) + |pages| && hits >= old(hits) && misses >= old(misses)
      ensures (forall v :: v in pages ==> !Holds(old(tlb[engine]), v)) ==> hits == old(hits)
    {
      h, base := [], tlb[engine].clock;
      assert TlbOkBut(pte[..], tlb[..][engine], {});
      StartsLru(tlb[engine]);
      ghost var cold := forall v :: v in pages ==> !Holds(tlb[engine], v);
      for i := 0 to |pages|
        invariant Valid() && AllResident(pages) && Lru(tlb[engine], h, base) && Cyclic(h, pages) && |h| == i
        invariant hits + misses == old(hits + misses) + i && hits >= old(hits) && misses >= old(misses)
        invariant cold ==> hits == old(hits) && forall j :: i <= j < |pages| ==> !Holds(tlb[engine], pages[j])
      {
        CyclicGrows(h, pages, 0, i);
        Touch(engine, pages[i], write, pages, h, base);
        h := h + [pages[i]];
      }
      RoundAgain(0, |pages|);
    }

    /** A later pass hits on every page, or misses on every page. */
    method LaterPass(engine: nat, pages: seq<nat>, write: bool, ghost h0: seq<nat>, ghost base: nat)
        returns (ghost h: seq<nat>)
      requires Valid() && engine < tlb.Length && AllResident(pages)
      requires Lru(tlb[engine], h0, base) && RoundEnds(h0, pages)
      modifies this`hits, this`misses, pte, tlb
      ensures Valid() && AllResident(pages) && Lru(tlb[engine], h, base) && RoundEnds(h, pages)
      ensures if |pages| <= TLB_ENTRIES then hits == old(hits) + |pages| && misses == old(misses)
              else hits == old(hits) && misses == old(misses) + |pages|
    {
      h := h0;
      for i := 0 to |pages|
        invariant Valid() && AllResident(pages) && Lru(tlb[engine], h, base) && Cyclic(h, pages) && |h| == |h0| + i
        invariant if |pages| <= TLB_ENTRIES then hits == old(hits) + i && misses == old(misses)
                  else hits == old(hits) && misses == old(misses) + i
      {
        CyclicGrows(h, pages, |h0|, i);
        CyclicHitsIff(tlb[engine], h, base, pages);
        Touch(engine, pages[i], write, pages, h, base);
        h := h + [pages[i]];
      }
      RoundAgain(|h0|, |pages|);
    }

    /** Passes over the same pages, whatever was in the TLB before: after the first pass every translation hits if
        there are at most 64 pages, and every one misses if there are more. */
    method Passes(engine: nat, pages: seq<nat>, write: bool, rounds: nat) returns (cold: nat)
      requires Valid() && engine < tlb.Length && AllResident(pages) && Unequal(pages) && rounds > 0
      modifies this`hits, this`misses, pte, tlb
      ensures Valid() && cold <= |pages|
      ensures (forall v :: v in pages ==> !Holds(old(tlb[engine]), v)) ==> cold == |pages|
      ensures if |pages| <= TLB_ENTRIES
              then misses == old(misses) + cold && hits == old(hits) + |pages| - cold + (rounds - 1) * |pages|
              else misses == old(misses) + cold + (rounds - 1) * |pages| && hits == old(hits) + |pages| - cold
    {
      var before := misses;
      ghost var h, base := FirstPass(engine, pages, write);
      cold := misses - before;
      var warm := |pages| - cold;
      for r := 1 to rounds
        invariant Valid() && AllResident(pages) && Lru(tlb[engine], h, base) && RoundEnds(h, pages)
        invariant if |pages| <= TLB_ENTRIES
                  then misses == old(misses) + cold && hits == old(hits) + warm + (r - 1) * |pages|
                  else misses == old(misses) + cold + (r - 1) * |pages| && hits == old(hits) + warm
      {
        h := LaterPass(engine, pages, write, h, base);
        assert r * |pages| == (r - 1) * |pages| + |pages|;
      }
    }
  }
}
