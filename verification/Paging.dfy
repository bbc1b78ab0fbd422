/**
  Managed memory under `mem_lock`: migration, eviction with rollback, CLOCK, capped prefetch, and the
  frames they share with sgMalloc. Engines run between these calls; what they may do during one is the
  subject of module Shootdown.
*/
module Paging {
  import opened Base
  import opened Allocator

  type Page = seq<Byte>

  /** A page-table entry that is present; absent pages are not in the table. */
  datatype Pte = Pte(inVram: bool, dirty: bool, accessed: bool, frame: nat)

  /** Pages are named by their base address. `host` has an entry per managed page: its bytes, or None
      while the page is missing on the host (userfaultfd). The other pages belong to sgMalloc. */
  datatype Tables = Tables(pte: map<nat, Pte>, host: map<nat, Option<Page>>, bytes: map<nat, Page>)

  // ---------------------------------------------------------------------------------------------
  // Logical bytes
  // ---------------------------------------------------------------------------------------------

  /** The bytes of a page: its frame if it is in VRAM, its host page otherwise. */
  ghost function Logical(t: Tables, va: nat): (r: Option<Page>)
    requires va in t.pte
  {
    if t.pte[va].inVram then
      if t.pte[va].frame in t.bytes then Some(t.bytes[t.pte[va].frame]) else None
    else if va in t.host then t.host[va] else None
  }

  ghost predicate PageOk(uffd: bool, t: Tables, va: nat)
    requires va in t.pte
  {
    var p := t.pte[va];
    && (p.inVram ==> p.frame in t.bytes)
    && (va in t.host ==>
        && (!p.inVram ==> t.host[va].Some?)
        && (p.inVram && uffd ==> t.host[va].None?)
        && (p.inVram && !uffd && !p.dirty ==> t.host[va] == Some(t.bytes[p.frame])))
    && (va !in t.host ==> p.inVram && p.frame == va)
  }

  ghost predicate TablesOk(uffd: bool, t: Tables) {
    && t.host.Keys <= t.pte.Keys
    && (forall va :: va in t.pte ==> PageOk(uffd, t, va))
    && (forall v, w ::
        v in t.pte && w in t.pte && v != w && t.pte[v].inVram && t.pte[w].inVram ==> t.pte[v].frame != t.pte[w].frame)
  }

  /** Every page's logical bytes are the same before and after, and known. */
  ghost predicate SameBytes(t: Tables, t': Tables) {
    && t'.pte.Keys == t.pte.Keys && t'.host.Keys == t.host.Keys
    && forall va :: va in t.pte ==> Logical(t', va) == Logical(t, va)
  }

  /** A successful eviction: write back if the host copy is missing or stale, then drop the frame. */
  function Evicted(uffd: bool, t: Tables, va: nat): (r: Tables)
    requires va in t.pte && t.pte[va].frame in t.bytes
  {
    t.(pte := t.pte[va := Pte(false, false, false, 0)],
       host := if uffd || t.pte[va].dirty then t.host[va := Some(t.bytes[t.pte[va].frame])] else t.host)
  }

  lemma EvictedRefines(uffd: bool, t: Tables, va: nat)
    requires TablesOk(uffd, t) && va in t.host && t.pte[va].inVram
    ensures TablesOk(uffd, Evicted(uffd, t, va)) && SameBytes(t, Evicted(uffd, t, va))
  {
  }

  /** A migration: fill the frame from the host page, map it clean and referenced, drop the host copy. */
  function MapIn(uffd: bool, t: Tables, va: nat, frame: nat): (r: Tables)
    requires va in t.host && t.host[va].Some?
  {
    t.(bytes := t.bytes[frame := t.host[va].value],
       pte := t.pte[va := Pte(true, false, true, frame)],
       host := if uffd then t.host[va := None] else t.host)
  }

  lemma MapInRefines(uffd: bool, t: Tables, va: nat, frame: nat)
    requires TablesOk(uffd, t) && va in t.host && !t.pte[va].inVram
    requires forall w :: w in t.pte && t.pte[w].inVram ==> t.pte[w].frame != frame
    ensures t.host[va].Some? && TablesOk(uffd, MapIn(uffd, t, va, frame)) && SameBytes(t, MapIn(uffd, t, va, frame))
  {
  }

  /** The rollback of a failed eviction maps the page again with a clean entry. */
  function RolledBack(t: Tables, va: nat): (r: Tables)
    requires va in t.pte
  {
    t.(pte := t.pte[va := Pte(true, false, true, t.pte[va].frame)])
  }

  /** The clean entry loses DIRTY. The bytes are all there now, but the next eviction relies on the bit: it keeps
      them exactly with userfaultfd, for a page that was clean, or for one whose host copy happens to be current;
      and exactly then the tables are in order. */
  lemma RollbackSoundIff(uffd: bool, t: Tables, va: nat)
    requires TablesOk(uffd, t) && va in t.host && t.pte[va].inVram
    ensures SameBytes(t, RolledBack(t, va))
    ensures SameBytes(t, Evicted(uffd, RolledBack(t, va), va)) <==>
            uffd || !t.pte[va].dirty || t.host[va] == Logical(t, va)
    ensures TablesOk(uffd, RolledBack(t, va)) <==> uffd || !t.pte[va].dirty || t.host[va] == Logical(t, va)
  {
    var t' := RolledBack(t, va);
    assert PageOk(uffd, t, va);
    assert PageOk(uffd, t', va) <==> uffd || !t.pte[va].dirty || t.host[va] == Logical(t, va);
    forall w | w in t.pte && w != va
      ensures PageOk(uffd, t', w) && Logical(Evicted(uffd, t', va), w) == Logical(t, w)
    {
      assert PageOk(uffd, t, w);
    }
    assert Logical(Evicted(uffd, t', va), va) == if uffd then Logical(t, va) else t.host[va];
  }

  /** Changing reference bits moves no bytes. */
  ghost predicate OnlyAccessed(t: Tables, t': Tables) {
    && t' == t.(pte := t'.pte) && t'.pte.Keys == t.pte.Keys
    && forall va :: va in t.pte ==> t'.pte[va] == t.pte[va].(accessed := t'.pte[va].accessed)
  }

  lemma OnlyAccessedRefines(uffd: bool, t: Tables, t': Tables)
    requires TablesOk(uffd, t) && OnlyAccessed(t, t')
    ensures TablesOk(uffd, t') && SameBytes(t, t')
  {
    forall va | va in t'.pte
      ensures PageOk(uffd, t', va)
    {
      assert PageOk(uffd, t, va);
    }
  }

  // ---------------------------------------------------------------------------------------------
  // CLOCK
  // ---------------------------------------------------------------------------------------------

  /** The number of referenced pages in front of the first unreferenced one (all, if there is none). */
  function Referenced(pages: seq<nat>, acc: set<nat>): (k: nat)
    ensures k <= |pages| && (forall i :: 0 <= i < k ==> pages[i] in acc) && (k < |pages| ==> pages[k] !in acc)
  {
    if pages == [] || pages[0] !in acc then 0 else 1 + Referenced(pages[1..], acc)
  }

  function Rotate(pages: seq<nat>, k: nat): (r: seq<nat>)
    requires k <= |pages|
  {
    pages[k..] + pages[..k]
  }

  ghost predicate Distinct(pages: seq<nat>) {
    forall i, j :: 0 <= i < j < |pages| ==> pages[i] != pages[j]
  }

  /**
    What protects the pages of one fault service. `young` are the pages migrated in it:
    an old page behind a young one has lost its second chance, and once a young page has lost its own,
    every old page stands in front of it without one.
  */
  ghost predicate Sheltered(pages: seq<nat>, acc: set<nat>, young: set<nat>) {
    && (forall i, j :: 0 <= i < j < |pages| && pages[i] in young && pages[j] !in young ==> pages[j] !in acc)
    && (forall i, j :: 0 <= i < j < |pages| && pages[i] in young && pages[i] !in acc ==> pages[j] in young)
    && (forall i, j ::
        0 <= i < |pages| && 0 <= j < |pages| && pages[i] in young && pages[i] !in acc && pages[j] !in young ==>
        pages[j] !in acc)
  }

  lemma RotateOne(pages: seq<nat>, acc: set<nat>, young: set<nat>)
    requires Distinct(pages) && pages != [] && pages[0] in acc && Sheltered(pages, acc, young)
    ensures Distinct(Rotate(pages, 1)) && Sheltered(Rotate(pages, 1), acc - {pages[0]}, young)
  {
    var r, n := Rotate(pages, 1), |pages|;
    assert forall i :: 0 <= i < n - 1 ==> r[i] == pages[i + 1];
    assert r[n - 1] == pages[0];
  }

  /** The state after the hand has passed `k` referenced pages. */
  lemma {:induction false} RotateMany(pages: seq<nat>, acc: set<nat>, young: set<nat>, k: nat)
    requires Distinct(pages) && k <= |pages| && (forall i :: 0 <= i < k ==> pages[i] in acc)
             && Sheltered(pages, acc, young)
    ensures Distinct(Rotate(pages, k)) && Sheltered(Rotate(pages, k), acc - Elements(pages[..k]), young)
    decreases k
  {
    if k == 0 {
      assert Rotate(pages, 0) == pages;
      assert acc - Elements(pages[..0]) == acc;
    } else {
      RotateMany(pages, acc, young, k - 1);
      var r, a := Rotate(pages, k - 1), acc - Elements(pages[..k - 1]);
      assert r[0] == pages[k - 1];
      assert r[0] !in Elements(pages[..k - 1]) by {
        ElementsOf(pages[..k - 1]);
      }
      RotateOne(r, a, young);
      assert Rotate(r, 1) == Rotate(pages, k);
      assert pages[..k] == pages[..k - 1] + [pages[k - 1]];
      ElementsOf(pages[..k]);
      ElementsOf(pages[..k - 1]);
      assert a - {r[0]} == acc - Elements(pages[..k]);
    }
  }

  ghost function Elements(pages: seq<nat>): (r: set<nat>) {
    set i | 0 <= i < |pages| :: pages[i]
  }

  lemma ElementsOf(pages: seq<nat>)
    ensures forall p :: p in Elements(pages) <==> p in pages
  {
  }

  lemma HandStops(pages: seq<nat>, acc: set<nat>, k: nat)
    requires k == Referenced(pages, acc) && pages != []
    ensures Rotate(pages, k)[0] !in acc - Elements(pages[..k])
  {
    ElementsOf(pages[..k]);
    if k == |pages| {
      assert pages[..k] == pages && pages[0] in pages;
    }
  }

  /** If the front of a sheltered list has no second chance and an old page is listed, the front is old. */
  lemma FrontIsOld(r: seq<nat>, acc: set<nat>, young: set<nat>, i: nat)
    requires Sheltered(r, acc, young) && i < |r| && r[i] !in young && r[0] !in acc
    ensures r[0] !in young
  {
  }

  lemma DropFront(r: seq<nat>, acc: set<nat>, young: set<nat>)
    requires Distinct(r) && Sheltered(r, acc, young) && r != []
    ensures Distinct(r[1..]) && Sheltered(r[1..], acc, young)
  {
  }

  /** CLOCK never takes a young page while an old one is resident. */
  lemma ClockSparesYoung(pages: seq<nat>, acc: set<nat>, young: set<nat>)
    requires Distinct(pages) && Sheltered(pages, acc, young)
    requires exists i :: 0 <= i < |pages| && pages[i] !in young
    ensures var k := Referenced(pages, acc);
            var r := Rotate(pages, k);
            && r[0] !in young && Sheltered(r[1..], acc - Elements(pages[..k]), young) && Distinct(r[1..])
  {
    var i :| 0 <= i < |pages| && pages[i] !in young;
    var k := Referenced(pages, acc);
    var r, a := Rotate(pages, k), acc - Elements(pages[..k]);
    var j := if i < k then |pages| - k + i else i - k;
    assert r[j] == pages[i];
    HandStops(pages, acc, k);
    RotateMany(pages, acc, young, k);
    FrontIsOld(r, a, young, j);
    DropFront(r, a, young);
  }

  lemma AppendYoung(pages: seq<nat>, acc: set<nat>, young: set<nat>, va: nat)
    requires Distinct(pages) && va !in pages && Sheltered(pages, acc, young)
    ensures Distinct(pages + [va]) && Sheltered(pages + [va], acc + {va}, young + {va})
  {
  }

  /** More distinct pages than young ones: some page is old. */
  lemma SomeOld(pages: seq<nat>, young: set<nat>)
    requires Distinct(pages) && |young| < |pages|
    ensures exists i :: 0 <= i < |pages| && pages[i] !in young
  {
    DistinctSize(pages);
    if Elements(pages) <= young {
      SubsetSize(Elements(pages), young);
    }
    var p :| p in Elements(pages) && p !in young;
    ElementsOf(pages);
  }

  lemma {:induction false} DistinctSize(pages: seq<nat>)
    requires Distinct(pages)
    ensures |Elements(pages)| == |pages|
  {
    if pages == [] {
      assert Elements(pages) == {};
    } else {
      var n := |pages| - 1;
      DistinctSize(pages[..n]);
      ElementsOf(pages[..n]);
      ElementsOf(pages);
      assert pages == pages[..n] + [pages[n]];
      assert Elements(pages) == Elements(pages[..n]) + {pages[n]};
    }
  }

  // ---------------------------------------------------------------------------------------------
  // Frames and the allocator
  // ---------------------------------------------------------------------------------------------

  ghost predicate InVram(t: Tables, va: nat) {
    va in t.host && va in t.pte && t.pte[va].inVram
  }

  /** Frames of the managed pages in VRAM. */
  ghost function Frames(t: Tables): (r: set<nat>) {
    set va | va in t.host && InVram(t, va) :: t.pte[va].frame
  }

  /** Every live block of the frame allocator is an sgMalloc block, the frame of one managed page, or a
      frame in the driver's hand between two owners. */
  ghost predicate LedgerOk(t: Tables, fixed: map<nat, nat>, live: map<nat, nat>, hand: set<nat>) {
    && live.Keys == fixed.Keys + Frames(t) + hand
    && fixed.Keys !! Frames(t) && fixed.Keys !! hand && Frames(t) !! hand
    && (forall a :: a in fixed ==> live[a] == fixed[a])
    && (forall f :: f in Frames(t) + hand ==> live[f] == PAGE_SIZE)
  }

  /** Every page that is not managed belongs to an sgMalloc block. */
  ghost predicate FixedOk(t: Tables, fixed: map<nat, nat>) {
    forall va :: va in t.pte && va !in t.host ==> Holds(fixed, va)
  }

  ghost predicate Splits(fixed: map<nat, nat>, frames: set<nat>, live: map<nat, nat>) {
    && live.Keys == fixed.Keys + frames && fixed.Keys !! frames
    && (forall a :: a in fixed ==> live[a] == fixed[a])
    && (forall f :: f in frames ==> live[f] == PAGE_SIZE)
  }

  lemma DropFrame(fixed: map<nat, nat>, frames: set<nat>, live: map<nat, nat>, f: nat)
    requires Splits(fixed, frames, live) && f in frames
    ensures Splits(fixed, frames - {f}, live - {f}) && |frames| == |frames - {f}| + 1
  {
  }

  lemma {:induction false} SumFrames(fixed: map<nat, nat>, frames: set<nat>, live: map<nat, nat>)
    requires Splits(fixed, frames, live)
    ensures Sum(live) == Sum(fixed) + PAGE_SIZE * |frames|
    decreases |frames|
  {
    if frames == {} {
      assert live == fixed;
    } else {
      var f :| f in frames;
      DropFrame(fixed, frames, live, f);
      SumRemove(live, f);
      SumFrames(fixed, frames - {f}, live - {f});
    }
  }

  datatype Node = Node(id: nat, va: nat)

  ghost function Vas(nodes: seq<Node>): (r: seq<nat>)
    ensures |r| == |nodes| && forall i :: 0 <= i < |r| ==> r[i] == nodes[i].va
  {
    seq(|nodes|, i requires 0 <= i < |nodes| => nodes[i].va)
  }

  ghost predicate Listed(nodes: seq<Node>, va: nat) {
    exists i :: 0 <= i < |nodes| && nodes[i].va == va
  }

  /** The position map leads from each listed page to its node, and lists nothing else. */
  ghost predicate NodesOk(nodes: seq<Node>, pos: map<nat, nat>, nextId: nat) {
    && (forall i :: 0 <= i < |nodes| ==> nodes[i].id < nextId && nodes[i].va in pos && pos[nodes[i].va] == nodes[i].id)
    && (forall i, j :: 0 <= i < j < |nodes| ==> nodes[i].id != nodes[j].id)
    && (forall va :: va in pos ==> Listed(nodes, va))
  }

  lemma NodesDistinct(nodes: seq<Node>, pos: map<nat, nat>, nextId: nat)
    requires NodesOk(nodes, pos, nextId)
    ensures Distinct(Vas(nodes)) && forall va :: va in Vas(nodes) <==> va in pos
  {
    forall va | va in pos
      ensures va in Vas(nodes)
    {
      var i :| 0 <= i < |nodes| && nodes[i].va == va;
      assert Vas(nodes)[i] == va;
    }
    forall i, j | 0 <= i < j < |nodes|
      ensures Vas(nodes)[i] != Vas(nodes)[j]
    {
      assert nodes[i].id != nodes[j].id;
    }
  }

  /** The CLOCK list and its position map hold exactly the managed pages in VRAM, once each. */
  ghost predicate ListOk(t: Tables, nodes: seq<Node>, pos: map<nat, nat>, nextId: nat) {
    NodesOk(nodes, pos, nextId) && forall va :: va in pos <==> InVram(t, va)
  }

  lemma FramesCount(uffd: bool, t: Tables, nodes: seq<Node>, pos: map<nat, nat>, nextId: nat)
    requires TablesOk(uffd, t) && ListOk(t, nodes, pos, nextId)
    ensures |Frames(t)| == |nodes|
  {
    var frames := seq(|nodes|, i requires 0 <= i < |nodes| => if nodes[i].va in t.pte then t.pte[nodes[i].va].frame
        else 0);
    forall i | 0 <= i < |nodes|
      ensures InVram(t, nodes[i].va) && frames[i] == t.pte[nodes[i].va].frame
    {
      assert nodes[i].va in pos;
    }
    NodesDistinct(nodes, pos, nextId);
    assert Distinct(frames) by {
      assert forall i, j :: 0 <= i < j < |nodes| ==> Vas(nodes)[i] != Vas(nodes)[j];
    }
    DistinctSize(frames);
    assert Elements(frames) == Frames(t) by {
      ElementsOf(frames);
      forall f | f in Frames(t)
        ensures f in frames
      {
        var va :| va in t.host && InVram(t, va) && t.pte[va].frame == f;
        assert va in Vas(nodes);
        var i :| 0 <= i < |nodes| && Vas(nodes)[i] == va;
        assert frames[i] == f;
      }
    }
  }

  /** live bytes = sgMalloc bytes + one page per entry of the CLOCK list. */
  lemma Conservation(uffd: bool, t: Tables, fixed: map<nat, nat>, live: map<nat, nat>, nodes: seq<Node>,
                     pos: map<nat, nat>, nextId: nat)
    requires TablesOk(uffd, t) && LedgerOk(t, fixed, live, {}) && ListOk(t, nodes, pos, nextId)
    ensures Sum(live) == Sum(fixed) + PAGE_SIZE * |nodes|
  {
    FramesCount(uffd, t, nodes, pos, nextId);
    SumFrames(fixed, Frames(t), live);
  }

  // ---------------------------------------------------------------------------------------------
  // What each operation does to the books
  // ---------------------------------------------------------------------------------------------

  lemma LedgerEvict(uffd: bool, t: Tables, fixed: map<nat, nat>, live: map<nat, nat>, va: nat)
    requires TablesOk(uffd, t) && LedgerOk(t, fixed, live, {}) && InVram(t, va)
    ensures LedgerOk(Evicted(uffd, t, va), fixed, live, {t.pte[va].frame})
  {
    var t' := Evicted(uffd, t, va);
    assert t.pte[va].frame in Frames(t);
    assert Frames(t) == Frames(t') + {t.pte[va].frame} by {
      forall f | f in Frames(t)
        ensures f in Frames(t') || f == t.pte[va].frame
      {
        var w :| w in t.host && InVram(t, w) && t.pte[w].frame == f;
        assert w != va ==> InVram(t', w) && w in t'.host;
      }
      forall f | f in Frames(t')
        ensures f in Frames(t) && f != t.pte[va].frame
      {
        var w :| w in t'.host && InVram(t', w) && t'.pte[w].frame == f;
        assert w != va && InVram(t, w) && w in t.host;
      }
    }
    assert t.pte[va].frame !in Frames(t');
  }

  lemma LedgerMap(uffd: bool, t: Tables, fixed: map<nat, nat>, live: map<nat, nat>, va: nat, frame: nat)
    requires TablesOk(uffd, t) && LedgerOk(t, fixed, live, {frame}) && va in t.host && !t.pte[va].inVram
             && t.host[va].Some?
    ensures LedgerOk(MapIn(uffd, t, va, frame), fixed, live, {})
  {
    var t' := MapIn(uffd, t, va, frame);
    assert Frames(t') == Frames(t) + {frame} by {
      forall f | f in Frames(t)
        ensures f in Frames(t')
      {
        var w :| w in t.host && InVram(t, w) && t.pte[w].frame == f;
        assert w in t'.host && InVram(t', w) && t'.pte[w].frame == f;
      }
      assert va in t'.host && InVram(t', va);
    }
  }

  lemma LedgerTake(t: Tables, fixed: map<nat, nat>, live: map<nat, nat>, frame: nat)
    requires LedgerOk(t, fixed, live, {}) && frame !in live
    ensures LedgerOk(t, fixed, live[frame := PAGE_SIZE], {frame})
  {
  }

  lemma LedgerGive(t: Tables, fixed: map<nat, nat>, live: map<nat, nat>, frame: nat)
    requires LedgerOk(t, fixed, live, {frame})
    ensures LedgerOk(t, fixed, live - {frame}, {})
  {
  }

  lemma LedgerSame(t: Tables, t': Tables, fixed: map<nat, nat>, live: map<nat, nat>, hand: set<nat>)
    requires LedgerOk(t, fixed, live, hand) && t'.host == t.host && t'.pte.Keys == t.pte.Keys
    requires forall va :: va in t.pte ==> t'.pte[va].inVram == t.pte[va].inVram && t'.pte[va].frame == t.pte[va].frame
    ensures LedgerOk(t', fixed, live, hand)
  {
    assert Frames(t') == Frames(t);
  }

  /** A frame in hand is mapped by no page. */
  lemma HandUnused(uffd: bool, t: Tables, fixed: map<nat, nat>, live: map<nat, nat>, size: nat, frame: nat)
    requires TablesOk(uffd, t) && LedgerOk(t, fixed, live, {frame}) && FixedOk(t, fixed)
             && Apart(0, size, PAGE_SIZE, live)
    ensures forall w :: w in t.pte && t.pte[w].inVram ==> t.pte[w].frame != frame
  {
    forall w | w in t.pte && t.pte[w].inVram
      ensures t.pte[w].frame != frame
    {
      assert PageOk(uffd, t, w);
      if w in t.host {
        assert InVram(t, w);
        assert t.pte[w].frame in Frames(t);
      } else {
        var a :| a in fixed && a <= w < a + fixed[a];
        assert a in live && frame in live && a != frame;
      }
    }
  }

  function Without(pages: seq<nat>, va: nat): (r: seq<nat>) {
    if pages == [] then [] else if pages[0] == va then pages[1..] else [pages[0]] + Without(pages[1..], va)
  }

  lemma {:induction false} WithoutAt(pages: seq<nat>, i: nat)
    requires Distinct(pages) && i < |pages|
    ensures Without(pages, pages[i]) == pages[..i] + pages[i + 1..]
  {
    if i > 0 {
      WithoutAt(pages[1..], i - 1);
      assert pages[..i] == [pages[0]] + pages[1..][..i - 1];
    }
  }

  lemma VasRemove(nodes: seq<Node>, i: nat)
    requires Distinct(Vas(nodes)) && i < |nodes|
    ensures Vas(nodes[..i] + nodes[i + 1..]) == Without(Vas(nodes), nodes[i].va)
  {
    WithoutAt(Vas(nodes), i);
    assert Vas(nodes[..i] + nodes[i + 1..]) == Vas(nodes)[..i] + Vas(nodes)[i + 1..];
  }

  lemma NodesRemove(nodes: seq<Node>, pos: map<nat, nat>, nextId: nat, i: nat)
    requires NodesOk(nodes, pos, nextId) && i < |nodes|
    ensures NodesOk(nodes[..i] + nodes[i + 1..], pos - {nodes[i].va}, nextId)
  {
    var r := nodes[..i] + nodes[i + 1..];
    forall j | 0 <= j < |r|
      ensures r[j] == nodes[if j < i then j else j + 1] && r[j].va != nodes[i].va
    {
      var k := if j < i then j else j + 1;
      assert nodes[k].id != nodes[i].id;
    }
    forall va | va in pos && va != nodes[i].va
      ensures Listed(r, va)
    {
      var j :| 0 <= j < |nodes| && nodes[j].va == va;
      assert r[if j < i then j else j - 1].va == va;
    }
  }

  lemma NodesAppend(nodes: seq<Node>, pos: map<nat, nat>, nextId: nat, va: nat)
    requires NodesOk(nodes, pos, nextId) && va !in pos
    ensures NodesOk(nodes + [Node(nextId, va)], pos[va := nextId], nextId + 1)
    ensures Vas(nodes + [Node(nextId, va)]) == Vas(nodes) + [va]
  {
    var r := nodes + [Node(nextId, va)];
    assert forall j :: 0 <= j < |nodes| ==> r[j] == nodes[j];
    assert r[|nodes|].va == va;
    forall w | w in pos
      ensures Listed(r, w)
    {
      var j :| 0 <= j < |nodes| && nodes[j].va == w;
      assert r[j].va == w;
    }
  }

  lemma NodesRotate(nodes: seq<Node>, pos: map<nat, nat>, nextId: nat)
    requires NodesOk(nodes, pos, nextId) && nodes != []
    ensures NodesOk(nodes[1..] + [nodes[0]], pos, nextId)
    ensures Vas(nodes[1..] + [nodes[0]]) == Rotate(Vas(nodes), 1)
  {
    var r, n := nodes[1..] + [nodes[0]], |nodes|;
    assert forall j :: 0 <= j < n ==> r[j] == nodes[if j == n - 1 then 0 else j + 1];
    forall va | va in pos
      ensures Listed(r, va)
    {
      var j :| 0 <= j < n && nodes[j].va == va;
      assert r[if j == 0 then n - 1 else j - 1].va == va;
    }
  }

  ghost function Acc(t: Tables): (r: set<nat>) {
    set va | va in t.pte && t.pte[va].accessed
  }

  /** Everything `mem_lock` guards, as one value. `live` are the live blocks of the frame allocator. */
  datatype Books = Books(t: Tables, nodes: seq<Node>, pos: map<nat, nat>, nextId: nat, live: map<nat, nat>)

  /** The page table, the frame allocator and the resident list agree. `fixed` are the sgMalloc blocks,
      `hand` the frames taken from the allocator that no page owns at the moment. */
  ghost predicate BooksOk(uffd: bool, size: nat, fixed: map<nat, nat>, b: Books, hand: set<nat>) {
    && TablesOk(uffd, b.t)
    && FixedOk(b.t, fixed)
    && LedgerOk(b.t, fixed, b.live, hand)
    && Apart(0, size, PAGE_SIZE, b.live)
    && ListOk(b.t, b.nodes, b.pos, b.nextId)
  }

  // ---------------------------------------------------------------------------------------------
  // Transitions under mem_lock
  // ---------------------------------------------------------------------------------------------

  /** evict_locked succeeds. */
  ghost predicate Evicts(uffd: bool, b: Books, b': Books, va: nat) {
    && InVram(b.t, va) && b.t.pte[va].frame in b.t.bytes
    && b' == b.(t := Evicted(uffd, b.t, va), pos := b.pos - {va}, nodes := b'.nodes)
    && NodesOk(b'.nodes, b'.pos, b'.nextId) && Vas(b'.nodes) == Without(Vas(b.nodes), va)
  }

  /** evict_locked fails to publish and maps the page again; only UFFDIO_COPY can fail. */
  ghost predicate RollsBack(uffd: bool, b: Books, b': Books, va: nat) {
    uffd && InVram(b.t, va) && b' == b.(t := RolledBack(b.t, va))
  }

  /** The CLOCK hand passes the `k` referenced pages in front and stops. */
  ghost predicate Turns(b: Books, b': Books, k: nat) {
    && k == Referenced(Vas(b.nodes), Acc(b.t))
    && b' == b.(t := b'.t, nodes := b'.nodes)
    && OnlyAccessed(b.t, b'.t) && Acc(b'.t) == Acc(b.t) - Elements(Vas(b.nodes)[..k])
    && NodesOk(b'.nodes, b'.pos, b'.nextId) && Vas(b'.nodes) == Rotate(Vas(b.nodes), k)
  }

  ghost predicate Takes(size: nat, b: Books, b': Books, frame: nat) {
    frame !in b.live && b' == b.(live := b.live[frame := PAGE_SIZE]) && Apart(0, size, PAGE_SIZE, b'.live)
  }

  ghost predicate Gives(b: Books, b': Books, frame: nat) {
    frame in b.live && b' == b.(live := b.live - {frame})
  }

  /** migrate_locked, once it has a frame. */
  ghost predicate MapsIn(uffd: bool, b: Books, b': Books, va: nat, frame: nat) {
    && va in b.t.host && va in b.t.pte && !b.t.pte[va].inVram && b.t.host[va].Some?
    && b' == Books(MapIn(uffd, b.t, va, frame), b.nodes + [Node(b.nextId, va)], b.pos[va := b.nextId], b.nextId + 1,
        b.live)
  }

  lemma EvictsKeeps(uffd: bool, size: nat, fixed: map<nat, nat>, b: Books, b': Books, va: nat)
    requires BooksOk(uffd, size, fixed, b, {}) && Evicts(uffd, b, b', va)
    ensures BooksOk(uffd, size, fixed, b', {b.t.pte[va].frame}) && SameBytes(b.t, b'.t)
  {
    ListEvict(uffd, b, b', va);
    EvictedRefines(uffd, b.t, va);
    LedgerEvict(uffd, b.t, fixed, b.live, va);
  }

  lemma ListEvict(uffd: bool, b: Books, b': Books, va: nat)
    requires ListOk(b.t, b.nodes, b.pos, b.nextId) && Evicts(uffd, b, b', va)
    ensures ListOk(b'.t, b'.nodes, b'.pos, b'.nextId)
  {
  }

  lemma RollsBackKeeps(uffd: bool, size: nat, fixed: map<nat, nat>, b: Books, b': Books, va: nat)
    requires BooksOk(uffd, size, fixed, b, {}) && RollsBack(uffd, b, b', va)
    ensures BooksOk(uffd, size, fixed, b', {}) && SameBytes(b.t, b'.t)
  {
    RollbackSoundIff(uffd, b.t, va);
    LedgerSame(b.t, b'.t, fixed, b.live, {});
  }

  lemma TurnsKeeps(uffd: bool, size: nat, fixed: map<nat, nat>, b: Books, b': Books, k: nat)
    requires BooksOk(uffd, size, fixed, b, {}) && Turns(b, b', k)
    ensures BooksOk(uffd, size, fixed, b', {}) && SameBytes(b.t, b'.t)
  {
    OnlyAccessedRefines(uffd, b.t, b'.t);
    LedgerSame(b.t, b'.t, fixed, b.live, {});
  }

  lemma TakesKeeps(uffd: bool, size: nat, fixed: map<nat, nat>, b: Books, b': Books, frame: nat)
    requires BooksOk(uffd, size, fixed, b, {}) && Takes(size, b, b', frame)
    ensures BooksOk(uffd, size, fixed, b', {frame})
  {
    LedgerTake(b.t, fixed, b.live, frame);
  }

  lemma GivesKeeps(uffd: bool, size: nat, fixed: map<nat, nat>, b: Books, b': Books, frame: nat)
    requires BooksOk(uffd, size, fixed, b, {frame}) && Gives(b, b', frame)
    ensures BooksOk(uffd, size, fixed, b', {})
  {
    LedgerGive(b.t, fixed, b.live, frame);
  }

  lemma MapsInKeeps(uffd: bool, size: nat, fixed: map<nat, nat>, b: Books, b': Books, va: nat, frame: nat)
    requires BooksOk(uffd, size, fixed, b, {frame}) && MapsIn(uffd, b, b', va, frame)
    ensures BooksOk(uffd, size, fixed, b', {}) && SameBytes(b.t, b'.t)
    ensures Vas(b'.nodes) == Vas(b.nodes) + [va] && va !in Vas(b.nodes)
  {
    ListMap(uffd, b, b', va, frame);
    LedgerMap(uffd, b.t, fixed, b.live, va, frame);
    assert TablesOk(uffd, b'.t) && SameBytes(b.t, b'.t) by {
      HandUnused(uffd, b.t, fixed, b.live, size, frame);
      MapInRefines(uffd, b.t, va, frame);
    }
  }

  lemma ListMap(uffd: bool, b: Books, b': Books, va: nat, frame: nat)
    requires ListOk(b.t, b.nodes, b.pos, b.nextId) && MapsIn(uffd, b, b', va, frame)
    ensures ListOk(b'.t, b'.nodes, b'.pos, b'.nextId) && Vas(b'.nodes) == Vas(b.nodes) + [va] && va !in Vas(b.nodes)
  {
    NodesAppend(b.nodes, b.pos, b.nextId, va);
    NodesDistinct(b.nodes, b.pos, b.nextId);
  }

  /** evict_one_locked succeeds with `frame`: the victim is the page the hand stops at. */
  ghost predicate EvictsOne(uffd: bool, b: Books, b': Books, frame: nat) {
    exists turned, k: nat :: Turns(b, turned, k) && turned.nodes != [] &&
                        Evicts(uffd, turned, b', turned.nodes[0].va) &&
                        frame == turned.t.pte[turned.nodes[0].va].frame
  }

  ghost predicate FailsToEvict(uffd: bool, b: Books, b': Books) {
    exists turned, k: nat ::
        Turns(b, turned, k) && turned.nodes != [] && RollsBack(uffd, turned, b', turned.nodes[0].va)
  }

  /** No frame is free. */
  ghost predicate Full(size: nat, b: Books) {
    Sum(b.live) == size
  }

  /** A free frame if there is one, else an evicted one. */
  ghost predicate FindsFrame(uffd: bool, size: nat, b: Books, b': Books, frame: nat) {
    if Full(size, b) then EvictsOne(uffd, b, b', frame) else Takes(size, b, b', frame)
  }

  /** migrate_locked moves the page into the frame it found. */
  ghost predicate Migrates(uffd: bool, size: nat, b: Books, b': Books, va: nat) {
    exists mid, frame: nat :: FindsFrame(uffd, size, b, mid, frame) && MapsIn(uffd, mid, b', va, frame)
  }

  /** migrate_locked finds no frame: VRAM is all sgMalloc, or the eviction it tried was rolled back. */
  ghost predicate Starves(uffd: bool, size: nat, b: Books, b': Books) {
    Full(size, b) && if b.nodes == [] then b' == b else FailsToEvict(uffd, b, b')
  }

  lemma EvictsOneKeeps(uffd: bool, size: nat, fixed: map<nat, nat>, b: Books, b': Books, frame: nat)
    requires BooksOk(uffd, size, fixed, b, {}) && EvictsOne(uffd, b, b', frame)
    ensures BooksOk(uffd, size, fixed, b', {frame}) && SameBytes(b.t, b'.t)
  {
    var turned, k: nat :| Turns(b, turned, k) && turned.nodes != [] &&
                     Evicts(uffd, turned, b', turned.nodes[0].va) &&
                     frame == turned.t.pte[turned.nodes[0].va].frame;
    TurnsKeeps(uffd, size, fixed, b, turned, k);
    EvictsKeeps(uffd, size, fixed, turned, b', turned.nodes[0].va);
    SameBytesTransitive(b.t, turned.t, b'.t);
  }

  lemma FailsToEvictKeeps(uffd: bool, size: nat, fixed: map<nat, nat>, b: Books, b': Books)
    requires BooksOk(uffd, size, fixed, b, {}) && FailsToEvict(uffd, b, b')
    ensures BooksOk(uffd, size, fixed, b', {}) && SameBytes(b.t, b'.t)
  {
    var turned, k: nat :| Turns(b, turned, k) && turned.nodes != [] && RollsBack(uffd, turned, b', turned.nodes[0].va);
    TurnsKeeps(uffd, size, fixed, b, turned, k);
    RollsBackKeeps(uffd, size, fixed, turned, b', turned.nodes[0].va);
    SameBytesTransitive(b.t, turned.t, b'.t);
  }

  lemma SameBytesTransitive(t: Tables, u: Tables, v: Tables)
    requires SameBytes(t, u) && SameBytes(u, v)
    ensures SameBytes(t, v)
  {
  }

  lemma FindsFrameKeeps(uffd: bool, size: nat, fixed: map<nat, nat>, b: Books, b': Books, frame: nat)
    requires BooksOk(uffd, size, fixed, b, {}) && FindsFrame(uffd, size, b, b', frame)
    ensures BooksOk(uffd, size, fixed, b', {frame}) && SameBytes(b.t, b'.t)
  {
    if Full(size, b) {
      EvictsOneKeeps(uffd, size, fixed, b, b', frame);
    } else {
      TakesKeeps(uffd, size, fixed, b, b', frame);
    }
  }

  /** Migration refines flat memory and keeps the books, whichever way it gets its frame. */
  lemma MigratesKeeps(uffd: bool, size: nat, fixed: map<nat, nat>, b: Books, b': Books, va: nat)
    requires BooksOk(uffd, size, fixed, b, {}) && Migrates(uffd, size, b, b', va)
    ensures BooksOk(uffd, size, fixed, b', {}) && SameBytes(b.t, b'.t)
  {
    var mid, frame: nat :| FindsFrame(uffd, size, b, mid, frame) && MapsIn(uffd, mid, b', va, frame);
    FindsFrameKeeps(uffd, size, fixed, b, mid, frame);
    MapsInKeeps(uffd, size, fixed, mid, b', va, frame);
    SameBytesTransitive(b.t, mid.t, b'.t);
  }

  /** While at most half of the frames are young, migrating one more page evicts none of them. */
  lemma MigrateSparesYoung(uffd: bool, size: nat, fixed: map<nat, nat>, b: Books, b': Books, va: nat, young: set<nat>)
    requires BooksOk(uffd, size, fixed, b, {}) && Migrates(uffd, size, b, b', va)
    requires Sheltered(Vas(b.nodes), Acc(b.t), young)
    requires Full(size, b) ==> |young| < |b.nodes|
    requires forall p :: p in young ==> InVram(b.t, p)
    ensures Sheltered(Vas(b'.nodes), Acc(b'.t), young + {va})
    ensures forall p :: p in young + {va} ==> InVram(b'.t, p)
  {
    var mid, frame: nat :| FindsFrame(uffd, size, b, mid, frame) && MapsIn(uffd, mid, b', va, frame);
    if Full(size, b) {
      NodesDistinct(b.nodes, b.pos, b.nextId);
      SomeOld(Vas(b.nodes), young);
      EvictSparesYoung(uffd, b, mid, frame, young);
    }
    FindsFrameKeeps(uffd, size, fixed, b, mid, frame);
    NodesDistinct(mid.nodes, mid.pos, mid.nextId);
    MapsInKeeps(uffd, size, fixed, mid, b', va, frame);
    MapSparesYoung(uffd, mid, b', va, frame, young);
  }

  lemma MapSparesYoung(uffd: bool, b: Books, b': Books, va: nat, frame: nat, young: set<nat>)
    requires MapsIn(uffd, b, b', va, frame) && Distinct(Vas(b.nodes))
    requires va !in Vas(b.nodes) && Vas(b'.nodes) == Vas(b.nodes) + [va]
    requires Sheltered(Vas(b.nodes), Acc(b.t), young) && forall p :: p in young ==> InVram(b.t, p)
    ensures Sheltered(Vas(b'.nodes), Acc(b'.t), young + {va})
    ensures forall p :: p in young + {va} ==> InVram(b'.t, p)
  {
    AppendYoung(Vas(b.nodes), Acc(b.t), young, va);
    assert Acc(b'.t) == Acc(b.t) + {va};
  }

  lemma EvictSparesYoung(uffd: bool, b: Books, b': Books, frame: nat, young: set<nat>)
    requires Distinct(Vas(b.nodes)) && EvictsOne(uffd, b, b', frame) && Sheltered(Vas(b.nodes), Acc(b.t), young)
    requires exists i :: 0 <= i < |Vas(b.nodes)| && Vas(b.nodes)[i] !in young
    requires forall p :: p in young ==> InVram(b.t, p)
    ensures Sheltered(Vas(b'.nodes), Acc(b'.t), young) && Distinct(Vas(b'.nodes))
    ensures forall p :: p in young ==> InVram(b'.t, p)
  {
    var turned, k: nat :| Turns(b, turned, k) && turned.nodes != [] &&
                     Evicts(uffd, turned, b', turned.nodes[0].va) &&
                     frame == turned.t.pte[turned.nodes[0].va].frame;
    ClockSparesYoung(Vas(b.nodes), Acc(b.t), young);
    VictimLeaves(uffd, b, turned, b', k);
    VictimOnly(uffd, b, turned, b', k, young);
  }

  lemma VictimOnly(uffd: bool, b: Books, turned: Books, b': Books, k: nat, young: set<nat>)
    requires Turns(b, turned, k) && turned.nodes != [] && Evicts(uffd, turned, b', turned.nodes[0].va)
    requires turned.nodes[0].va !in young && forall p :: p in young ==> InVram(b.t, p)
    ensures forall p :: p in young ==> InVram(b'.t, p)
  {
    forall p | p in young
      ensures InVram(b'.t, p)
    {
      TurnsMovesNothing(b, turned, k, p);
    }
  }

  /** The victim of CLOCK is the first page from the hand that is not referenced; if all are, the one that was
      in front. The pages passed on the way lose their second chance, and nobody else does. */
  lemma ClockPicksFirst(uffd: bool, b: Books, b': Books, frame: nat)
    requires EvictsOne(uffd, b, b', frame)
    ensures var pages := Vas(b.nodes);
            var k := Referenced(pages, Acc(b.t));
            && pages != []
            && var victim := pages[if k < |pages| then k else 0];
            && InVram(b.t, victim) && b.t.pte[victim].frame == frame && !InVram(b'.t, victim)
            && Vas(b'.nodes) == Rotate(pages, k)[1..] && Acc(b'.t) == Acc(b.t) - Elements(pages[..k])
  {
    var turned, k: nat :| Turns(b, turned, k) && turned.nodes != [] &&
                     Evicts(uffd, turned, b', turned.nodes[0].va) &&
                     frame == turned.t.pte[turned.nodes[0].va].frame;
    VictimLeaves(uffd, b, turned, b', k);
    TurnsMovesNothing(b, turned, k, turned.nodes[0].va);
  }

  lemma VictimLeaves(uffd: bool, b: Books, turned: Books, b': Books, k: nat)
    requires Turns(b, turned, k) && turned.nodes != [] && Evicts(uffd, turned, b', turned.nodes[0].va)
    ensures var r := Rotate(Vas(b.nodes), k);
            r != [] && turned.nodes[0].va == r[0] && Vas(b'.nodes) == r[1..] && Acc(b'.t) == Acc(turned.t)
  {
    var r := Rotate(Vas(b.nodes), k);
    assert Vas(turned.nodes)[0] == r[0];
    HandStopsUnreferenced(b, turned, k);
  }

  lemma HandStopsUnreferenced(b: Books, turned: Books, k: nat)
    requires Turns(b, turned, k) && turned.nodes != []
    ensures turned.nodes[0].va !in Acc(turned.t)
  {
    assert Vas(turned.nodes)[0] == Rotate(Vas(b.nodes), k)[0];
    HandStops(Vas(b.nodes), Acc(b.t), k);
  }

  // ---------------------------------------------------------------------------------------------
  // The CLOCK hand, one page at a time
  // ---------------------------------------------------------------------------------------------

  /** The hand has passed `k` referenced pages so far. */
  ghost predicate Turning(b: Books, b': Books, k: nat) {
    && k <= |b.nodes| == |b'.nodes|
    && b' == b.(t := b'.t, nodes := b'.nodes)
    && OnlyAccessed(b.t, b'.t) && Acc(b'.t) == Acc(b.t) - Elements(Vas(b.nodes)[..k])
    && NodesOk(b'.nodes, b'.pos, b'.nextId) && Vas(b'.nodes) == Rotate(Vas(b.nodes), k)
    && (forall i :: 0 <= i < k ==> Vas(b.nodes)[i] in Acc(b.t))
  }

  ghost predicate WalkableBooks(b: Books) {
    NodesOk(b.nodes, b.pos, b.nextId) && forall va :: va in b.pos ==> InVram(b.t, va) && b.t.pte[va].frame in b.t.bytes
  }

  lemma TurningStarts(b: Books)
    requires WalkableBooks(b)
    ensures Turning(b, b, 0)
  {
    assert Rotate(Vas(b.nodes), 0) == Vas(b.nodes);
    assert Acc(b.t) == Acc(b.t) - Elements(Vas(b.nodes)[..0]);
  }

  lemma TurningFront(b: Books, b': Books, k: nat)
    requires WalkableBooks(b) && Turning(b, b', k) && k < |b.nodes|
    ensures var page := b'.nodes[0].va;
            page == Vas(b.nodes)[k] && page in b'.t.pte && (b'.t.pte[page].accessed <==> page in Acc(b.t))
  {
    var pages := Vas(b.nodes);
    assert Vas(b'.nodes)[0] == Rotate(pages, k)[0] == pages[k];
    assert b.nodes[k].va in b.pos;
    NodesDistinct(b.nodes, b.pos, b.nextId);
    ElementsOf(pages[..k]);
    assert pages[k] !in pages[..k];
    assert pages[k] in Acc(b'.t) <==> pages[k] in Acc(b.t);
  }

  /** One turn of the hand: clear the front page's reference bit and move it to the back. */
  function TurnOnce(b: Books): (r: Books) {
    if b.nodes == [] || b.nodes[0].va !in b.t.pte then b else
      var page := b.nodes[0].va;
      b.(t := b.t.(pte := b.t.pte[page := b.t.pte[page].(accessed := false)]), nodes := b.nodes[1..] + [b.nodes[0]])
  }

  lemma TurningStep(b: Books, b': Books, k: nat)
    requires WalkableBooks(b) && Turning(b, b', k) && k < |b.nodes| && Vas(b.nodes)[k] in Acc(b.t)
    ensures Turning(b, TurnOnce(b'), k + 1)
  {
    TurningFront(b, b', k);
    ClearsOne(b.t, b'.t, b'.nodes[0].va);
    NodesRotate(b'.nodes, b'.pos, b'.nextId);
    RotateStep(Vas(b.nodes), k, Acc(b.t));
  }

  ghost function TurnedBy(b: Books, k: nat): (r: Books) {
    if k == 0 then b else TurnOnce(TurnedBy(b, k - 1))
  }

  /** The first `k` pages were all referenced. */
  ghost predicate Passable(b: Books, k: nat) {
    k <= |b.nodes| && forall i :: 0 <= i < k ==> Vas(b.nodes)[i] in Acc(b.t)
  }

  lemma {:induction false} TurnedByOk(b: Books, k: nat)
    requires WalkableBooks(b) && Passable(b, k)
    ensures Turning(b, TurnedBy(b, k), k)
  {
    if k == 0 {
      TurningStarts(b);
    } else {
      TurnedByOk(b, k - 1);
      TurningStep(b, TurnedBy(b, k - 1), k - 1);
    }
  }

  lemma TurningEnds(b: Books, b': Books, k: nat)
    requires WalkableBooks(b) && Turning(b, b', k)
    requires k < |b.nodes| ==> b'.nodes[0].va in b'.t.pte && !b'.t.pte[b'.nodes[0].va].accessed
    ensures Turns(b, b', k)
  {
    if k < |b.nodes| {
      TurningFront(b, b', k);
    }
    ReferencedIs(Vas(b.nodes), Acc(b.t), k);
  }

  lemma TurnsStaysWalkable(b: Books, b': Books, k: nat)
    requires WalkableBooks(b) && Turns(b, b', k)
    ensures WalkableBooks(b') && (b.nodes != [] ==> b'.nodes != [] && b'.nodes[0].va in b'.pos)
  {
    assert |Vas(b'.nodes)| == |Vas(b.nodes)|;
  }

  lemma RotateStep(pages: seq<nat>, k: nat, acc: set<nat>)
    requires k < |pages|
    ensures Rotate(Rotate(pages, k), 1) == Rotate(pages, k + 1) && Rotate(pages, k)[0] == pages[k]
    ensures acc - Elements(pages[..k]) - {pages[k]} == acc - Elements(pages[..k + 1])
  {
    ElementsOf(pages[..k]);
    ElementsOf(pages[..k + 1]);
    assert pages[..k + 1] == pages[..k] + [pages[k]];
  }

  lemma ClearsOne(t0: Tables, t: Tables, page: nat)
    requires OnlyAccessed(t0, t) && page in t.pte
    ensures var t' := t.(pte := t.pte[page := t.pte[page].(accessed := false)]);
            OnlyAccessed(t0, t') && Acc(t') == Acc(t) - {page}
  {
  }

  lemma {:induction false} ReferencedIs(pages: seq<nat>, acc: set<nat>, k: nat)
    requires k <= |pages| && (forall i :: 0 <= i < k ==> pages[i] in acc) && (k < |pages| ==> pages[k] !in acc)
    ensures Referenced(pages, acc) == k
  {
    if k > 0 {
      ReferencedIs(pages[1..], acc, k - 1);
    }
  }

  lemma BooksWalkable(uffd: bool, size: nat, fixed: map<nat, nat>, b: Books, hand: set<nat>)
    requires BooksOk(uffd, size, fixed, b, hand)
    ensures WalkableBooks(b)
  {
    forall w | w in b.pos
      ensures InVram(b.t, w) && b.t.pte[w].frame in b.t.bytes
    {
      assert PageOk(uffd, b.t, w);
    }
  }

  /** Finding a frame does not move the page it is for. */
  lemma StaysOut(uffd: bool, size: nat, b: Books, mid: Books, frame: nat, va: nat)
    requires va in b.t.host && va in b.t.pte && !b.t.pte[va].inVram
    requires FindsFrame(uffd, size, b, mid, frame)
    ensures va in mid.t.host && va in mid.t.pte && !mid.t.pte[va].inVram && mid.t.host[va] == b.t.host[va]
  {
    if Full(size, b) {
      var turned, k: nat :| Turns(b, turned, k) && turned.nodes != [] &&
                            Evicts(uffd, turned, mid, turned.nodes[0].va) &&
                            frame == turned.t.pte[turned.nodes[0].va].frame;
      TurnsMovesNothing(b, turned, k, va);
    }
  }

  lemma TurnsMovesNothing(b: Books, turned: Books, k: nat, va: nat)
    requires Turns(b, turned, k) && va in b.t.pte
    ensures va in turned.t.pte && turned.t.pte[va].inVram == b.t.pte[va].inVram && turned.t.host == b.t.host
  {
  }

  lemma StarvesKeeps(uffd: bool, size: nat, fixed: map<nat, nat>, b: Books, b': Books)
    requires BooksOk(uffd, size, fixed, b, {}) && Starves(uffd, size, b, b')
    ensures BooksOk(uffd, size, fixed, b', {}) && SameBytes(b.t, b'.t)
    ensures forall p :: InVram(b'.t, p) <==> InVram(b.t, p)
  {
    if b.nodes != [] {
      FailsToEvictKeeps(uffd, size, fixed, b, b');
    }
  }

  // ---------------------------------------------------------------------------------------------
  // Prefetch
  // ---------------------------------------------------------------------------------------------

  /** Frames managed memory can use: the free ones and those it has. */
  function Capacity(size: nat, liveBytes: nat, resident: nat): (r: nat)
    requires liveBytes <= size
  {
    (size - liveBytes) / PAGE_SIZE + resident
  }

  /** With the demand page, a service migrates at most half of the capacity. */
  function Budget(capacity: nat, prefetchPages: nat): (r: nat)
    ensures r <= prefetchPages && (r > 0 ==> 2 * (r + 1) <= capacity)
  {
    var cap := if capacity / 2 > 0 then capacity / 2 - 1 else 0;
    if prefetchPages < cap then prefetchPages else cap
  }

  /** No fewer than that allows: the budget is the greatest such number of pages. */
  lemma BudgetIsGreatest(capacity: nat, prefetchPages: nat, n: nat)
    requires n <= prefetchPages && 2 * (n + 1) <= capacity
    ensures n <= Budget(capacity, prefetchPages)
  {
  }

  /** When VRAM is full, managed memory has its whole capacity on the list. */
  lemma FullMeansCapacity(uffd: bool, size: nat, fixed: map<nat, nat>, b0: Books, b: Books)
    requires BooksOk(uffd, size, fixed, b0, {}) && BooksOk(uffd, size, fixed, b, {}) && Full(size, b)
             && Sum(b0.live) <= size
    ensures |b.nodes| == Capacity(size, Sum(b0.live), |b0.nodes|)
  {
    Conservation(uffd, b0.t, fixed, b0.live, b0.nodes, b0.pos, b0.nextId);
    Conservation(uffd, b.t, fixed, b.live, b.nodes, b.pos, b.nextId);
  }

  ghost predicate InWindow(start: nat, stop: nat, p: nat) {
    start <= p < stop && (p - start) % PAGE_SIZE == 0
  }

  lemma WindowGrows(start: nat, va: nat, p: nat)
    requires start <= va && (va - start) % PAGE_SIZE == 0
    ensures InWindow(start, va + PAGE_SIZE, p) <==> InWindow(start, va, p) || p == va
  {
  }

  /** One round of the prefetch loop: the page is in VRAM already, or is migrated. */
  ghost predicate Fetches(uffd: bool, size: nat, b: Books, b': Books, va: nat) {
    || (b' == b && va in b.t.pte && b.t.pte[va].inVram)
    || Migrates(uffd, size, b, b', va)
  }

  ghost predicate FetchAt(uffd: bool, size: nat, run: seq<Books>, start: nat, k: nat) {
    k + 1 < |run| && Fetches(uffd, size, run[k], run[k + 1], start + k * PAGE_SIZE)
  }

  /** The states the prefetch loop goes through. */
  ghost predicate FetchRun(uffd: bool, size: nat, run: seq<Books>, start: nat) {
    run != [] && forall k: nat :: k + 1 < |run| ==> FetchAt(uffd, size, run, start, k)
  }

  lemma FetchRunGrows(uffd: bool, size: nat, run: seq<Books>, start: nat, was: Books, b: Books, va: nat)
    requires FetchRun(uffd, size, run, start) && was == run[|run| - 1] && va == start + (|run| - 1) * PAGE_SIZE
    requires Fetches(uffd, size, was, b, va)
    ensures FetchRun(uffd, size, run + [b], start)
  {
    forall k: nat | k + 1 < |run + [b]|
      ensures FetchAt(uffd, size, run + [b], start, k)
    {
      assert k + 1 < |run| ==> FetchAt(uffd, size, run, start, k);
    }
  }

  /** The page a fault service has just appended, if it still has its reference bit. */
  ghost function Demand(b: Books): (r: set<nat>) {
    if b.nodes != [] && b.nodes[|b.nodes| - 1].va in Acc(b.t) then {b.nodes[|b.nodes| - 1].va} else {}
  }

  /** What protects the young pages of a run, and what they are. */
  ghost predicate Shelter(b0: Books, b: Books, young: set<nat>, k: nat, start: nat, va: nat) {
    && Sheltered(Vas(b.nodes), Acc(b.t), young) && |young| <= k + 1
    && (forall p :: p in young ==> InVram(b.t, p))
    && (forall p :: InVram(b.t, p) ==> InVram(b0.t, p) || p in young)
    && (forall p :: InWindow(start, va, p) && p in b0.t.host && !InVram(b0.t, p) ==> p in young)
  }

  lemma ShelterStarts(b: Books, va: nat)
    requires Distinct(Vas(b.nodes)) && forall i :: 0 <= i < |b.nodes| ==> InVram(b.t, b.nodes[i].va)
    ensures Shelter(b, b, Demand(b), 0, va, va)
  {
    var pages := Vas(b.nodes);
    assert forall i :: 0 <= i < |pages| - 1 ==> pages[i] !in Demand(b);
  }

  lemma ShelterMoves(b0: Books, b: Books, b': Books, young: set<nat>, k: nat, start: nat, va: nat)
    requires Shelter(b0, b, young, k, start, va) && start <= va && (va - start) % PAGE_SIZE == 0
    requires Sheltered(Vas(b'.nodes), Acc(b'.t), young + {va})
    requires forall p :: p in young + {va} ==> InVram(b'.t, p)
    requires forall p :: InVram(b'.t, p) ==> InVram(b.t, p) || p == va
    ensures Shelter(b0, b', young + {va}, k + 1, start, va + PAGE_SIZE)
  {
    forall p
      ensures InWindow(start, va + PAGE_SIZE, p) <==> InWindow(start, va, p) || p == va
    {
      WindowGrows(start, va, p);
    }
  }

  lemma ShelterStays(b0: Books, b: Books, young: set<nat>, k: nat, start: nat, va: nat)
    requires Shelter(b0, b, young, k, start, va) && va in b.t.pte && b.t.pte[va].inVram
             && b0.t.host.Keys == b.t.host.Keys
    requires start <= va && (va - start) % PAGE_SIZE == 0
    ensures Shelter(b0, b, young, k + 1, start, va + PAGE_SIZE)
  {
    forall p
      ensures InWindow(start, va + PAGE_SIZE, p) <==> InWindow(start, va, p) || p == va
    {
      WindowGrows(start, va, p);
    }
    assert va in b0.t.host ==> InVram(b.t, va);
  }

  lemma FindAddsNone(uffd: bool, size: nat, b: Books, mid: Books, frame: nat, p: nat)
    requires FindsFrame(uffd, size, b, mid, frame) && InVram(mid.t, p)
    ensures InVram(b.t, p)
  {
    if Full(size, b) {
      var turned, k: nat :| Turns(b, turned, k) && turned.nodes != [] &&
                            Evicts(uffd, turned, mid, turned.nodes[0].va) &&
                            frame == turned.t.pte[turned.nodes[0].va].frame;
      EvictAddsNone(uffd, b, turned, mid, k, p);
    }
  }

  lemma EvictAddsNone(uffd: bool, b: Books, turned: Books, mid: Books, k: nat, p: nat)
    requires Turns(b, turned, k) && turned.nodes != [] && Evicts(uffd, turned, mid, turned.nodes[0].va)
             && InVram(mid.t, p)
    ensures InVram(b.t, p)
  {
    assert p != turned.nodes[0].va;
    TurnsMovesNothing(b, turned, k, p);
  }

  lemma MigrateAddsOne(uffd: bool, size: nat, b: Books, b': Books, va: nat, p: nat)
    requires Migrates(uffd, size, b, b', va)
    ensures InVram(b'.t, p) ==> InVram(b.t, p) || p == va
  {
    var mid, frame: nat :| FindsFrame(uffd, size, b, mid, frame) && MapsIn(uffd, mid, b', va, frame);
    if InVram(b'.t, p) && p != va {
      assert InVram(mid.t, p);
      FindAddsNone(uffd, size, b, mid, frame, p);
    }
  }

  lemma FetchKeeps(uffd: bool, size: nat, fixed: map<nat, nat>, t0: Tables, b: Books, b': Books, va: nat)
    requires BooksOk(uffd, size, fixed, b, {}) && SameBytes(t0, b.t) && Fetches(uffd, size, b, b', va)
    ensures BooksOk(uffd, size, fixed, b', {}) && SameBytes(t0, b'.t)
  {
    if b' != b {
      MigratesKeeps(uffd, size, fixed, b, b', va);
      SameBytesTransitive(t0, b.t, b'.t);
    }
  }

  lemma FetchStepKeeps(uffd: bool, size: nat, fixed: map<nat, nat>, run: seq<Books>, start: nat, k: nat)
    requires FetchAt(uffd, size, run, start, k) && BooksOk(uffd, size, fixed, run[k], {})
             && SameBytes(run[0].t, run[k].t)
    ensures BooksOk(uffd, size, fixed, run[k + 1], {}) && SameBytes(run[0].t, run[k + 1].t)
  {
    FetchKeeps(uffd, size, fixed, run[0].t, run[k], run[k + 1], start + k * PAGE_SIZE);
  }

  /** Every state of the loop keeps the books and every page's bytes. */
  lemma {:induction false} FetchRunKeeps(uffd: bool, size: nat, fixed: map<nat, nat>, run: seq<Books>, start: nat,
                                         k: nat)
    requires FetchRun(uffd, size, run, start) && k < |run| && BooksOk(uffd, size, fixed, run[0], {})
    ensures BooksOk(uffd, size, fixed, run[k], {}) && SameBytes(run[0].t, run[k].t)
  {
    if k > 0 {
      FetchRunKeeps(uffd, size, fixed, run, start, k - 1);
      FetchStepKeeps(uffd, size, fixed, run, start, k - 1);
    }
  }

  /** The cap leaves an old page to evict whenever VRAM is full. */
  lemma CapLeavesOld(uffd: bool, size: nat, fixed: map<nat, nat>, b0: Books, b: Books, k: nat)
    requires BooksOk(uffd, size, fixed, b0, {}) && BooksOk(uffd, size, fixed, b, {}) && Sum(b0.live) <= size
    requires 2 * (k + 2) <= Capacity(size, Sum(b0.live), |b0.nodes|)
    ensures Full(size, b) ==> k + 1 < |b.nodes|
  {
    if Full(size, b) {
      FullMeansCapacity(uffd, size, fixed, b0, b);
    }
  }

  lemma ShelterFetches(uffd: bool, size: nat, fixed: map<nat, nat>, b0: Books, b: Books, b': Books, young: set<nat>,
                       k: nat, start: nat, va: nat)
    requires BooksOk(uffd, size, fixed, b, {}) && Shelter(b0, b, young, k, start, va) && Migrates(uffd, size, b, b', va)
    requires Full(size, b) ==> k + 1 < |b.nodes|
    requires start <= va && (va - start) % PAGE_SIZE == 0
    ensures Shelter(b0, b', young + {va}, k + 1, start, va + PAGE_SIZE) && b' != b
  {
    assert b' != b by {
      MigrateChanges(uffd, size, b, b', va);
    }
    assert Sheltered(Vas(b'.nodes), Acc(b'.t), young + {va}) && forall p :: p in young + {va} ==> InVram(b'.t, p) by {
      MigrateSparesYoung(uffd, size, fixed, b, b', va, young);
    }
    forall p
      ensures InVram(b'.t, p) ==> InVram(b.t, p) || p == va
    {
      MigrateAddsOne(uffd, size, b, b', va, p);
    }
    ShelterMoves(b0, b, b', young, k, start, va);
  }

  /** Some set of young pages, the demand page among them, is sheltered. */
  ghost predicate SomeShelter(b0: Books, b: Books, k: nat, start: nat, va: nat) {
    exists young :: Demand(b0) <= young && Shelter(b0, b, young, k, start, va)
  }

  lemma FetchShelters(uffd: bool, size: nat, fixed: map<nat, nat>, b0: Books, b: Books, b': Books, k: nat, start: nat,
                      va: nat)
    requires BooksOk(uffd, size, fixed, b, {}) && SomeShelter(b0, b, k, start, va) && Fetches(uffd, size, b, b', va)
    requires Full(size, b) ==> k + 1 < |b.nodes|
    requires start <= va && (va - start) % PAGE_SIZE == 0 && b0.t.host.Keys == b.t.host.Keys
    ensures SomeShelter(b0, b', k + 1, start, va + PAGE_SIZE)
  {
    var young :| Demand(b0) <= young && Shelter(b0, b, young, k, start, va);
    if Migrates(uffd, size, b, b', va) {
      ShelterFetches(uffd, size, fixed, b0, b, b', young, k, start, va);
      assert Demand(b0) <= young + {va};
    } else {
      ShelterStays(b0, b, young, k, start, va);
    }
  }

  lemma BooksShelter(uffd: bool, size: nat, fixed: map<nat, nat>, b: Books, start: nat)
    requires BooksOk(uffd, size, fixed, b, {})
    ensures SomeShelter(b, b, 0, start, start)
  {
    assert Distinct(Vas(b.nodes)) && forall i :: 0 <= i < |b.nodes| ==> InVram(b.t, b.nodes[i].va) by {
      NodesDistinct(b.nodes, b.pos, b.nextId);
      assert forall i :: 0 <= i < |b.nodes| ==> b.nodes[i].va in b.pos;
    }
    ShelterStarts(b, start);
  }

  ghost predicate GoodAt(uffd: bool, size: nat, fixed: map<nat, nat>, run: seq<Books>, k: nat) {
    k < |run| && BooksOk(uffd, size, fixed, run[k], {}) && SameBytes(run[0].t, run[k].t)
  }

  /** The books are in order at every state of the run. */
  ghost predicate GoodRun(uffd: bool, size: nat, fixed: map<nat, nat>, run: seq<Books>) {
    forall k: nat :: k < |run| ==> GoodAt(uffd, size, fixed, run, k)
  }

  lemma FetchRunGood(uffd: bool, size: nat, fixed: map<nat, nat>, run: seq<Books>, start: nat)
    requires FetchRun(uffd, size, run, start) && BooksOk(uffd, size, fixed, run[0], {})
    ensures GoodRun(uffd, size, fixed, run)
  {
    forall k: nat | k < |run|
      ensures GoodAt(uffd, size, fixed, run, k)
    {
      FetchRunKeeps(uffd, size, fixed, run, start, k);
    }
  }

  lemma CapAt(uffd: bool, size: nat, fixed: map<nat, nat>, run: seq<Books>, k: nat)
    requires GoodRun(uffd, size, fixed, run) && k < |run| && Sum(run[0].live) <= size
    requires 2 * (k + 2) <= Capacity(size, Sum(run[0].live), |run[0].nodes|)
    ensures Full(size, run[k]) ==> k + 1 < |run[k].nodes|
    ensures run[0].t.host.Keys == run[k].t.host.Keys
  {
    assert GoodAt(uffd, size, fixed, run, 0) && GoodAt(uffd, size, fixed, run, k);
    CapLeavesOld(uffd, size, fixed, run[0], run[k], k);
  }

  lemma FetchRunStep(uffd: bool, size: nat, fixed: map<nat, nat>, run: seq<Books>, start: nat, k: nat, va: nat)
    requires FetchRun(uffd, size, run, start) && GoodRun(uffd, size, fixed, run) && k + 1 < |run|
             && Sum(run[0].live) <= size
    requires 2 * (k + 2) <= Capacity(size, Sum(run[0].live), |run[0].nodes|) && va == start + k * PAGE_SIZE
    requires SomeShelter(run[0], run[k], k, start, va)
    ensures SomeShelter(run[0], run[k + 1], k + 1, start, va + PAGE_SIZE)
  {
    CapAt(uffd, size, fixed, run, k);
    assert (va - start) % PAGE_SIZE == 0;
    var b0, b, b' := run[0], run[k], run[k + 1];
    assert Fetches(uffd, size, b, b', va) by {
      assert FetchAt(uffd, size, run, start, k);
    }
    assert BooksOk(uffd, size, fixed, b, {}) by {
      assert GoodAt(uffd, size, fixed, run, k);
    }
    FetchShelters(uffd, size, fixed, b0, b, b', k, start, va);
  }

  /** The prefetch cap: while a service migrates at most half the capacity, none of its pages is evicted. */
  lemma {:induction false} FetchRunShelters(uffd: bool, size: nat, fixed: map<nat, nat>, run: seq<Books>, start: nat,
                                            k: nat, va: nat)
    requires FetchRun(uffd, size, run, start) && GoodRun(uffd, size, fixed, run) && k < |run|
             && Sum(run[0].live) <= size
    requires k > 0 ==> 2 * (k + 1) <= Capacity(size, Sum(run[0].live), |run[0].nodes|)
    requires va == start + k * PAGE_SIZE
    ensures SomeShelter(run[0], run[k], k, start, va)
  {
    if k == 0 {
      assert GoodAt(uffd, size, fixed, run, 0);
      BooksShelter(uffd, size, fixed, run[0], start);
    } else {
      FetchRunShelters(uffd, size, fixed, run, start, k - 1, va - PAGE_SIZE);
      FetchRunStep(uffd, size, fixed, run, start, k - 1, va - PAGE_SIZE);
    }
  }

  /** What a prefetch leaves behind, also when its last migration found no frame. */
  ghost predicate PrefetchSettles(b0: Books, last: Books, start: nat, stop: nat) {
    && (forall p :: p in Demand(b0) ==> InVram(last.t, p))
    && (forall p :: InWindow(start, stop, p) && p in b0.t.host && !InVram(b0.t, p) ==> InVram(last.t, p))
  }

  lemma ShelterSettles(b0: Books, b: Books, last: Books, k: nat, start: nat, va: nat)
    requires SomeShelter(b0, b, k, start, va) && forall p :: InVram(b.t, p) ==> InVram(last.t, p)
    ensures PrefetchSettles(b0, last, start, va)
  {
    var young :| Demand(b0) <= young && Shelter(b0, b, young, k, start, va);
  }

  /** The prefetch loop ran through `run`, and its last migration may have found no frame. */
  ghost predicate Prefetches(uffd: bool, size: nat, run: seq<Books>, start: nat, last: Books) {
    && FetchRun(uffd, size, run, start) && Sum(run[0].live) <= size
    && (|run| > 1 ==> 2 * |run| <= Capacity(size, Sum(run[0].live), |run[0].nodes|))
    && (last == run[|run| - 1] || Starves(uffd, size, run[|run| - 1], last))
  }

  lemma PrefetchKeeps(uffd: bool, size: nat, fixed: map<nat, nat>, run: seq<Books>, start: nat, last: Books)
    requires Prefetches(uffd, size, run, start, last) && BooksOk(uffd, size, fixed, run[0], {})
    ensures BooksOk(uffd, size, fixed, last, {}) && SameBytes(run[0].t, last.t)
    ensures forall p :: InVram(run[|run| - 1].t, p) ==> InVram(last.t, p)
  {
    var k := |run| - 1;
    FetchRunKeeps(uffd, size, fixed, run, start, k);
    if last != run[k] {
      StarvesKeeps(uffd, size, fixed, run[k], last);
      SameBytesTransitive(run[0].t, run[k].t, last.t);
    }
  }

  /** No page a prefetch migrates is evicted again by it, nor is the demand page appended just before. */
  lemma PrefetchSpares(uffd: bool, size: nat, fixed: map<nat, nat>, run: seq<Books>, start: nat, last: Books, stop: nat)
    requires Prefetches(uffd, size, run, start, last) && BooksOk(uffd, size, fixed, run[0], {})
             && stop == start + (|run| - 1) * PAGE_SIZE
    ensures PrefetchSettles(run[0], last, start, stop)
  {
    var k := |run| - 1;
    assert forall p :: InVram(run[k].t, p) ==> InVram(last.t, p) by {
      PrefetchKeeps(uffd, size, fixed, run, start, last);
    }
    assert SomeShelter(run[0], run[k], k, start, stop) by {
      FetchRunGood(uffd, size, fixed, run, start);
      FetchRunShelters(uffd, size, fixed, run, start, k, stop);
    }
    ShelterSettles(run[0], run[k], last, k, start, stop);
  }

  lemma MigrateChanges(uffd: bool, size: nat, b: Books, b': Books, va: nat)
    requires Migrates(uffd, size, b, b', va)
    ensures b' != b
  {
    var mid, frame: nat :| FindsFrame(uffd, size, b, mid, frame) && MapsIn(uffd, mid, b', va, frame);
    assert mid.nextId == b.nextId;
  }

  // ---------------------------------------------------------------------------------------------
  // Evicting everything
  // ---------------------------------------------------------------------------------------------

  /** An eviction whose frame goes back to the allocator. */
  ghost predicate EvictsAndGives(uffd: bool, b: Books, b': Books, va: nat) {
    exists mid :: Evicts(uffd, b, mid, va) && Gives(mid, b', b.t.pte[va].frame)
  }

  lemma EvictsAndGivesKeeps(uffd: bool, size: nat, fixed: map<nat, nat>, b: Books, b': Books, va: nat)
    requires BooksOk(uffd, size, fixed, b, {}) && EvictsAndGives(uffd, b, b', va)
    ensures BooksOk(uffd, size, fixed, b', {}) && SameBytes(b.t, b'.t)
  {
    var mid :| Evicts(uffd, b, mid, va) && Gives(mid, b', b.t.pte[va].frame);
    EvictsKeeps(uffd, size, fixed, b, mid, va);
    GivesKeeps(uffd, size, fixed, mid, b', b.t.pte[va].frame);
  }

  ghost predicate EvictAt(uffd: bool, run: seq<Books>, k: nat) {
    k + 1 < |run| && run[k].nodes != [] && EvictsAndGives(uffd, run[k], run[k + 1], run[k].nodes[0].va)
  }

  /** The states of evict_all_locked: each evicts the page in front. */
  ghost predicate EvictRun(uffd: bool, run: seq<Books>) {
    run != [] && forall k: nat :: k + 1 < |run| ==> EvictAt(uffd, run, k)
  }

  lemma EvictRunGrows(uffd: bool, run: seq<Books>, was: Books, b: Books)
    requires EvictRun(uffd, run) && was == run[|run| - 1] && was.nodes != []
             && EvictsAndGives(uffd, was, b, was.nodes[0].va)
    ensures EvictRun(uffd, run + [b])
  {
    forall k: nat | k + 1 < |run + [b]|
      ensures EvictAt(uffd, run + [b], k)
    {
      assert k + 1 < |run| ==> EvictAt(uffd, run, k);
    }
  }

  lemma {:induction false} EvictRunKeeps(uffd: bool, size: nat, fixed: map<nat, nat>, run: seq<Books>, k: nat)
    requires EvictRun(uffd, run) && k < |run| && BooksOk(uffd, size, fixed, run[0], {})
    ensures BooksOk(uffd, size, fixed, run[k], {}) && SameBytes(run[0].t, run[k].t)
  {
    if k > 0 {
      EvictRunKeeps(uffd, size, fixed, run, k - 1);
      assert EvictAt(uffd, run, k - 1);
      EvictsAndGivesKeeps(uffd, size, fixed, run[k - 1], run[k], run[k - 1].nodes[0].va);
      SameBytesTransitive(run[0].t, run[k - 1].t, run[k].t);
    }
  }

  lemma EvictShortens(uffd: bool, b: Books, b': Books)
    requires b.nodes != [] && EvictsAndGives(uffd, b, b', b.nodes[0].va)
    ensures |b'.nodes| == |b.nodes| - 1
  {
    var mid :| Evicts(uffd, b, mid, b.nodes[0].va) && Gives(mid, b', b.t.pte[b.nodes[0].va].frame);
    assert Without(Vas(b.nodes), Vas(b.nodes)[0]) == Vas(b.nodes)[1..];
  }

  /** evict_all_locked: pages keep their bytes, and unless a write-back failed, only sgMalloc blocks stay
      live, so all other frames are free for the next one. */
  lemma EvictAllFreesFrames(uffd: bool, size: nat, fixed: map<nat, nat>, run: seq<Books>, last: Books)
    requires EvictRun(uffd, run) && BooksOk(uffd, size, fixed, run[0], {})
    requires EvictAllEnds(uffd, run[|run| - 1], last)
    ensures BooksOk(uffd, size, fixed, last, {}) && SameBytes(run[0].t, last.t)
    ensures last.live == fixed || (uffd && last.nodes != [])
  {
    var b := run[|run| - 1];
    EvictRunKeeps(uffd, size, fixed, run, |run| - 1);
    if b.nodes == [] {
      NoNodesNoFrames(b.t, b.nodes, b.pos, b.nextId, fixed, b.live);
    } else {
      RollsBackKeeps(uffd, size, fixed, b, last, b.nodes[0].va);
      SameBytesTransitive(run[0].t, b.t, last.t);
    }
  }

  ghost predicate EvictAllEnds(uffd: bool, b: Books, last: Books) {
    if b.nodes == [] then last == b else RollsBack(uffd, b, last, b.nodes[0].va)
  }

  lemma NoNodesNoFrames(t: Tables, nodes: seq<Node>, pos: map<nat, nat>, nextId: nat, fixed: map<nat, nat>,
                        live: map<nat, nat>)
    requires ListOk(t, nodes, pos, nextId) && LedgerOk(t, fixed, live, {}) && nodes == []
    ensures live == fixed
  {
    assert forall va :: va in pos ==> Listed(nodes, va);
    assert Frames(t) == {};
  }

  // ---------------------------------------------------------------------------------------------
  // Recycling a managed range
  // ---------------------------------------------------------------------------------------------

  ghost predicate PageIn(addr: nat, len: nat, va: nat) {
    addr <= va < addr + len && va % PAGE_SIZE == 0
  }

  ghost function PagesOf(addr: nat, len: nat): (r: set<nat>) {
    set va | addr <= va < addr + len && PageIn(addr, len, va)
  }

  /** The first `n` pages of a range. */
  function FirstPages(addr: nat, n: nat): (r: set<nat>) {
    if n == 0 then {} else FirstPages(addr, n - 1) + {addr + (n - 1) * PAGE_SIZE}
  }

  lemma {:induction false} FirstPagesAre(addr: nat, n: nat)
    requires addr % PAGE_SIZE == 0
    ensures FirstPages(addr, n) == PagesOf(addr, n * PAGE_SIZE)
  {
    if n > 0 {
      FirstPagesAre(addr, n - 1);
      var last := addr + (n - 1) * PAGE_SIZE;
      forall va: nat
        ensures PageIn(addr, n * PAGE_SIZE, va) <==> PageIn(addr, (n - 1) * PAGE_SIZE, va) || va == last
      {
        NextPage(addr, n, va);
      }
    }
  }

  lemma NextPage(addr: nat, n: nat, va: nat)
    requires addr % PAGE_SIZE == 0 && n > 0
    ensures PageIn(addr, n * PAGE_SIZE, va) <==>
            PageIn(addr, (n - 1) * PAGE_SIZE, va) || va == addr + (n - 1) * PAGE_SIZE
  {
    var a, v := addr / PAGE_SIZE, va / PAGE_SIZE;
    assert addr == a * PAGE_SIZE;
    assert va % PAGE_SIZE == 0 ==> va == v * PAGE_SIZE;
  }

  lemma {:induction false} FirstPagesBelow(addr: nat, n: nat)
    ensures forall va :: va in FirstPages(addr, n) ==> va < addr + n * PAGE_SIZE
  {
    if n > 0 {
      FirstPagesBelow(addr, n - 1);
    }
  }

  /** Frames of those of `pages` that are in VRAM. */
  ghost function FramesOf(t: Tables, pages: set<nat>): (r: set<nat>) {
    set va | va in pages && InVram(t, va) :: t.pte[va].frame
  }

  lemma NextMinus(pos: map<nat, nat>, all: map<nat, nat>, addr: nat, i: nat)
    requires pos == all - FirstPages(addr, i)
    ensures var va := addr + i * PAGE_SIZE;
            pos - {va} == all - FirstPages(addr, i + 1) && (va in pos <==> va in all)
  {
    FirstPagesBelow(addr, i);
  }

  lemma FramesOfNext(t: Tables, addr: nat, i: nat)
    ensures var va := addr + i * PAGE_SIZE;
            FramesOf(t, FirstPages(addr, i + 1)) == FramesOf(t, FirstPages(addr, i)) + if InVram(t, va)
                then {t.pte[va].frame} else {}
  {
  }

  lemma ElementsAppend(pages: seq<nat>, p: nat)
    ensures Elements(pages + [p]) == Elements(pages) + {p}
  {
    ElementsOf(pages);
    ElementsOf(pages + [p]);
  }

  /** Unlist the pages, unmap them, free their frames. */
  ghost predicate Drops(b: Books, b': Books, pages: set<nat>) {
    && b' == Books(b.t.(pte := b.t.pte - pages, host := b.t.host - pages), b'.nodes, b.pos - pages, b.nextId,
        b.live - FramesOf(b.t, pages))
    && NodesOk(b'.nodes, b'.pos, b'.nextId)
  }
}
