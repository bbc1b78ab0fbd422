/**
  The driver's memory as an object: page table, CLOCK list, frame allocator, managed ranges and their address
  allocator. Every operation goes from a valid state to a valid state, and is a step of the flat memory.
*/
module Managed {
  import opened Base
  import opened Allocator
  import opened Paging
  import W = World

  datatype Rc = Ok | EFAULT | ENOMEM

  /** A freed allocation whose commands have retired. */
  datatype Freed = FreedVram(addr: nat) | FreedManaged(addr: nat)

  function Recycling(x: Freed): (a: W.Action) {
    match x
    case FreedVram(addr) => W.Recycle(addr)
    case FreedManaged(addr) => W.RecycleManaged(addr)
  }

  /** The flat memory after a list of allocations has been recycled. */
  ghost function Recycled(f: W.FlatMemory, list: seq<Freed>): (r: W.FlatMemory)
    decreases |list|
  {
    if list == [] then f else Recycled(W.FlatStep(f, Recycling(list[0])), list[1..])
  }

  /** Each entry of the list is still there when its turn comes. */
  ghost predicate Recyclable(f: W.FlatMemory, list: seq<Freed>)
    decreases |list|
  {
    list != [] ==>
      && (match list[0] case FreedVram(addr) => addr in f.fixed case FreedManaged(addr) => addr in f.managed)
      && Recyclable(W.FlatStep(f, Recycling(list[0])), list[1..])
  }

  lemma {:induction false} RecyclableParts(f: W.FlatMemory, x: seq<Freed>, y: seq<Freed>)
    requires Recyclable(f, x + y)
    ensures Recyclable(f, x) && Recyclable(Recycled(f, x), y) && Recycled(f, x + y) == Recycled(Recycled(f, x), y)
    decreases |x|
  {
    if x == [] {
      assert x + y == y;
    } else {
      assert (x + y)[1..] == x[1..] + y;
      RecyclableParts(W.FlatStep(f, Recycling(x[0])), x[1..], y);
    }
  }

  /** What migrate_locked has done: a fault changes nothing, nor does a page that is there already; a page has come
      in, or no frame was found. */
  ghost predicate Result(rc: Rc, moved: bool, uffd: bool, size: nat, b0: Books, b: Books, va: nat) {
    match rc
    case EFAULT => !moved && b == b0
    case ENOMEM => !moved && Starves(uffd, size, b0, b)
    case Ok => if moved then Migrates(uffd, size, b0, b, va) else b == b0 && va in b.t.pte && b.t.pte[va].inVram
  }

  /** The same. Stated so that the verifier looks inside only where `Result` is mentioned. */
  ghost predicate Did(rc: Rc, moved: bool, uffd: bool, size: nat, b0: Books, b: Books, va: nat) {
    forall x {:trigger Result(x, moved, uffd, size, b0, b, va)} :: x == rc ==> Result(x, moved, uffd, size, b0, b, va)
  }

  /** No gap of the free list takes so many bytes. */
  ghost predicate NoGap(free: seq<Block>, bytes: nat) {
    forall a: nat :: !Fits(free, a, Round(bytes, PAGE_SIZE))
  }

  class ManagedMemory {
    const uffd: bool
    const vramBytes: nat
    const span: nat
    const prefetchPages: nat
    const vram: VramAllocator
    const managedVa: VramAllocator
    /** Whether the write-back of the i-th eviction succeeds, under userfaultfd. */
    const copies: nat -> bool
    var tries: nat
    var t: Tables
    var resident: seq<Node>
    var residentPos: map<nat, nat>
    var nextId: nat
    /** Mapped managed ranges: start to end. */
    var ranges: map<nat, nat>
    /** sgMalloc blocks, including freed ones that in-flight commands may still use. */
    ghost var fixed: map<nat, nat>

    /** The next eviction's bytes reach the host: without userfaultfd always, with it if UFFDIO_COPY succeeds. */
    ghost predicate NextCopies()
      reads this
    {
      uffd ==> copies(tries)
    }

    /** The last one did not. */
    ghost predicate LastFailed()
      reads this
    {
      uffd && tries > 0 && !copies(tries - 1)
    }

    /** There is no frame to be had: VRAM is full, and no page gives way. */
    ghost predicate NoFrame()
      reads this, vram
    {
      Full(vramBytes, State()) && (resident == [] || !NextCopies())
    }

    ghost function State(): (b: Books)
      reads this, vram
    {
      Books(t, resident, residentPos, nextId, vram.live)
    }

    ghost function Whole(): (w: W.World)
      reads this, vram, managedVa
    {
      W.World(State(), fixed, managedVa.live)
    }

    /** The memory a program sees. */
    ghost function Flat(): (f: W.FlatMemory)
      reads this, vram, managedVa
    {
      W.Abstract(Whole())
    }

    ghost predicate VramOk()
      reads this, vram
    {
      && vram.Valid() && vram.base == 0 && vram.size == vramBytes && vram.align == PAGE_SIZE && vram.detached == map[]
      && vramBytes % PAGE_SIZE == 0
    }

    ghost predicate VaOk()
      reads this, managedVa
    {
      && managedVa.Valid() && managedVa.base == vramBytes && managedVa.size == span && managedVa.align == PAGE_SIZE
          && managedVa.detached == map[]
      && managedVa != vram
      && ranges.Keys == managedVa.live.Keys && forall a :: a in ranges ==> ranges[a] == a + managedVa.live[a]
    }

    ghost predicate Valid()
      reads this, vram, managedVa
    {
      VramOk() && VaOk() && W.Orderly(uffd, vramBytes, span, Whole())
    }

    /** The list can be walked: every page on it is in VRAM. */
    ghost predicate Walkable()
      reads this, vram
    {
      WalkableBooks(State())
    }

    constructor (uffd: bool, vramBytes: nat, span: nat, prefetchPages: nat, copies: nat -> bool)
      requires vramBytes > 0 && vramBytes % PAGE_SIZE == 0 && span > 0
      ensures Valid() && fresh(vram) && fresh(managedVa) && Whole() == W.EMPTY
      ensures this.uffd == uffd && this.vramBytes == vramBytes && this.span == span
              && this.prefetchPages == prefetchPages && this.copies == copies
    {
      this.uffd, this.vramBytes, this.span, this.prefetchPages := uffd, vramBytes, span, prefetchPages;
      this.copies, tries := copies, 0;
      vram := new VramAllocator(0, vramBytes, PAGE_SIZE);
      managedVa := new VramAllocator(vramBytes, span, PAGE_SIZE);
      t := Tables(map[], map[], map[]);
      resident, residentPos, nextId := [], map[], 0;
      ranges, fixed := map[], map[];
      new;
      W.EmptyGood(uffd, vramBytes, span);
      W.OrderlyIs(uffd, vramBytes, span, W.EMPTY);
    }

    // -------------------------------------------------------------------------------------------
    // Parts of operations
    // -------------------------------------------------------------------------------------------

    /** std::list::erase of the node the position map names. */
    method ForgetResident(va: nat)
      requires NodesOk(resident, residentPos, nextId) && va in residentPos
      modifies this`resident, this`residentPos
      ensures NodesOk(resident, residentPos, nextId) && residentPos == old(residentPos) - {va}
      ensures Vas(resident) == Without(old(Vas(resident)), va)
    {
      var i := NodeOf(va);
      NodesDistinct(resident, residentPos, nextId);
      VasRemove(resident, i);
      NodesRemove(resident, residentPos, nextId, i);
      resident := resident[..i] + resident[i + 1..];
      residentPos := residentPos - {va};
    }

    /** The list node that the position map names. */
    method NodeOf(va: nat) returns (i: nat)
      requires NodesOk(resident, residentPos, nextId) && va in residentPos
      ensures i < |resident| && resident[i].va == va
    {
      var id := residentPos[va];
      ghost var j :| 0 <= j < |resident| && resident[j].va == va;
      i := 0;
      while resident[i].id != id
        invariant i <= j
        decreases |resident| - i
      {
        i := i + 1;
      }
      assert i == j;
    }

    /** Takes one page out of VRAM and hands its frame to the caller. On failure the page stays. */
    method EvictLocked(va: nat) returns (r: Option<nat>)
      requires Walkable() && va in t.host && va in t.pte && (t.pte[va].inVram ==> va in residentPos)
      modifies this`t, this`resident, this`residentPos, this`tries
      ensures r.Some? <==> old(t.pte[va].inVram && NextCopies())
      ensures tries == old(tries) + if old(t.pte[va].inVram) then 1 else 0
      ensures r.Some? ==> Evicts(uffd, old(State()), State(), va) && r.value == old(t.pte[va].frame)
      ensures r.None? ==>
              if old(t.pte[va].inVram) then RollsBack(uffd, old(State()), State(), va) else State() == old(State())
    {
      if !t.pte[va].inVram {
        return None;
      }
      var frame, dirty := t.pte[va].frame, t.pte[va].dirty;
      var published := !uffd || copies(tries);
      tries := tries + 1;
      if !published {
        t := t.(pte := t.pte[va := Pte(true, false, true, frame)]);
        return None;
      }
      t := t.(pte := t.pte[va := Pte(false, false, false, 0)],
              host := if uffd || dirty then t.host[va := Some(t.bytes[frame])] else t.host);
      ForgetResident(va);
      r := Some(frame);
    }

    /** Passes every referenced page in front once, clearing its reference bit. */
    method TurnHand() returns (ghost k: nat)
      requires Walkable()
      modifies this`t, this`resident
      ensures Turns(old(State()), State(), k)
    {
      ghost var b := State();
      k := 0;
      var chances := |resident|;
      while chances > 0
        invariant State() == TurnedBy(b, k) && k + chances == |b.nodes| && Passable(b, k)
      {
        assert resident != [] && var page := resident[0].va;
            page in t.pte && (t.pte[page].accessed <==> Vas(b.nodes)[k] in Acc(b.t)) by {
          TurnedByOk(b, k);
          TurningFront(b, State(), k);
        }
        var page := resident[0].va;
        if !t.pte[page].accessed {
          break;
        }
        t := t.(pte := t.pte[page := t.pte[page].(accessed := false)]);
        resident := resident[1..] + [resident[0]];
        k, chances := k + 1, chances - 1;
      }
      TurnedByOk(b, k);
      TurningEnds(b, State(), k);
    }

    /** CLOCK: tests at most |resident| pages and evicts the first unreferenced one; if all were
        referenced, the one that was in front. */
    method EvictOneLocked() returns (r: Option<nat>)
      requires Walkable()
      modifies this`t, this`resident, this`residentPos, this`tries
      ensures r.Some? <==> old(resident != [] && NextCopies())
      ensures tries == old(tries) + if old(resident) != [] then 1 else 0
      ensures r.Some? ==> EvictsOne(uffd, old(State()), State(), r.value)
      ensures r.None? ==>
              if old(resident) == [] then State() == old(State()) else FailsToEvict(uffd, old(State()), State())
    {
      if resident == [] {
        return None;
      }
      ghost var k := TurnHand();
      ghost var turned := State();
      TurnsStaysWalkable(old(State()), turned, k);
      r := EvictLocked(resident[0].va);
      assert Turns(old(State()), turned, k) && turned.nodes != [];
    }

    /** Takes one frame from the allocator, if there is a free one. */
    method TakeFrame() returns (r: Option<nat>)
      requires VramOk()
      modifies vram
      ensures VramOk()
      ensures r.None? <==> Full(vramBytes, old(State()))
      ensures if r.Some? then Takes(vramBytes, old(State()), State(), r.value) else State() == old(State())
    {
      r := vram.AllocUnit();
    }

    method GiveFrame(frame: nat)
      requires VramOk() && frame in vram.live
      modifies vram
      ensures VramOk() && Gives(old(State()), State(), frame)
    {
      var ok := vram.Free(frame);
    }

    /** A free frame, or one taken from a victim of CLOCK. */
    method FindFrame() returns (r: Option<nat>)
      requires VramOk() && Walkable()
      modifies this`t, this`resident, this`residentPos, vram, this`tries
      ensures VramOk()
      ensures r.None? <==> old(NoFrame())
      ensures r.None? ==> old(resident) == [] || LastFailed()
      ensures if r.Some? then FindsFrame(uffd, vramBytes, old(State()), State(), r.value)
              else Starves(uffd, vramBytes, old(State()), State())
    {
      r := TakeFrame();
      if r.None? {
        r := EvictOneLocked();
      }
    }

    /** The body of migrate_locked. */
    method Migrate(va: nat) returns (rc: Rc, moved: bool)
      requires VramOk() && Walkable() && (va in t.pte ==> PageOk(uffd, t, va))
      modifies this`t, this`resident, this`residentPos, this`nextId, vram, this`tries
      ensures VramOk()
      ensures rc == EFAULT <==> va !in old(t).pte
      ensures rc == ENOMEM <==> old(va in t.pte && !t.pte[va].inVram && NoFrame())
      ensures rc == ENOMEM ==> old(resident) == [] || LastFailed()
      ensures moved <==> rc == Ok && !old(t.pte[va].inVram)
      ensures Did(rc, moved, uffd, vramBytes, old(State()), State(), va)
    {
      ghost var b := State();
      if va !in t.pte {
        return EFAULT, false;
      }
      if t.pte[va].inVram {
        return Ok, false;
      }
      var frame := FindFrame();
      ghost var mid := State();
      if frame.None? {
        return ENOMEM, false;
      }
      StaysOut(uffd, vramBytes, b, mid, frame.value, va);
      t := t.(bytes := t.bytes[frame.value := t.host[va].value],
              pte := t.pte[va := Pte(true, false, true, frame.value)],
              host := if uffd then t.host[va := None] else t.host);
      resident := resident + [Node(nextId, va)];
      residentPos := residentPos[va := nextId];
      nextId := nextId + 1;
      moved, rc := true, Ok;
      assert MapsIn(uffd, mid, State(), va, frame.value);
    }

    /** The managed range with the greatest start not above `va` ends at `end`. */
    ghost predicate EndsAt(va: nat, end: nat)
      reads this
    {
      exists s :: s in ranges && s <= va && ranges[s] == end && forall z :: z in ranges && z <= va ==> z <= s
    }

    /** The end of the managed range with the greatest start not above `va`. */
    method RangeEnd(va: nat) returns (r: Option<nat>)
      ensures r.None? <==> forall s :: s in ranges ==> va < s
      ensures r.Some? ==> EndsAt(va, r.value)
    {
      var todo, best: Option<nat> := ranges.Keys, None;
      while todo != {}
        invariant todo <= ranges.Keys
        invariant best.Some? ==> best.value in ranges && best.value <= va
        invariant forall z :: z in ranges && z !in todo && z <= va ==> best.Some? && z <= best.value
        decreases todo
      {
        var s :| s in todo;
        todo := todo - {s};
        if s <= va && (best.None? || best.value < s) {
          best := Some(s);
        }
      }
      r := if best.Some? then Some(ranges[best.value]) else None;
    }

    /** Takes a page off the list if it is on it, and notes its frame. */
    method UnlistPage(va: nat, frames: seq<nat>) returns (r: seq<nat>)
      requires NodesOk(resident, residentPos, nextId) && (va in residentPos <==> InVram(t, va))
      modifies this`resident, this`residentPos
      ensures NodesOk(resident, residentPos, nextId) && residentPos == old(residentPos) - {va}
      ensures Elements(r) == Elements(frames) + if InVram(t, va) then {t.pte[va].frame} else {}
    {
      r := frames;
      if va in t.host && va in t.pte && t.pte[va].inVram {
        ForgetResident(va);
        r := frames + [t.pte[va].frame];
        ElementsAppend(frames, t.pte[va].frame);
      }
    }

    /** Takes the pages of a range off the list and returns their frames. */
    method UnlistPages(addr: nat, pages: nat) returns (frames: seq<nat>)
      requires NodesOk(resident, residentPos, nextId) && (forall va :: va in residentPos <==> InVram(t, va))
      modifies this`resident, this`residentPos
      ensures NodesOk(resident, residentPos, nextId) && residentPos == old(residentPos) - FirstPages(addr, pages)
      ensures Elements(frames) == FramesOf(t, FirstPages(addr, pages))
    {
      frames := [];
      for i := 0 to pages
        invariant NodesOk(resident, residentPos, nextId) && residentPos == old(residentPos) - FirstPages(addr, i)
        invariant Elements(frames) == FramesOf(t, FirstPages(addr, i))
      {
        var va := addr + i * PAGE_SIZE;
        ghost var rest := residentPos - {va};
        assert rest == old(residentPos) - FirstPages(addr, i + 1)
            && (va in residentPos <==> va in old(residentPos)) by {
          NextMinus(residentPos, old(residentPos), addr, i);
        }
        FramesOfNext(t, addr, i);
        frames := UnlistPage(va, frames);
        assert residentPos == rest;
      }
    }

    method FreeFrames(frames: seq<nat>)
      requires VramOk()
      modifies vram
      ensures VramOk() && vram.live == old(vram.live) - Elements(frames)
    {
      for j := 0 to |frames|
        invariant VramOk() && vram.live == old(vram.live) - Elements(frames[..j])
      {
        ElementsAppend(frames[..j], frames[j]);
        assert frames[..j + 1] == frames[..j] + [frames[j]];
        var ok := vram.Free(frames[j]);
      }
      assert frames[..|frames|] == frames;
    }

    // -------------------------------------------------------------------------------------------
    // Operations
    // -------------------------------------------------------------------------------------------

    /** Moves a page into VRAM. A page that is already there is success without a move; a page that is
        not managed is a fault; without a frame the page stays where it is. */
    method MigrateLocked(va: nat) returns (rc: Rc, moved: bool)
      requires Valid()
      modifies this`t, this`resident, this`residentPos, this`nextId, vram, this`tries
      ensures Valid() && Flat() == old(Flat())
      ensures rc == EFAULT <==> va !in old(t).pte
      ensures rc == ENOMEM <==> old(va in t.pte && !t.pte[va].inVram && NoFrame())
      ensures rc == ENOMEM ==> old(resident) == [] || LastFailed()
      ensures moved <==> rc == Ok && !old(t.pte[va].inVram)
      ensures Did(rc, moved, uffd, vramBytes, old(State()), State(), va)
    {
      ghost var w := Whole();
      assert Walkable() && (va in t.pte ==> PageOk(uffd, t, va)) by {
        W.OrderlyWalkable(uffd, vramBytes, span, w, va);
      }
      rc, moved := Migrate(va);
      KeepOrder(w, rc, moved, va);
    }

    /** Whatever migrate_locked did, the state is valid and the memory the same. */
    lemma KeepOrder(w: W.World, rc: Rc, moved: bool, va: nat)
      requires VramOk() && VaOk() && W.Orderly(uffd, vramBytes, span, w) && Whole() == w.(b := State())
      requires Did(rc, moved, uffd, vramBytes, w.b, State(), va)
      ensures Valid() && Flat() == W.Abstract(w)
    {
      assert Result(rc, moved, uffd, vramBytes, w.b, State(), va);
      W.OrderlyMigrates(uffd, vramBytes, span, w, State(), va);
    }

    /** Where the prefetch from `va` ends, and how many pages it may take. */
    method PrefetchWindow(va: nat) returns (end: nat, budget: nat)
      requires VramOk()
      ensures Sum(vram.live) <= vramBytes
      ensures budget == if exists s :: s in ranges && s <= va
              then Budget(Capacity(vramBytes, Sum(vram.live), |resident|), prefetchPages) else 0
      ensures budget > 0 ==> EndsAt(va, end)
    {
      assert vram.liveBytes == Sum(vram.live) <= vramBytes by {
        vram.UnitFits();
      }
      var r := RangeEnd(va);
      if r.None? {
        return va, 0;
      }
      end, budget := r.value, Budget(Capacity(vramBytes, vram.liveBytes, |resident|), prefetchPages);
    }

    /** Migrates pages from `start` on, within the managed range and the budget; `va` is the first page not
        covered. It ends before the range and the budget do only at an unmanaged page or without a frame. No page it
        migrates is evicted again by it, nor is the demand page appended just before. */
    method PrefetchLocked(start: nat) returns (va: nat, ghost run: seq<Books>, end: nat, budget: nat)
      requires Valid()
      modifies this`t, this`resident, this`residentPos, this`nextId, vram, this`tries
      ensures Valid() && Flat() == old(Flat())
      ensures run != [] && run[0] == old(State()) && va == start + (|run| - 1) * PAGE_SIZE
              && Prefetches(uffd, vramBytes, run, start, State())
      ensures PrefetchSettles(old(State()), State(), start, va)
      ensures budget == if exists s :: s in ranges && s <= start
              then Budget(Capacity(vramBytes, Sum(old(vram.live)), old(|resident|)), prefetchPages) else 0
      ensures budget > 0 ==> EndsAt(start, end)
      ensures |run| - 1 <= budget && (|run| > 1 ==> va < end + PAGE_SIZE)
      ensures |run| - 1 < budget && va < end ==>
              va !in t.pte || (Starves(uffd, vramBytes, run[|run| - 1], State())
                               && (run[|run| - 1].nodes == [] || LastFailed()))
    {
      va, run := start, [State()];
      end, budget := PrefetchWindow(va);
      var i := 0;
      while i < budget && va < end
        invariant 0 <= i <= budget && Valid() && Flat() == old(Flat())
        invariant |run| == i + 1 && run[0] == old(State()) && run[i] == State() && FetchRun(uffd, vramBytes, run, start)
        invariant va == start + i * PAGE_SIZE && (i > 0 ==> va < end + PAGE_SIZE)
        decreases budget - i
      {
        ghost var was := State();
        var rc, moved := MigrateLocked(va);
        assert Result(rc, moved, uffd, vramBytes, was, State(), va);
        if rc != Ok {
          break;
        }
        FetchRunGrows(uffd, vramBytes, run, start, was, State(), va);
        run := run + [State()];
        i, va := i + 1, va + PAGE_SIZE;
      }
      W.OrderlyPrefetch(uffd, vramBytes, span, old(Whole()), run, start, State(), va);
    }

    /** A host thread touches a managed page: if it is in VRAM it comes back, and its frame is free. */
    method ServeHostFault(va: nat) returns (ok: bool)
      requires Valid() && va in t.host && va in t.pte
      modifies this`t, this`resident, this`residentPos, vram, this`tries
      ensures Valid() && Flat() == old(Flat())
      ensures ok <==> old(t.pte[va].inVram ==> NextCopies())
      ensures ok ==> !InVram(t, va)
      ensures ok ==> if old(t.pte[va].inVram) then EvictsAndGives(uffd, old(State()), State(), va)
                     else State() == old(State())
      ensures !ok ==> uffd && State() == old(State()).(t := RolledBack(old(t), va))
    {
      ghost var w := Whole();
      W.OrderlyWalkable(uffd, vramBytes, span, w, va);
      if !t.pte[va].inVram {
        return true;
      }
      var frame := EvictLocked(va);
      if frame.Some? {
        GiveFrame(frame.value);
        assert EvictsAndGives(uffd, w.b, State(), va);
      }
      assert W.Moves(uffd, vramBytes, w.b, State());
      W.OrderlySteps(uffd, vramBytes, span, w, Whole(), W.Move);
      ok := frame.Some?;
    }

    /** Evicts from the front until the list is empty or a write-back fails, through the states of `run`. In
        the first case only sgMalloc blocks are left live. */
    method EvictAllLocked() returns (ghost run: seq<Books>)
      requires Valid()
      modifies this`t, this`resident, this`residentPos, vram, this`tries
      ensures Valid() && Flat() == old(Flat())
      ensures EvictRun(uffd, run) && run[0] == old(State()) && EvictAllEnds(uffd, run[|run| - 1], State())
      ensures resident == [] || LastFailed()
      ensures resident == [] ==> vram.live == fixed
    {
      run := [State()];
      while resident != []
        invariant Valid() && Flat() == old(Flat())
        invariant EvictRun(uffd, run) && run[0] == old(State()) && run[|run| - 1] == State()
        decreases |resident|
      {
        ghost var w := Whole();
        var frame := EvictFront();
        if frame.None? {
          break;
        }
        EvictShortens(uffd, w.b, State());
        EvictRunGrows(uffd, run, w.b, State());
        run := run + [State()];
      }
      W.OrderlyEvictAll(uffd, vramBytes, span, old(Whole()), run, State());
    }

    /** One round of it. */
    method EvictFront() returns (r: Option<nat>)
      requires Valid() && resident != []
      modifies this`t, this`resident, this`residentPos, vram, this`tries
      ensures Valid() && Flat() == old(Flat())
      ensures r.Some? <==> old(NextCopies())
      ensures tries == old(tries) + 1
      ensures if r.Some? then EvictsAndGives(uffd, old(State()), State(), old(resident[0].va))
              else RollsBack(uffd, old(State()), State(), old(resident[0].va))
    {
      ghost var w := Whole();
      W.OrderlyFront(uffd, vramBytes, span, w);
      r := EvictLocked(resident[0].va);
      if r.Some? {
        GiveFrame(r.value);
        assert EvictsAndGives(uffd, w.b, State(), w.b.nodes[0].va);
      }
      assert W.Moves(uffd, vramBytes, w.b, State());
      W.OrderlySteps(uffd, vramBytes, span, w, Whole(), W.Move);
    }

    /** Unmaps an sgMalloc block and returns its frames. */
    method RecycleVram(addr: nat)
      requires Valid() && addr in fixed
      modifies this`t, this`fixed, vram
      ensures Valid() && Flat() == W.FlatStep(old(Flat()), W.Recycle(addr))
    {
      ghost var w := Whole();
      W.OrderlyBlock(uffd, vramBytes, span, w, addr);
      var pages := FirstPages(addr, vram.live[addr] / PAGE_SIZE);
      t := t.(pte := t.pte - pages);
      var ok := vram.Free(addr);
      fixed := fixed - {addr};
      W.OrderlySteps(uffd, vramBytes, span, w, Whole(), W.Recycle(addr));
    }

    /** Unlists the pages of a managed range, unmaps them, and returns their frames and the addresses. */
    method RecycleManaged(addr: nat)
      requires Valid() && addr in ranges
      modifies this`t, this`resident, this`residentPos, this`ranges, vram, managedVa
      ensures Valid() && Flat() == W.FlatStep(old(Flat()), W.RecycleManaged(addr))
    {
      ghost var w := Whole();
      W.OrderlyRange(uffd, vramBytes, span, w, addr);
      var n := (ranges[addr] - addr) / PAGE_SIZE;
      DropPages(addr, n);
      var ok := managedVa.Free(addr);
      W.OrderlySteps(uffd, vramBytes, span, w, Whole(), W.RecycleManaged(addr));
    }

    /** The part of it under mem_lock. */
    method DropPages(addr: nat, pages: nat)
      requires VramOk() && NodesOk(resident, residentPos, nextId) && (forall va :: va in residentPos <==> InVram(t, va))
      modifies this`t, this`resident, this`residentPos, this`ranges, vram
      ensures VramOk() && Drops(old(State()), State(), FirstPages(addr, pages)) && ranges == old(ranges) - {addr}
    {
      ranges := ranges - {addr};
      var frames := UnlistPages(addr, pages);
      t := t.(pte := t.pte - FirstPages(addr, pages), host := t.host - FirstPages(addr, pages));
      FreeFrames(frames);
    }

    /** Recycles allocations whose commands have retired, in order. */
    method Reclaim(list: seq<Freed>)
      requires Valid() && Recyclable(Flat(), list)
      modifies this`t, this`resident, this`residentPos, this`ranges, this`fixed, vram, managedVa
      ensures Valid() && Flat() == Recycled(old(Flat()), list)
    {
      for i := 0 to |list|
        invariant Valid() && Recyclable(Flat(), list[i..]) && Recycled(Flat(), list[i..]) == Recycled(old(Flat()), list)
      {
        assert list[i..][1..] == list[i + 1..] && list[i..][0] == list[i];
        match list[i] {
          case FreedVram(addr) => RecycleVram(addr);
          case FreedManaged(addr) => RecycleManaged(addr);
        }
      }
      assert list[|list|..] == [];
    }

    /** Frames for an sgMalloc block, mapped at their own addresses; `dirt` is what VRAM holds there. */
    method TakeBlock(bytes: nat, dirt: nat -> Page) returns (r: Option<nat>, ghost fill: map<nat, Page>)
      requires Valid() && bytes > 0
      modifies this`t, this`fixed, vram
      ensures Valid()
      ensures r.Some? ==>
              Flat() == W.FlatStep(old(Flat()), W.Alloc(r.value, Round(bytes, PAGE_SIZE), fill))
              && fill.Keys == PagesOf(r.value, Round(bytes, PAGE_SIZE))
      ensures r.None? ==> Whole() == old(Whole()) && NoGap(old(vram.free), bytes) && vram.free == old(vram.free)
    {
      fill := map[];
      ghost var w := Whole();
      r := vram.Alloc(bytes);
      if r.None? {
        return;
      }
      var addr, n := r.value, (bytes + PAGE_SIZE - 1) / PAGE_SIZE;
      fill := MapBlock(w, addr, n, dirt);
    }

    /** Maps frames just taken for an sgMalloc block; `w` is the memory before they were taken. */
    method MapBlock(ghost w: W.World, addr: nat, n: nat, dirt: nat -> Page) returns (fill: map<nat, Page>)
      requires VramOk() && W.Orderly(uffd, vramBytes, span, w) && addr !in w.b.live
      requires Whole() == w.(b := w.b.(live := w.b.live[addr := n * PAGE_SIZE]))
      modifies this`t, this`fixed
      ensures W.Orderly(uffd, vramBytes, span, Whole())
              && Flat() == W.FlatStep(W.Abstract(w), W.Alloc(addr, n * PAGE_SIZE, fill))
      ensures fill.Keys == PagesOf(addr, n * PAGE_SIZE)
    {
      fill := map va | va in FirstPages(addr, n) :: dirt(va);
      t := W.Mapped(t, fill);
      fixed := fixed[addr := n * PAGE_SIZE];
      assert Whole() == W.WithFixed(w, addr, n * PAGE_SIZE, fill);
      W.OrderlyTakesBlock(uffd, vramBytes, span, w, vram.free, addr, n, fill);
    }

    /** One try, after recycling. `free` is the free list it was made on. */
    method ReclaimAndTake(list: seq<Freed>, bytes: nat, dirt: nat -> Page)
        returns (r: Option<nat>, ghost fill: map<nat, Page>, ghost free: seq<Block>)
      requires Valid() && Recyclable(Flat(), list) && bytes > 0
      modifies this`t, this`resident, this`residentPos, this`ranges, this`fixed, vram, managedVa
      ensures Valid()
      ensures r.Some? ==>
              Flat() == W.FlatStep(Recycled(old(Flat()), list), W.Alloc(r.value, Round(bytes, PAGE_SIZE), fill))
              && fill.Keys == PagesOf(r.value, Round(bytes, PAGE_SIZE))
      ensures r.None? ==> Flat() == Recycled(old(Flat()), list) && free == vram.free && NoGap(free, bytes)
    {
      Reclaim(list);
      free := vram.free;
      r, fill := TakeBlock(bytes, dirt);
    }

    /** The last try, after managed pages have given way. */
    method EvictAndTake(bytes: nat, dirt: nat -> Page)
        returns (r: Option<nat>, ghost fill: map<nat, Page>, ghost free: seq<Block>)
      requires Valid() && bytes > 0
      modifies this`t, this`resident, this`residentPos, this`tries, this`fixed, vram
      ensures Valid()
      ensures r.Some? ==>
              Flat() == W.FlatStep(old(Flat()), W.Alloc(r.value, Round(bytes, PAGE_SIZE), fill))
              && fill.Keys == PagesOf(r.value, Round(bytes, PAGE_SIZE))
      ensures r.None? ==> Flat() == old(Flat()) && free == vram.free && NoGap(free, bytes)
      ensures r.None? ==> vram.live == fixed || LastFailed()
    {
      ghost var run := EvictAllLocked();
      free := vram.free;
      r, fill := TakeBlock(bytes, dirt);
    }

    /**
      ALLOC. `finished` are the freed allocations the device is done with now, `drained` those it is done with
      after a drain, `drains` whether the drain succeeds. It reclaims and tries; drains, reclaims and tries; evicts
      every managed page and tries. It fails only if even then no gap is large enough, or if the drain it needs fails.
    */
    method Alloc(bytes: nat, finished: seq<Freed>, drained: seq<Freed>, drains: bool, dirt: nat -> Page)
        returns (r: Option<nat>, ghost used: seq<Freed>, ghost fill: map<nat, Page>, ghost tried: seq<seq<Block>>)
      requires Valid() && Recyclable(Flat(), finished + drained)
      modifies this, vram, managedVa
      ensures Valid() && (bytes == 0 ==> r.None? && used == [] && tried == [])
      ensures bytes > 0 ==> 1 <= |tried| <= 3 && used == if |tried| == 1 then finished else finished + drained
      ensures forall i :: 0 <= i < |tried| - 1 ==> NoGap(tried[i], bytes)
      ensures |tried| <= 2 ==> tries == old(tries)
      ensures r.Some? ==>
              Flat() == W.FlatStep(Recycled(old(Flat()), used), W.Alloc(r.value, Round(bytes, PAGE_SIZE), fill))
      ensures r.Some? ==> fill.Keys == PagesOf(r.value, Round(bytes, PAGE_SIZE))
      ensures r.None? ==> Flat() == Recycled(old(Flat()), used)
      ensures r.None? && bytes > 0 && !drains ==> used == finished
      ensures r.None? && bytes > 0 && drains ==>
              used == finished + drained && (vram.live == fixed || LastFailed())
      ensures r.None? && bytes > 0 ==> NoGap(vram.free, bytes)
    {
      r, used, fill, tried := None, [], map[], [];
      if bytes == 0 {
        return;
      }
      RecyclableParts(Flat(), finished, drained);
      ghost var free;
      r, fill, free := ReclaimAndTake(finished, bytes, dirt);
      used, tried := finished, [free];
      if r.Some? || !drains {
        return;
      }
      r, fill, free := ReclaimAndTake(drained, bytes, dirt);
      used, tried := finished + drained, tried + [free];
      if r.Some? {
        return;
      }
      r, fill, free := EvictAndTake(bytes, dirt);
      tried := tried + [free];
    }

    /** ALLOC_MANAGED: addresses, and zeroed pages on the host. No frame is taken, and no page is evicted. `hosts`:
        whether the host can give it pages. If it cannot, `populated` is false, and the addresses go back. */
    method AllocManaged(bytes: nat, finished: seq<Freed>, drained: seq<Freed>, drains: bool, hosts: bool)
        returns (r: Option<nat>, populated: bool, ghost used: seq<Freed>, ghost fill: map<nat, Page>,
                 ghost tried: seq<seq<Block>>)
      requires Valid() && Recyclable(Flat(), finished + drained)
      modifies this, vram, managedVa
      ensures Valid() && (bytes == 0 ==> r.None? && used == [] && tried == [])
      ensures bytes > 0 ==> 1 <= |tried| <= 2 && used == if |tried| == 1 then finished else finished + drained
      ensures forall i :: 0 <= i < |tried| - 1 ==> NoGap(tried[i], bytes)
      ensures tries == old(tries) && (!populated ==> !hosts)
      ensures r.Some? ==>
              Flat() == W.FlatStep(Recycled(old(Flat()), used), W.AllocManaged(r.value, Round(bytes, PAGE_SIZE), fill))
      ensures r.Some? ==>
              fill.Keys == PagesOf(r.value, Round(bytes, PAGE_SIZE)) && forall va :: va in fill ==> fill[va] == ZERO
      ensures r.None? ==> Flat() == Recycled(old(Flat()), used)
      ensures r.None? && bytes > 0 && populated ==>
              && used == (if drains then finished + drained else finished)
              && NoGap(managedVa.free, bytes)
      ensures r.Some? ==> populated
    {
      r, populated, used, fill, tried := None, true, [], map[], [];
      if bytes == 0 {
        return;
      }
      RecyclableParts(Flat(), finished, drained);
      Reclaim(finished);
      used, tried := finished, [managedVa.free];
      r, populated, fill := TakeRange(bytes, hosts);
      if r.None? && populated && drains {
        Reclaim(drained);
        used, tried := finished + drained, tried + [managedVa.free];
        r, populated, fill := TakeRange(bytes, hosts);
      }
    }

    /** One try of it. */
    method TakeRange(bytes: nat, hosts: bool) returns (r: Option<nat>, populated: bool, ghost fill: map<nat, Page>)
      requires Valid() && bytes > 0
      modifies this`t, this`ranges, managedVa
      ensures Valid()
      ensures r.Some? ==>
              Flat() == W.FlatStep(old(Flat()), W.AllocManaged(r.value, Round(bytes, PAGE_SIZE), fill))
              && fill.Keys == PagesOf(r.value, Round(bytes, PAGE_SIZE))
      ensures r.Some? ==> forall va :: va in fill ==> fill[va] == ZERO
      ensures r.None? ==> Whole() == old(Whole())
      ensures r.None? && populated ==> NoGap(managedVa.free, bytes)
      ensures r.Some? ==> populated && hosts
      ensures !populated ==> !hosts
      ensures r.None? && populated ==> managedVa.free == old(managedVa.free)
    {
      populated, fill := true, map[];
      ghost var w := Whole();
      r := managedVa.Alloc(bytes);
      if r.None? {
        return;
      }
      populated := hosts;
      if !populated {
        var ok := managedVa.Free(r.value);
        assert managedVa.live == old(managedVa.live);
        return None, false, fill;
      }
      var addr, n := r.value, (bytes + PAGE_SIZE - 1) / PAGE_SIZE;
      fill := MapRange(w, addr, n);
    }

    /** Maps addresses just taken for a managed range to zeroed host pages. */
    method MapRange(ghost w: W.World, addr: nat, n: nat) returns (fill: map<nat, Page>)
      requires VramOk() && managedVa.Valid() && W.Orderly(uffd, vramBytes, span, w) && addr !in w.managed
      requires managedVa.base == vramBytes && managedVa.size == span && managedVa.align == PAGE_SIZE
               && managedVa.detached == map[]
      requires Whole() == w.(managed := w.managed[addr := n * PAGE_SIZE])
      modifies this`t, this`ranges
      ensures W.Orderly(uffd, vramBytes, span, Whole())
              && Flat() == W.FlatStep(W.Abstract(w), W.AllocManaged(addr, n * PAGE_SIZE, fill))
      ensures fill.Keys == PagesOf(addr, n * PAGE_SIZE) && (forall va :: va in fill ==> fill[va] == ZERO)
              && ranges == old(ranges)[addr := addr + n * PAGE_SIZE]
    {
      fill := map va | va in FirstPages(addr, n) :: ZERO;
      t := W.Hosted(t, fill);
      ranges := ranges[addr := addr + n * PAGE_SIZE];
      assert Whole() == W.WithManaged(w, addr, n * PAGE_SIZE, fill);
      W.OrderlyTakesRange(uffd, vramBytes, span, w, managedVa.free, addr, n, fill);
    }
  }

  /** A page of zeroes. */
  const ZERO: Page := seq(PAGE_SIZE, _ => 0)
}
