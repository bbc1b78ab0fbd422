/**
  Every operation on memory that the driver serialises, at once: migrations and evictions, ALLOC,
  ALLOC_MANAGED and the recycling of both, and the stores of engines and host threads in between.
  Each one is a step of a flat memory, and the ownership of frames holds in every reachable state.
*/
module World {
  import opened Base
  import opened Allocator
  import opened Paging
  import Runs

  /** `fixed` are the sgMalloc blocks and `managed` the managed address ranges; both include blocks whose
      FREE still waits for commands in flight. */
  datatype World = World(b: Books, fixed: map<nat, nat>, managed: map<nat, nat>)

  /** `size` bytes of VRAM; managed ranges lie between `size` and `size + span`. */
  ghost predicate Good(uffd: bool, size: nat, span: nat, w: World) {
    && BooksOk(uffd, size, w.fixed, w.b, {})
    && Apart(size, span, PAGE_SIZE, w.managed)
    && forall va :: va in w.b.t.host ==> size <= va && Holds(w.managed, va)
  }

  /** Only whole pages are mapped. */
  ghost predicate Paged(t: Tables) {
    forall va :: va in t.pte ==> va % PAGE_SIZE == 0
  }

  // ---------------------------------------------------------------------------------------------
  // Steps
  // ---------------------------------------------------------------------------------------------

  /** One critical section of mem_lock, or one round of a longer one. */
  ghost predicate Moves(uffd: bool, size: nat, b: Books, b': Books) {
    || (exists va: nat :: Migrates(uffd, size, b, b', va))
    || Starves(uffd, size, b, b')
    || (exists va: nat :: EvictsAndGives(uffd, b, b', va))
    || (exists va: nat :: RollsBack(uffd, b, b', va))
  }

  /** map_vram of the pages of `fill`, each at its own address. */
  function Mapped(t: Tables, fill: map<nat, Page>): (r: Tables) {
    t.(pte := t.pte + (map va | va in fill :: Pte(true, false, false, va)), bytes := t.bytes + fill)
  }

  /** map_host of the pages of `fill`. */
  function Hosted(t: Tables, fill: map<nat, Page>): (r: Tables) {
    t.(pte := t.pte + (map va | va in fill :: Pte(false, false, false, 0)),
        host := t.host + (map va | va in fill :: Some(fill[va])))
  }

  /** ALLOC: a block of VRAM mapped at its own address. `fill` is what the frames hold. */
  function WithFixed(w: World, addr: nat, len: nat, fill: map<nat, Page>): (r: World) {
    w.(fixed := w.fixed[addr := len],
       b := w.b.(live := w.b.live[addr := len],
                 t := Mapped(w.b.t, fill)))
  }

  /** The allocator gave out [addr, addr + len). */
  ghost predicate Granted(base: nat, size: nat, held: map<nat, nat>, addr: nat, len: nat) {
    addr !in held && Apart(base, size, PAGE_SIZE, held[addr := len])
  }

  function WithManaged(w: World, addr: nat, len: nat, fill: map<nat, Page>): (r: World) {
    w.(managed := w.managed[addr := len],
       b := w.b.(t := Hosted(w.b.t, fill)))
  }

  function WithoutFixed(w: World, addr: nat, pages: set<nat>): (r: World) {
    w.(fixed := w.fixed - {addr},
       b := w.b.(live := w.b.live - {addr}, t := w.b.t.(pte := w.b.t.pte - pages)))
  }

  /** Recycling a managed range. */
  ghost predicate DropsManaged(w: World, w': World, addr: nat, pages: set<nat>) {
    Drops(w.b, w'.b, pages) && w'.fixed == w.fixed && w'.managed == w.managed - {addr}
  }

  /** An engine stores to a page in VRAM: its translation set ACCESSED and DIRTY. */
  function Stored(t: Tables, va: nat, page: Page): (r: Tables)
    requires va in t.pte
  {
    t.(pte := t.pte[va := t.pte[va].(accessed := true, dirty := true)], bytes := t.bytes[t.pte[va].frame := page])
  }

  /** A host thread stores to a managed page that the host holds. */
  function HostStore(w: World, va: nat, page: Page): (r: World) {
    w.(b := w.b.(t := w.b.t.(host := w.b.t.host[va := Some(page)])))
  }

  datatype Action =
    | Move
    | Alloc(addr: nat, len: nat, fill: map<nat, Page>)
    | AllocManaged(addr: nat, len: nat, fill: map<nat, Page>)
    | Recycle(addr: nat)
    | RecycleManaged(addr: nat)
    | Store(va: nat, page: Page)
    | StoreFromHost(va: nat, page: Page)
    | Load(va: nat)

  ghost predicate Does(uffd: bool, size: nat, span: nat, w: World, w': World, a: Action) {
    match a
    case Move => w' == w.(b := w'.b) && Moves(uffd, size, w.b, w'.b)
    case Alloc(addr, len, fill) =>
      && Granted(0, size, w.b.live, addr, len) && fill.Keys == PagesOf(addr, len)
      && w' == WithFixed(w, addr, len, fill)
    case AllocManaged(addr, len, fill) =>
      Granted(size, span, w.managed, addr, len) && fill.Keys == PagesOf(addr, len)
          && w' == WithManaged(w, addr, len, fill)
    case Recycle(addr) => addr in w.fixed && w' == WithoutFixed(w, addr, PagesOf(addr, w.fixed[addr]))
    case RecycleManaged(addr) => addr in w.managed && DropsManaged(w, w', addr, PagesOf(addr, w.managed[addr]))
    case Store(va, page) => va in w.b.t.pte && w.b.t.pte[va].inVram && w' == w.(b := w.b.(t := Stored(w.b.t, va, page)))
    case StoreFromHost(va, page) =>
      && va in w.b.t.host && va in w.b.t.pte && !w.b.t.pte[va].inVram
      && w' == HostStore(w, va, page)
    case Load(va) =>
      && va in w.b.t.pte
      && w' == w.(b := w.b.(t := w.b.t.(pte := w.b.t.pte[va := w.b.t.pte[va].(accessed := true)])))
  }

  // ---------------------------------------------------------------------------------------------
  // Flat memory
  // ---------------------------------------------------------------------------------------------

  /** What programs see: bytes by address, wherever the page is. */
  ghost function Flat(w: World): (r: map<nat, Option<Page>>) {
    map va | va in w.b.t.pte :: Logical(w.b.t, va)
  }

  /** A memory without frames, tables or a host side: bytes by address and the blocks given out. */
  datatype FlatMemory = FlatMemory(bytes: map<nat, Option<Page>>, fixed: map<nat, nat>, managed: map<nat, nat>)

  ghost function Abstract(w: World): (f: FlatMemory) {
    FlatMemory(Flat(w), w.fixed, w.managed)
  }

  /** What an action does to it. Moves and loads do nothing. */
  ghost function FlatStep(f: FlatMemory, a: Action): (r: FlatMemory) {
    match a
    case Move | Load(_) => f
    case Alloc(addr, len, fill) =>
        f.(bytes := f.bytes + (map va | va in fill :: Some(fill[va])), fixed := f.fixed[addr := len])
    case AllocManaged(addr, len, fill) =>
        f.(bytes := f.bytes + (map va | va in fill :: Some(fill[va])), managed := f.managed[addr := len])
    case Recycle(addr) => if addr in f.fixed
        then f.(bytes := f.bytes - PagesOf(addr, f.fixed[addr]), fixed := f.fixed - {addr}) else f
    case RecycleManaged(addr) =>
      if addr in f.managed then f.(bytes := f.bytes - PagesOf(addr, f.managed[addr]), managed := f.managed - {addr})
          else f
    case Store(va, page) => f.(bytes := f.bytes[va := Some(page)])
    case StoreFromHost(va, page) => f.(bytes := f.bytes[va := Some(page)])
  }

  lemma SameBytesFlat(w: World, w': World)
    requires SameBytes(w.b.t, w'.b.t)
    ensures Flat(w') == Flat(w)
  {
  }

  // ---------------------------------------------------------------------------------------------
  // Each step
  // ---------------------------------------------------------------------------------------------

  /** Migration, eviction, rollback: the books stay in order and every page keeps its bytes. */
  lemma MovesKeeps(uffd: bool, size: nat, fixed: map<nat, nat>, b: Books, b': Books)
    requires BooksOk(uffd, size, fixed, b, {}) && Moves(uffd, size, b, b')
    ensures BooksOk(uffd, size, fixed, b', {}) && SameBytes(b.t, b'.t)
  {
    if va: nat :| Migrates(uffd, size, b, b', va) {
      MigratesKeeps(uffd, size, fixed, b, b', va);
    } else if va: nat :| EvictsAndGives(uffd, b, b', va) {
      EvictsAndGivesKeeps(uffd, size, fixed, b, b', va);
    } else if va: nat :| RollsBack(uffd, b, b', va) {
      RollsBackKeeps(uffd, size, fixed, b, b', va);
    } else {
      StarvesKeeps(uffd, size, fixed, b, b');
    }
  }

  lemma NewBlockClear(base: nat, size: nat, held: map<nat, nat>, addr: nat, len: nat)
    requires Granted(base, size, held, addr, len)
    ensures Apart(base, size, PAGE_SIZE, held) && base <= addr && addr + len <= base + size && len > 0
    ensures forall a :: addr <= a < addr + len ==> !Holds(held, a)
  {
    var now := held[addr := len];
    assert addr in now;
    assert forall s :: s in held ==> s in now && now[s] == held[s];
  }

  /** Every mapped frame lies in a live block of the allocator. */
  lemma FrameHeld(uffd: bool, size: nat, fixed: map<nat, nat>, b: Books, va: nat)
    requires BooksOk(uffd, size, fixed, b, {}) && va in b.t.pte && b.t.pte[va].inVram
    ensures Holds(b.live, b.t.pte[va].frame)
  {
    var f := b.t.pte[va].frame;
    if va in b.t.host {
      assert InVram(b.t, va) && f in Frames(b.t);
      assert f in b.live && b.live[f] == PAGE_SIZE;
    } else {
      assert PageOk(uffd, b.t, va);
      var s :| s in fixed && s <= va < s + fixed[s];
      assert s in b.live;
    }
  }

  /** What the allocator gives out is granted in this sense. */
  lemma AllocatorGrants(base: nat, size: nat, free: seq<Block>, live: map<nat, nat>, addr: nat, len: nat)
    requires Consistent(base, size, PAGE_SIZE, free, live[addr := len], map[]) && addr !in live
    ensures Granted(base, size, live, addr, len)
  {
    assert live[addr := len] + map[] == live[addr := len];
  }

  /** The identity mapping made by ALLOC never meets a mapped page, nor a frame in use. */
  lemma AllocNeverCollides(uffd: bool, size: nat, span: nat, w: World, addr: nat, len: nat)
    requires Good(uffd, size, span, w) && Granted(0, size, w.b.live, addr, len)
    ensures forall va :: va in w.b.t.pte ==> va !in PagesOf(addr, len)
    ensures forall va :: va in w.b.t.pte && w.b.t.pte[va].inVram ==> w.b.t.pte[va].frame !in PagesOf(addr, len)
  {
    NewBlockClear(0, size, w.b.live, addr, len);
    forall va | va in w.b.t.pte
      ensures va !in PagesOf(addr, len)
      ensures w.b.t.pte[va].inVram ==> w.b.t.pte[va].frame !in PagesOf(addr, len)
    {
      if w.b.t.pte[va].inVram {
        FrameHeld(uffd, size, w.fixed, w.b, va);
      }
      assert PageOk(uffd, w.b.t, va);
    }
  }

  /** A new managed range never meets a mapped page. */
  lemma AllocManagedNeverCollides(uffd: bool, size: nat, span: nat, w: World, addr: nat, len: nat)
    requires Good(uffd, size, span, w) && Granted(size, span, w.managed, addr, len)
    ensures forall va :: va in w.b.t.pte ==> va !in PagesOf(addr, len)
  {
    NewBlockClear(size, span, w.managed, addr, len);
    forall va | va in w.b.t.pte
      ensures va !in PagesOf(addr, len)
    {
      assert PageOk(uffd, w.b.t, va);
      if va !in w.b.t.host {
        var s :| s in w.fixed && s <= va < s + w.fixed[s];
        assert s in w.b.live;
      }
    }
  }

  lemma FillsTablesAt(uffd: bool, t: Tables, t': Tables, fill: map<nat, Page>, va: nat)
    requires t.pte.Keys !! fill.Keys && t.host.Keys <= t.pte.Keys && t' == Mapped(t, fill) && va in t'.pte
    requires va in t.pte ==> PageOk(uffd, t, va) && (t.pte[va].inVram ==> t.pte[va].frame !in fill)
    ensures PageOk(uffd, t', va)
    ensures Logical(t', va) == if va in fill then Some(fill[va]) else Logical(t, va)
  {
  }

  lemma FillsTables(uffd: bool, t: Tables, t': Tables, fill: map<nat, Page>)
    requires TablesOk(uffd, t) && t.pte.Keys !! fill.Keys
    requires forall va :: va in t.pte && t.pte[va].inVram ==> t.pte[va].frame !in fill
    requires t' == Mapped(t, fill)
    ensures TablesOk(uffd, t')
    ensures forall va :: va in t.pte ==> Logical(t', va) == Logical(t, va)
    ensures forall va :: va in fill ==> Logical(t', va) == Some(fill[va])
  {
    forall va | va in t'.pte
      ensures PageOk(uffd, t', va)
      ensures Logical(t', va) == if va in fill then Some(fill[va]) else Logical(t, va)
    {
      FillsTablesAt(uffd, t, t', fill, va);
    }
  }

  lemma FillsHostAt(uffd: bool, t: Tables, t': Tables, fill: map<nat, Page>, va: nat)
    requires t.pte.Keys !! fill.Keys && t.host.Keys <= t.pte.Keys && t' == Hosted(t, fill) && va in t'.pte
    requires va in t.pte ==> PageOk(uffd, t, va)
    ensures PageOk(uffd, t', va)
    ensures Logical(t', va) == if va in fill then Some(fill[va]) else Logical(t, va)
  {
  }

  lemma FillsHost(uffd: bool, t: Tables, t': Tables, fill: map<nat, Page>)
    requires TablesOk(uffd, t) && t.pte.Keys !! fill.Keys
    requires t' == Hosted(t, fill)
    ensures TablesOk(uffd, t')
    ensures forall va :: va in t.pte ==> Logical(t', va) == Logical(t, va)
    ensures forall va :: va in fill ==> Logical(t', va) == Some(fill[va])
  {
    forall va | va in t'.pte
      ensures PageOk(uffd, t', va)
      ensures Logical(t', va) == if va in fill then Some(fill[va]) else Logical(t, va)
    {
      FillsHostAt(uffd, t, t', fill, va);
    }
  }

  lemma SameFrames(t: Tables, t': Tables)
    requires forall va :: InVram(t', va) <==> InVram(t, va)
    requires forall va :: InVram(t, va) && InVram(t', va) ==> t'.pte[va].frame == t.pte[va].frame
    ensures Frames(t') == Frames(t)
  {
    forall f | f in Frames(t)
      ensures f in Frames(t')
    {
      var va :| va in t.host && InVram(t, va) && t.pte[va].frame == f;
      assert InVram(t', va) && va in t'.host;
    }
    forall f | f in Frames(t')
      ensures f in Frames(t)
    {
      var va :| va in t'.host && InVram(t', va) && t'.pte[va].frame == f;
      assert InVram(t, va) && va in t.host;
    }
  }

  lemma LedgerGrant(t: Tables, t': Tables, fixed: map<nat, nat>, live: map<nat, nat>, addr: nat, len: nat)
    requires LedgerOk(t, fixed, live, {}) && Frames(t') == Frames(t) && addr !in live
    ensures LedgerOk(t', fixed[addr := len], live[addr := len], {})
  {
  }

  lemma HoldsGrows(held: map<nat, nat>, addr: nat, len: nat, a: int)
    requires addr !in held && (Holds(held, a) || addr <= a < addr + len)
    ensures Holds(held[addr := len], a)
  {
    HoldsInsert(held, addr, len);
  }

  lemma FixedGrant(t: Tables, t': Tables, fixed: map<nat, nat>, addr: nat, len: nat)
    requires FixedOk(t, fixed) && addr !in fixed && t'.host == t.host
    requires forall va :: va in t'.pte ==> va in t.pte || addr <= va < addr + len
    ensures FixedOk(t', fixed[addr := len])
  {
    forall va | va in t'.pte && va !in t'.host
      ensures Holds(fixed[addr := len], va)
    {
      HoldsGrows(fixed, addr, len, va);
    }
  }

  lemma ManagedGrant(size: nat, span: nat, t: Tables, t': Tables, managed: map<nat, nat>, addr: nat, len: nat,
                     fill: map<nat, Page>)
    requires forall va :: va in t.host ==> size <= va && Holds(managed, va)
    requires Granted(size, span, managed, addr, len) && fill.Keys == PagesOf(addr, len)
    requires t'.host.Keys == t.host.Keys + fill.Keys
    ensures forall va :: va in t'.host ==> size <= va && Holds(managed[addr := len], va)
  {
    NewBlockClear(size, span, managed, addr, len);
    forall va | va in t'.host
      ensures size <= va && Holds(managed[addr := len], va)
    {
      HoldsGrows(managed, addr, len, va);
      assert va in fill ==> PageIn(addr, len, va);
    }
  }

  lemma LedgerSameFrames(t: Tables, t': Tables, fixed: map<nat, nat>, live: map<nat, nat>)
    requires LedgerOk(t, fixed, live, {}) && Frames(t') == Frames(t)
    ensures LedgerOk(t', fixed, live, {})
  {
  }

  lemma FlatGrows(w: World, w': World, fill: map<nat, Page>)
    requires w'.b.t.pte.Keys == w.b.t.pte.Keys + fill.Keys && fill.Keys !! w.b.t.pte.Keys
    requires forall va :: va in w.b.t.pte ==> Logical(w'.b.t, va) == Logical(w.b.t, va)
    requires forall va :: va in fill ==> Logical(w'.b.t, va) == Some(fill[va])
    ensures fill.Keys !! Flat(w).Keys && Flat(w') == Flat(w) + (map va | va in fill :: Some(fill[va]))
  {
  }

  lemma InVramSame(t: Tables, t': Tables, fill: map<nat, Page>)
    requires t.pte.Keys !! fill.Keys && t.host.Keys <= t.pte.Keys
    requires t' == Mapped(t, fill) || t' == Hosted(t, fill)
    ensures forall va :: InVram(t', va) <==> InVram(t, va)
    ensures Frames(t') == Frames(t)
  {
    SameFrames(t, t');
  }

  lemma AllocFlat(uffd: bool, w: World, addr: nat, len: nat, fill: map<nat, Page>)
    requires TablesOk(uffd, w.b.t) && w.b.t.pte.Keys !! fill.Keys
    requires TablesOk(uffd, Mapped(w.b.t, fill))
    requires forall va :: va in w.b.t.pte ==> Logical(Mapped(w.b.t, fill), va) == Logical(w.b.t, va)
    requires forall va :: va in fill ==> Logical(Mapped(w.b.t, fill), va) == Some(fill[va])
    ensures Abstract(WithFixed(w, addr, len, fill)) == FlatStep(Abstract(w), Alloc(addr, len, fill))
  {
    FlatGrows(w, WithFixed(w, addr, len, fill), fill);
  }

  lemma AllocKeepsGood(uffd: bool, size: nat, span: nat, w: World, w': World, addr: nat, len: nat, fill: map<nat, Page>)
    requires Good(uffd, size, span, w) && Does(uffd, size, span, w, w', Alloc(addr, len, fill))
    ensures Good(uffd, size, span, w') && Abstract(w') == FlatStep(Abstract(w), Alloc(addr, len, fill))
  {
    var t, t' := w.b.t, w'.b.t;
    AllocNeverCollides(uffd, size, span, w, addr, len);
    FillsTables(uffd, t, t', fill);
    assert Abstract(w') == FlatStep(Abstract(w), Alloc(addr, len, fill)) by {
      AllocFlat(uffd, w, addr, len, fill);
    }
    assert Good(uffd, size, span, w') by {
      InVramSame(t, t', fill);
      LedgerGrant(t, t', w.fixed, w.b.live, addr, len);
      FixedGrant(t, t', w.fixed, addr, len);
    }
  }

  lemma FixedSame(t: Tables, t': Tables, fixed: map<nat, nat>)
    requires FixedOk(t, fixed) && forall va :: va in t'.pte && va !in t'.host ==> va in t.pte && va !in t.host
    ensures FixedOk(t', fixed)
  {
  }

  lemma SameFramesKeeps(uffd: bool, size: nat, fixed: map<nat, nat>, b: Books, b': Books)
    requires BooksOk(uffd, size, fixed, b, {}) && b' == b.(t := b'.t)
    requires TablesOk(uffd, b'.t) && FixedOk(b'.t, fixed) && Frames(b'.t) == Frames(b.t)
             && forall va :: InVram(b'.t, va) <==> InVram(b.t, va)
    ensures BooksOk(uffd, size, fixed, b', {})
  {
    LedgerSameFrames(b.t, b'.t, fixed, b.live);
  }

  lemma AllocManagedBooks(uffd: bool, size: nat, fixed: map<nat, nat>, b: Books, fill: map<nat, Page>)
    requires BooksOk(uffd, size, fixed, b, {}) && b.t.pte.Keys !! fill.Keys
    ensures BooksOk(uffd, size, fixed, b.(t := Hosted(b.t, fill)), {})
  {
    var t, t' := b.t, Hosted(b.t, fill);
    FixedSame(t, t', fixed);
    FillsHost(uffd, t, t', fill);
    InVramSame(t, t', fill);
    SameFramesKeeps(uffd, size, fixed, b, b.(t := t'));
  }

  lemma AllocManagedFlat(uffd: bool, w: World, addr: nat, len: nat, fill: map<nat, Page>)
    requires TablesOk(uffd, w.b.t) && w.b.t.pte.Keys !! fill.Keys
    ensures Abstract(WithManaged(w, addr, len, fill)) == FlatStep(Abstract(w), AllocManaged(addr, len, fill))
  {
    var w' := WithManaged(w, addr, len, fill);
    FillsHost(uffd, w.b.t, w'.b.t, fill);
    FlatGrows(w, w', fill);
  }

  lemma AllocManagedKeepsGood(uffd: bool, size: nat, span: nat, w: World, w': World, addr: nat, len: nat,
                              fill: map<nat, Page>)
    requires Good(uffd, size, span, w) && Does(uffd, size, span, w, w', AllocManaged(addr, len, fill))
    ensures Good(uffd, size, span, w') && Abstract(w') == FlatStep(Abstract(w), AllocManaged(addr, len, fill))
  {
    AllocManagedNeverCollides(uffd, size, span, w, addr, len);
    AllocManagedBooks(uffd, size, w.fixed, w.b, fill);
    ManagedGrant(size, span, w.b.t, w'.b.t, w.managed, addr, len, fill);
    AllocManagedFlat(uffd, w, addr, len, fill);
  }

  lemma HoldsShrinks(held: map<nat, nat>, addr: nat, va: nat)
    requires Holds(held, va) && addr in held && va % PAGE_SIZE == 0 && va !in PagesOf(addr, held[addr])
    ensures Holds(held - {addr}, va)
  {
    var s :| s in held && s <= va < s + held[s];
    assert s == addr ==> PageIn(addr, held[addr], va);
    assert s in held - {addr};
  }

  /** Unmapping pages: what is left is in order, and keeps its bytes. */
  lemma UnmapTables(uffd: bool, t: Tables, t': Tables, pages: set<nat>)
    requires TablesOk(uffd, t) && t' == t.(pte := t.pte - pages, host := t.host - pages)
    ensures TablesOk(uffd, t') && forall va :: va in t'.pte ==> Logical(t', va) == Logical(t, va)
  {
    forall va | va in t'.pte
      ensures PageOk(uffd, t', va)
    {
      assert PageOk(uffd, t, va);
    }
  }

  lemma UnmapFlat(w: World, w': World, pages: set<nat>)
    requires w'.b.t.pte == w.b.t.pte - pages
             && forall va :: va in w'.b.t.pte ==> Logical(w'.b.t, va) == Logical(w.b.t, va)
    ensures Flat(w') == Flat(w) - pages
  {
  }

  lemma RecycleFixed(t: Tables, t': Tables, fixed: map<nat, nat>, addr: nat)
    requires FixedOk(t, fixed) && addr in fixed && t' == t.(pte := t.pte - PagesOf(addr, fixed[addr]))
    requires Paged(t)
    ensures FixedOk(t', fixed - {addr})
  {
    forall va | va in t'.pte && va !in t'.host
      ensures Holds(fixed - {addr}, va)
    {
      HoldsShrinks(fixed, addr, va);
    }
  }

  lemma RecycleLedger(t: Tables, t': Tables, fixed: map<nat, nat>, live: map<nat, nat>, addr: nat)
    requires LedgerOk(t, fixed, live, {}) && addr in fixed && Frames(t') == Frames(t)
    ensures LedgerOk(t', fixed - {addr}, live - {addr}, {})
  {
  }

  lemma SubApart(base: nat, size: nat, held: map<nat, nat>, rest: map<nat, nat>)
    requires Apart(base, size, PAGE_SIZE, held) && rest.Keys <= held.Keys
             && forall s :: s in rest ==> rest[s] == held[s]
    ensures Apart(base, size, PAGE_SIZE, rest)
  {
  }

  lemma FixedPagesLow(uffd: bool, size: nat, span: nat, w: World, addr: nat)
    requires Good(uffd, size, span, w) && addr in w.fixed
    ensures w.b.t.host.Keys !! PagesOf(addr, w.fixed[addr])
  {
    assert addr in w.b.live && w.b.live[addr] == w.fixed[addr];
    assert forall va :: va in PagesOf(addr, w.fixed[addr]) ==> PageIn(addr, w.fixed[addr], va);
  }

  lemma RecycleKeepsGood(uffd: bool, size: nat, span: nat, w: World, w': World, addr: nat)
    requires Good(uffd, size, span, w) && Paged(w.b.t) && Does(uffd, size, span, w, w', Recycle(addr))
    ensures Good(uffd, size, span, w') && Abstract(w') == FlatStep(Abstract(w), Recycle(addr))
  {
    var t, t', pages := w.b.t, w'.b.t, PagesOf(addr, w.fixed[addr]);
    FixedPagesLow(uffd, size, span, w, addr);
    assert t.host - pages == t.host;
    UnmapTables(uffd, t, t', pages);
    UnmapFlat(w, w', pages);
    SameFrames(t, t');
    RecycleFixed(t, t', w.fixed, addr);
    RecycleLedger(t, t', w.fixed, w.b.live, addr);
    SubApart(0, size, w.b.live, w'.b.live);
  }

  lemma DropFrames(uffd: bool, t: Tables, t': Tables, pages: set<nat>)
    requires TablesOk(uffd, t) && t' == t.(pte := t.pte - pages, host := t.host - pages)
    ensures Frames(t') == Frames(t) - FramesOf(t, pages)
  {
    forall f | f in Frames(t) - FramesOf(t, pages)
      ensures f in Frames(t')
    {
      var va :| va in t.host && InVram(t, va) && t.pte[va].frame == f;
      assert va in pages ==> f in FramesOf(t, pages);
      assert InVram(t', va) && va in t'.host;
    }
    forall f | f in Frames(t')
      ensures f in Frames(t) && f !in FramesOf(t, pages)
    {
      var va :| va in t'.host && InVram(t', va) && t'.pte[va].frame == f;
      assert InVram(t, va);
    }
  }

  lemma DropLedger(t: Tables, t': Tables, fixed: map<nat, nat>, live: map<nat, nat>, gone: set<nat>)
    requires LedgerOk(t, fixed, live, {}) && gone <= Frames(t) && Frames(t') == Frames(t) - gone
    ensures LedgerOk(t', fixed, live - gone, {})
  {
  }

  lemma DropManaged(size: nat, t: Tables, t': Tables, managed: map<nat, nat>, addr: nat)
    requires forall va :: va in t.host ==> size <= va && Holds(managed, va)
    requires Paged(t) && t.host.Keys <= t.pte.Keys
    requires addr in managed && t'.host == t.host - PagesOf(addr, managed[addr])
    ensures forall va :: va in t'.host ==> size <= va && Holds(managed - {addr}, va)
  {
    forall va | va in t'.host
      ensures Holds(managed - {addr}, va)
    {
      HoldsShrinks(managed, addr, va);
    }
  }

  lemma DropBooks(uffd: bool, size: nat, fixed: map<nat, nat>, b: Books, b': Books, pages: set<nat>)
    requires BooksOk(uffd, size, fixed, b, {}) && Drops(b, b', pages)
    ensures BooksOk(uffd, size, fixed, b', {})
  {
    UnmapTables(uffd, b.t, b'.t, pages);
    FixedSame(b.t, b'.t, fixed);
    DropFrames(uffd, b.t, b'.t, pages);
    DropLedger(b.t, b'.t, fixed, b.live, FramesOf(b.t, pages));
    SubApart(0, size, b.live, b'.live);
  }

  lemma RecycleManagedKeepsGood(uffd: bool, size: nat, span: nat, w: World, w': World, addr: nat)
    requires Good(uffd, size, span, w) && Paged(w.b.t) && Does(uffd, size, span, w, w', RecycleManaged(addr))
    ensures Good(uffd, size, span, w') && Abstract(w') == FlatStep(Abstract(w), RecycleManaged(addr))
  {
    var pages := PagesOf(addr, w.managed[addr]);
    DropBooks(uffd, size, w.fixed, w.b, w'.b, pages);
    DropManaged(size, w.b.t, w'.b.t, w.managed, addr);
    UnmapTables(uffd, w.b.t, w'.b.t, pages);
    UnmapFlat(w, w', pages);
  }

  lemma StoreTables(uffd: bool, t: Tables, t': Tables, va: nat, page: Page)
    requires TablesOk(uffd, t) && va in t.pte && t.pte[va].inVram && t' == Stored(t, va, page)
    ensures TablesOk(uffd, t')
            && forall v :: v in t.pte ==> Logical(t', v) == if v == va then Some(page) else Logical(t, v)
  {
    forall v | v in t'.pte
      ensures PageOk(uffd, t', v) && Logical(t', v) == if v == va then Some(page) else Logical(t, v)
    {
      assert PageOk(uffd, t, v);
    }
  }

  /** A change of the tables that moves no frame. */
  lemma TouchKeeps(uffd: bool, size: nat, span: nat, w: World, w': World)
    requires Good(uffd, size, span, w) && w' == w.(b := w.b.(t := w'.b.t)) && TablesOk(uffd, w'.b.t)
    requires w'.b.t.pte.Keys == w.b.t.pte.Keys && w'.b.t.host.Keys == w.b.t.host.Keys
    requires forall va ::
             va in w.b.t.pte ==>
             w'.b.t.pte[va].inVram == w.b.t.pte[va].inVram && w'.b.t.pte[va].frame == w.b.t.pte[va].frame
    ensures Good(uffd, size, span, w')
  {
    FixedSame(w.b.t, w'.b.t, w.fixed);
    SameFrames(w.b.t, w'.b.t);
    SameFramesKeeps(uffd, size, w.fixed, w.b, w'.b);
  }

  lemma FlatStore(w: World, w': World, va: nat, page: Page)
    requires va in w.b.t.pte && w'.b.t.pte.Keys == w.b.t.pte.Keys
    requires forall v :: v in w.b.t.pte ==> Logical(w'.b.t, v) == if v == va then Some(page) else Logical(w.b.t, v)
    ensures Flat(w') == Flat(w)[va := Some(page)]
  {
  }

  lemma StoreFlat(uffd: bool, w: World, w': World, va: nat, page: Page)
    requires TablesOk(uffd, w.b.t) && va in w.b.t.pte && w.b.t.pte[va].inVram && w'.b.t == Stored(w.b.t, va, page)
    ensures TablesOk(uffd, w'.b.t) && Flat(w') == Flat(w)[va := Some(page)]
  {
    StoreTables(uffd, w.b.t, w'.b.t, va, page);
    FlatStore(w, w', va, page);
  }

  lemma StoreKeepsGood(uffd: bool, size: nat, span: nat, w: World, w': World, va: nat, page: Page)
    requires Good(uffd, size, span, w) && Does(uffd, size, span, w, w', Store(va, page))
    ensures Good(uffd, size, span, w') && Abstract(w') == FlatStep(Abstract(w), Store(va, page))
  {
    assert TablesOk(uffd, w'.b.t) && Flat(w') == Flat(w)[va := Some(page)] by {
      StoreFlat(uffd, w, w', va, page);
    }
    TouchKeeps(uffd, size, span, w, w');
  }

  lemma HostStoreTables(uffd: bool, t: Tables, t': Tables, va: nat, page: Page)
    requires TablesOk(uffd, t) && va in t.host && va in t.pte && !t.pte[va].inVram
             && t' == t.(host := t.host[va := Some(page)])
    ensures TablesOk(uffd, t')
            && forall v :: v in t.pte ==> Logical(t', v) == if v == va then Some(page) else Logical(t, v)
  {
    forall v | v in t'.pte
      ensures PageOk(uffd, t', v) && Logical(t', v) == if v == va then Some(page) else Logical(t, v)
    {
      assert PageOk(uffd, t, v);
    }
  }

  lemma HostStoreKeepsGood(uffd: bool, size: nat, span: nat, w: World, w': World, va: nat, page: Page)
    requires Good(uffd, size, span, w) && Does(uffd, size, span, w, w', StoreFromHost(va, page))
    ensures Good(uffd, size, span, w') && Abstract(w') == FlatStep(Abstract(w), StoreFromHost(va, page))
  {
    HostStoreTables(uffd, w.b.t, w'.b.t, va, page);
    FlatStore(w, w', va, page);
    TouchKeeps(uffd, size, span, w, w');
  }

  lemma LoadKeepsGood(uffd: bool, size: nat, span: nat, w: World, w': World, va: nat)
    requires Good(uffd, size, span, w) && Does(uffd, size, span, w, w', Load(va))
    ensures Good(uffd, size, span, w') && Abstract(w') == FlatStep(Abstract(w), Load(va))
  {
    OnlyAccessedRefines(uffd, w.b.t, w'.b.t);
    SameBytesFlat(w, w');
    TouchKeeps(uffd, size, span, w, w');
  }

  lemma MoveKeepsGood(uffd: bool, size: nat, span: nat, w: World, w': World)
    requires Good(uffd, size, span, w) && Does(uffd, size, span, w, w', Move)
    ensures Good(uffd, size, span, w') && Abstract(w') == FlatStep(Abstract(w), Move)
  {
    MovesKeeps(uffd, size, w.fixed, w.b, w'.b);
    SameBytesFlat(w, w');
  }

  lemma StepKeepsPaged(uffd: bool, size: nat, span: nat, w: World, w': World, a: Action)
    requires Good(uffd, size, span, w) && Paged(w.b.t) && Does(uffd, size, span, w, w', a)
    ensures Paged(w'.b.t)
  {
    match a
    case Move => MovesKeeps(uffd, size, w.fixed, w.b, w'.b);
    case Alloc(addr, len, fill) => assert forall va :: va in fill ==> PageIn(addr, len, va);
    case AllocManaged(addr, len, fill) => assert forall va :: va in fill ==> PageIn(addr, len, va);
    case _ =>
  }

  /** Paging refines flat memory: every step of the driver, an engine or a host thread is the same step
      of a flat memory, and keeps the books. */
  lemma StepRefinesFlat(uffd: bool, size: nat, span: nat, w: World, w': World, a: Action)
    requires Good(uffd, size, span, w) && Paged(w.b.t) && Does(uffd, size, span, w, w', a)
    ensures Good(uffd, size, span, w') && Abstract(w') == FlatStep(Abstract(w), a)
  {
    match a
    case Move => MoveKeepsGood(uffd, size, span, w, w');
    case Alloc(addr, len, fill) => AllocKeepsGood(uffd, size, span, w, w', addr, len, fill);
    case AllocManaged(addr, len, fill) => AllocManagedKeepsGood(uffd, size, span, w, w', addr, len, fill);
    case Recycle(addr) => RecycleKeepsGood(uffd, size, span, w, w', addr);
    case RecycleManaged(addr) => RecycleManagedKeepsGood(uffd, size, span, w, w', addr);
    case Store(va, page) => StoreKeepsGood(uffd, size, span, w, w', va, page);
    case StoreFromHost(va, page) => HostStoreKeepsGood(uffd, size, span, w, w', va, page);
    case Load(va) => LoadKeepsGood(uffd, size, span, w, w', va);
  }

  // ---------------------------------------------------------------------------------------------
  // Whole runs
  // ---------------------------------------------------------------------------------------------

  const EMPTY := World(Books(Tables(map[], map[], map[]), [], map[], 0, map[]), map[], map[])

  ghost function Steps(uffd: bool, size: nat, span: nat): (r: (World, World, Action) -> bool) {
    (w, w', a) => Does(uffd, size, span, w, w', a)
  }

  ghost predicate IsRun(uffd: bool, size: nat, span: nat, run: seq<World>, acts: seq<Action>) {
    Runs.IsRun(run, acts, (w: World) => w == EMPTY, Steps(uffd, size, span))
  }

  ghost function FlatRun(acts: seq<Action>): (f: FlatMemory) {
    if acts == [] then FlatMemory(map[], map[], map[])
    else FlatStep(FlatRun(acts[..|acts| - 1]), acts[|acts| - 1])
  }

  lemma EmptyGood(uffd: bool, size: nat, span: nat)
    ensures Good(uffd, size, span, EMPTY) && Paged(EMPTY.b.t) && Abstract(EMPTY) == FlatRun([])
  {
    assert Frames(EMPTY.b.t) == {};
  }

  /** In every reachable state the books are in order, and the memory programs see is the flat memory that
      the same actions produce. */
  lemma {:induction false} RunRefinesFlat(uffd: bool, size: nat, span: nat, run: seq<World>, acts: seq<Action>, k: nat)
    requires IsRun(uffd, size, span, run, acts) && k <= |acts|
    ensures Good(uffd, size, span, run[k]) && Paged(run[k].b.t) && Abstract(run[k]) == FlatRun(acts[..k])
  {
    if k == 0 {
      EmptyGood(uffd, size, span);
    } else {
      RunRefinesFlat(uffd, size, span, run, acts, k - 1);
      assert Runs.StepAt(run, acts, Steps(uffd, size, span), k - 1);
      StepRefinesAll(uffd, size, span, run[k - 1], run[k], acts[k - 1]);
      FlatRunStep(acts, k);
    }
  }

  lemma StepRefinesAll(uffd: bool, size: nat, span: nat, w: World, w': World, a: Action)
    requires Good(uffd, size, span, w) && Paged(w.b.t) && Does(uffd, size, span, w, w', a)
    ensures Good(uffd, size, span, w') && Paged(w'.b.t) && Abstract(w') == FlatStep(Abstract(w), a)
  {
    StepRefinesFlat(uffd, size, span, w, w', a);
    StepKeepsPaged(uffd, size, span, w, w', a);
  }

  lemma FlatRunStep(acts: seq<Action>, k: nat)
    requires 0 < k <= |acts|
    ensures FlatRun(acts[..k]) == FlatStep(FlatRun(acts[..k - 1]), acts[k - 1])
  {
    assert acts[..k][..k - 1] == acts[..k - 1];
  }

  ghost predicate Quiet(a: Action) {
    a.Move? || a.Load?
  }

  /** The actions a program can tell apart from none. */
  ghost function Visible(acts: seq<Action>): (r: seq<Action>) {
    if acts == [] then []
    else
      var before := Visible(acts[..|acts| - 1]);
      if Quiet(acts[|acts| - 1]) then before else before + [acts[|acts| - 1]]
  }

  lemma {:induction false} FlatRunVisible(acts: seq<Action>)
    ensures FlatRun(Visible(acts)) == FlatRun(acts)
  {
    if acts != [] {
      var n := |acts| - 1;
      FlatRunVisible(acts[..n]);
      var before := Visible(acts[..n]);
      if !Quiet(acts[n]) {
        assert (before + [acts[n]])[..|before|] == before;
      }
    }
  }

  /** Paging is invisible: two runs of the same program, with or without userfaultfd, with any amount of
      VRAM and any migrations, evictions, rollbacks and prefetches between, end with the same memory. */
  lemma PagingInvisible(uffd: bool, size: nat, span: nat, run: seq<World>, acts: seq<Action>,
                        uffd': bool, size': nat, span': nat, run': seq<World>, acts': seq<Action>)
    requires IsRun(uffd, size, span, run, acts) && IsRun(uffd', size', span', run', acts')
             && Visible(acts) == Visible(acts')
    ensures Abstract(run[|acts|]) == Abstract(run'[|acts'|])
  {
    RunRefinesFlat(uffd, size, span, run, acts, |acts|);
    RunRefinesFlat(uffd', size', span', run', acts', |acts'|);
    assert acts[..|acts|] == acts && acts'[..|acts'|] == acts';
    FlatRunVisible(acts);
    FlatRunVisible(acts');
  }

  /** Ownership of frames in every reachable state: no two pages share one, every mapped frame lies in a
      live block, the CLOCK list is exactly the managed pages in VRAM, and live bytes are the sgMalloc
      bytes plus a page per entry of the list. */
  lemma RunOwnsFrames(uffd: bool, size: nat, span: nat, run: seq<World>, acts: seq<Action>, k: nat)
    requires IsRun(uffd, size, span, run, acts) && k <= |acts|
    ensures var b := run[k].b;
            && (forall v, w ::
                v in b.t.pte && w in b.t.pte && v != w && b.t.pte[v].inVram && b.t.pte[w].inVram ==>
                b.t.pte[v].frame != b.t.pte[w].frame)
            && (forall v :: v in b.t.pte && b.t.pte[v].inVram ==> Holds(b.live, b.t.pte[v].frame))
            && Distinct(Vas(b.nodes)) && (forall v :: v in Vas(b.nodes) <==> InVram(b.t, v))
            && Sum(b.live) == Sum(run[k].fixed) + PAGE_SIZE * |b.nodes|
  {
    RunRefinesFlat(uffd, size, span, run, acts, k);
    OwnsFrames(uffd, size, run[k].fixed, run[k].b);
  }

  lemma OwnsFrames(uffd: bool, size: nat, fixed: map<nat, nat>, b: Books)
    requires BooksOk(uffd, size, fixed, b, {})
    ensures forall v :: v in b.t.pte && b.t.pte[v].inVram ==> Holds(b.live, b.t.pte[v].frame)
    ensures Distinct(Vas(b.nodes)) && (forall v :: v in Vas(b.nodes) <==> InVram(b.t, v))
    ensures Sum(b.live) == Sum(fixed) + PAGE_SIZE * |b.nodes|
  {
    forall v | v in b.t.pte && b.t.pte[v].inVram
      ensures Holds(b.live, b.t.pte[v].frame)
    {
      FrameHeld(uffd, size, fixed, b, v);
    }
    NodesDistinct(b.nodes, b.pos, b.nextId);
    Conservation(uffd, b.t, fixed, b.live, b.nodes, b.pos, b.nextId);
  }

  // ---------------------------------------------------------------------------------------------
  // For the methods that take these steps
  // ---------------------------------------------------------------------------------------------

  /** Everything is in order. Stated so that the verifier looks inside only where `Good` is mentioned. */
  ghost predicate Orderly(uffd: bool, size: nat, span: nat, w: World) {
    forall x {:trigger Good(uffd, size, span, x)} :: x == w ==> Good(uffd, size, span, x) && Paged(x.b.t)
  }

  lemma OrderlyIs(uffd: bool, size: nat, span: nat, w: World)
    ensures Orderly(uffd, size, span, w) <==> Good(uffd, size, span, w) && Paged(w.b.t)
  {
  }

  /** A step keeps order, and is the same step of the flat memory. */
  lemma OrderlySteps(uffd: bool, size: nat, span: nat, w: World, w': World, a: Action)
    requires Orderly(uffd, size, span, w) && Does(uffd, size, span, w, w', a)
    ensures Orderly(uffd, size, span, w') && Abstract(w') == FlatStep(Abstract(w), a)
  {
    OrderlyIs(uffd, size, span, w);
    StepRefinesAll(uffd, size, span, w, w', a);
    OrderlyIs(uffd, size, span, w');
  }

  /** What a walk of the CLOCK list and a migration of `va` rely on. */
  lemma OrderlyWalkable(uffd: bool, size: nat, span: nat, w: World, va: nat)
    requires Orderly(uffd, size, span, w)
    ensures WalkableBooks(w.b) && (va in w.b.t.pte ==> PageOk(uffd, w.b.t, va))
            && (InVram(w.b.t, va) ==> va in w.b.pos && w.b.t.pte[va].frame in w.b.live)
  {
    OrderlyIs(uffd, size, span, w);
    BooksWalkable(uffd, size, w.fixed, w.b, {});
    if InVram(w.b.t, va) {
      assert w.b.t.pte[va].frame in Frames(w.b.t);
    }
  }

  lemma OrderlyFront(uffd: bool, size: nat, span: nat, w: World)
    requires Orderly(uffd, size, span, w) && w.b.nodes != []
    ensures WalkableBooks(w.b) && w.b.nodes[0].va in w.b.pos && InVram(w.b.t, w.b.nodes[0].va)
            && w.b.t.pte[w.b.nodes[0].va].frame in w.b.live
  {
    var va := w.b.nodes[0].va;
    OrderlyWalkable(uffd, size, span, w, va);
    assert va in w.b.pos && InVram(w.b.t, va);
  }

  lemma OrderlyPrefetch(uffd: bool, size: nat, span: nat, w: World, run: seq<Books>, start: nat, last: Books, stop: nat)
    requires Orderly(uffd, size, span, w) && Prefetches(uffd, size, run, start, last) && run[0] == w.b
             && stop == start + (|run| - 1) * PAGE_SIZE
    ensures PrefetchSettles(w.b, last, start, stop)
  {
    OrderlyIs(uffd, size, span, w);
    PrefetchSpares(uffd, size, w.fixed, run, start, last, stop);
  }

  /** After evict-all only sgMalloc blocks are live, unless a write-back failed. */
  lemma OrderlyEvictAll(uffd: bool, size: nat, span: nat, w: World, run: seq<Books>, last: Books)
    requires Orderly(uffd, size, span, w) && EvictRun(uffd, run) && run[0] == w.b
             && EvictAllEnds(uffd, run[|run| - 1], last)
    ensures last.live == w.fixed || (uffd && last.nodes != [])
  {
    OrderlyIs(uffd, size, span, w);
    EvictAllFreesFrames(uffd, size, w.fixed, run, last);
  }

  /** The pages of an sgMalloc block are those of its frames. */
  lemma OrderlyBlock(uffd: bool, size: nat, span: nat, w: World, addr: nat)
    requires Orderly(uffd, size, span, w) && addr in w.fixed
    ensures addr in w.b.live && w.b.live[addr] == w.fixed[addr]
            && FirstPages(addr, w.fixed[addr] / PAGE_SIZE) == PagesOf(addr, w.fixed[addr])
  {
    OrderlyIs(uffd, size, span, w);
    assert addr in w.b.live && w.b.live[addr] == w.fixed[addr];
    FirstPagesAre(addr, w.fixed[addr] / PAGE_SIZE);
  }

  lemma OrderlyRange(uffd: bool, size: nat, span: nat, w: World, addr: nat)
    requires Orderly(uffd, size, span, w) && addr in w.managed && size % PAGE_SIZE == 0
    ensures FirstPages(addr, w.managed[addr] / PAGE_SIZE) == PagesOf(addr, w.managed[addr])
    ensures NodesOk(w.b.nodes, w.b.pos, w.b.nextId) && forall va :: va in w.b.pos <==> InVram(w.b.t, va)
  {
    OrderlyIs(uffd, size, span, w);
    FirstPagesAre(addr, w.managed[addr] / PAGE_SIZE);
  }

  lemma BlockIsGranted(base: nat, size: nat, free: seq<Block>, live: map<nat, nat>, addr: nat, n: nat)
    requires Consistent(base, size, PAGE_SIZE, free, live[addr := n * PAGE_SIZE], map[]) && addr !in live
             && base % PAGE_SIZE == 0
    ensures Granted(base, size, live, addr, n * PAGE_SIZE) && FirstPages(addr, n) == PagesOf(addr, n * PAGE_SIZE)
  {
    AllocatorGrants(base, size, free, live, addr, n * PAGE_SIZE);
    assert addr in live[addr := n * PAGE_SIZE];
    assert (addr - base) % PAGE_SIZE == 0;
    FirstPagesAre(addr, n);
  }

  lemma OrderlyTakesBlock(uffd: bool, size: nat, span: nat, w: World, free: seq<Block>, addr: nat, n: nat,
                          fill: map<nat, Page>)
    requires Orderly(uffd, size, span, w) && addr !in w.b.live && fill.Keys == FirstPages(addr, n)
    requires Consistent(0, size, PAGE_SIZE, free, w.b.live[addr := n * PAGE_SIZE], map[])
    ensures fill.Keys == PagesOf(addr, n * PAGE_SIZE)
    ensures var w' := WithFixed(w, addr, n * PAGE_SIZE, fill);
            Orderly(uffd, size, span, w') && Abstract(w') == FlatStep(Abstract(w), Alloc(addr, n * PAGE_SIZE, fill))
  {
    BlockIsGranted(0, size, free, w.b.live, addr, n);
    OrderlySteps(uffd, size, span, w, WithFixed(w, addr, n * PAGE_SIZE, fill), Alloc(addr, n * PAGE_SIZE, fill));
  }

  lemma OrderlyTakesRange(uffd: bool, size: nat, span: nat, w: World, free: seq<Block>, addr: nat, n: nat,
                          fill: map<nat, Page>)
    requires Orderly(uffd, size, span, w) && addr !in w.managed && fill.Keys == FirstPages(addr, n)
             && size % PAGE_SIZE == 0
    requires Consistent(size, span, PAGE_SIZE, free, w.managed[addr := n * PAGE_SIZE], map[])
    ensures fill.Keys == PagesOf(addr, n * PAGE_SIZE)
    ensures var w' := WithManaged(w, addr, n * PAGE_SIZE, fill);
            Orderly(uffd, size, span, w')
                && Abstract(w') == FlatStep(Abstract(w), AllocManaged(addr, n * PAGE_SIZE, fill))
  {
    BlockIsGranted(size, span, free, w.managed, addr, n);
    OrderlySteps(uffd, size, span, w, WithManaged(w, addr, n * PAGE_SIZE, fill),
        AllocManaged(addr, n * PAGE_SIZE, fill));
  }

  /** Whatever migrate_locked did, order and memory are kept. */
  lemma OrderlyMigrates(uffd: bool, size: nat, span: nat, w: World, b: Books, va: nat)
    requires Orderly(uffd, size, span, w)
             && (b == w.b || Migrates(uffd, size, w.b, b, va) || Starves(uffd, size, w.b, b))
    ensures Orderly(uffd, size, span, w.(b := b)) && Abstract(w.(b := b)) == Abstract(w)
  {
    if b != w.b {
      OrderlySteps(uffd, size, span, w, w.(b := b), Move);
    }
  }
}
