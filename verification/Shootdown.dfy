/**
  The MMU, the per-engine TLBs, the shootdown and `Device::quiesce`, together with the bytes they
  protect. The state machine has one step per atomic load, store or read-modify-write, and any number
  of engines and TLB slots. Engines translate and access memory without locks; one driver thread (the
  holder of `mem_lock`) evicts pages and migrates them back.

  `flat` is the memory a program believes it has: one array of bytes per page, written by engine and
  host stores and by nothing else. The main results say that, in every interleaving, engines and host
  threads only ever see `flat`.
*/
module Shootdown {
  import opened Base
  import Runs

  // ---------------------------------------------------------------------------------------------
  // State
  // ---------------------------------------------------------------------------------------------

  datatype Pte = Pte(present: bool, inVram: bool, dirty: bool, accessed: bool, frame: nat)

  predicate Resident(p: Pte) {
    p.present && p.inVram
  }

  /** What `begin_evict` leaves in the table: present, not in VRAM, every other bit clear. */
  const HOST_PTE := Pte(true, false, false, false, 0)

  datatype Entry = Entry(tag: Option<nat>, pte: Pte)

  /** A finished translation that the engine may use until its command ends. */
  datatype Hold = Hold(vpn: nat, frame: nat, write: bool)

  /** One call of `translate`. `began` names the eviction of this page (if any) whose `begin_evict`
      had already returned when the call began. */
  datatype Request = Request(vpn: nat, write: bool, began: Option<nat>)

  /** Program counter of an engine: every constructor is a point between two atomic accesses. */
  datatype EnginePc =
    | Idle                                                   // access sequence even
    | Ready                                                  // in a command, between translates
    | Lookup(t: Request)                                     // probing tags
    | TagSeen(t: Request, slot: nat)                         // tag matched
    | EntrySeen(t: Request, slot: nat, p: Pte)               // entry loaded, tag not re-read
    | HitOr(t: Request, slot: nat, p: Pte)                   // write hit on a clean entry
    | HitDirty(t: Request, slot: nat, p: Pte)                // DIRTY set in the table
    | Walk(t: Request)                                       // missed
    | WalkOr(t: Request)                                     // resident, bits to set
    | Inserting(t: Request, p: Pte)                          // tlb_insert entered
    | GenSampled(t: Request, p: Pte, g: nat)
    | Emptied(t: Request, p: Pte, g: nat, slot: nat)
    | Filled(t: Request, p: Pte, g: nat, slot: nat)
    | PteChecked(t: Request, p: Pte, g: nat, slot: nat)
    | GenChecked(t: Request, p: Pte, g: nat, slot: nat)
    | Tagged(t: Request, p: Pte, g: nat, slot: nat)
    | Clearing(t: Request, p: Pte, g: nat, slot: nat)

  datatype Engine = Engine(access: nat, pc: EnginePc, held: set<Hold>, tlb: map<nat, Entry>)

  /** Why a PTE was changed: to evict the page, or to map it (`undo`: rollback of an eviction). */
  datatype Task = Evict(was: Pte) | Map(undo: bool)

  /** Program counter of the driver. `swept` and `passed` say how far the two loops have come. */
  datatype DriverPc =
    | DIdle
    | Changed(vpn: nat, task: Task)                                                // generation not bumped
    | Sweep(vpn: nat, task: Task, swept: set<(nat, nat)>, hit: Option<(nat, nat)>) // tlb_invalidate_vpn
    | Quiesce(vpn: nat, was: Pte, passed: set<nat>, seen: Option<(nat, nat)>)      // Device::quiesce
    | Quiesced(vpn: nat, was: Pte)
    | Collected(vpn: nat, was: Pte, late: bool)                                    // end_evict done
    | Taken(vpn: nat, frame: nat)                                                  // frame in hand, not filled
    | Copied(vpn: nat, frame: nat, undo: bool)                                     // frame filled, PTE not stored
    | Mapped(vpn: nat)                                                             // host copy still populated

  /** Everything the threads share except the TLBs. */
  datatype Memory = Memory(
    uffd: bool,                     // userfaultfd open: the host copy of a VRAM page is missing
    managed: set<nat>,              // pages that may migrate; the rest stay where they are
    pte: map<nat, Pte>,
    host: map<nat, Option<seq<Byte>>>,
    vram: map<nat, seq<Byte>>,
    flat: map<nat, seq<Byte>>,
    free: set<nat>,
    gen: nat,
    driver: DriverPc,
    evictions: nat,                 // evictions begun so far
    written: set<nat>)              // pages an engine stored to since they became resident

  datatype State = State(m: Memory, engines: seq<Engine>)

  // ---------------------------------------------------------------------------------------------
  // Steps
  // ---------------------------------------------------------------------------------------------

  /** `translate` returns Ok: the engine may now use the frame. */
  function Finish(E: Engine, t: Request, frame: nat): (r: Engine) {
    E.(pc := Ready, held := E.held + {Hold(t.vpn, frame, t.write)})
  }

  /** `begin_evict` for `vpn` has returned and the eviction is still in progress. */
  ghost predicate ShotDown(m: Memory, vpn: nat) {
    (m.driver.Quiesce? || m.driver.Quiesced? || m.driver.Collected?) && m.driver.vpn == vpn
  }

  datatype Action =
    | Begin | End
    | Translate(vpn: nat, write: bool)
    | Probe(slot: nat) | Miss | LoadEntry | RecheckTag | OrDirty | StoreEntry
    | LoadPte | OrPte
    | SampleGen | EmptySlot(slot: nat) | FillSlot | CheckPte | CheckGen | SetTag | FinalCheck | ClearTag
    | Store(h: Hold, offset: nat, byte: Byte)

  /** One atomic access of an engine: its own state goes from `E` to `E'`, the shared one from `m` to `m'`. */
  ghost predicate EngineStep(m: Memory, E: Engine, m': Memory, E': Engine, a: Action) {
    var pc := E.pc;
    match a
    case Begin =>
      pc.Idle? && m' == m && E' == E.(access := E.access + 1, pc := Ready)
    case End =>
      pc.Ready? && m' == m && E' == E.(access := E.access + 1, pc := Idle, held := {})
    case Translate(vpn, write) =>
      && pc.Ready? && m' == m
      && E' == E.(pc := Lookup(Request(vpn, write, if ShotDown(m, vpn) then Some(m.evictions) else None)))
    case Probe(slot) =>
      && pc.Lookup? && slot in E.tlb && E.tlb[slot].tag == Some(pc.t.vpn)
      && m' == m && E' == E.(pc := TagSeen(pc.t, slot))
    case Miss =>
      pc.Lookup? && m' == m && E' == E.(pc := Walk(pc.t))
    case LoadEntry =>
      pc.TagSeen? && pc.slot in E.tlb && m' == m && E' == E.(pc := EntrySeen(pc.t, pc.slot, E.tlb[pc.slot].pte))
    case RecheckTag =>
      && pc.EntrySeen? && pc.slot in E.tlb && m' == m
      && E' == if E.tlb[pc.slot].tag != Some(pc.t.vpn) || !Resident(pc.p) then E.(pc := Walk(pc.t))
               else if pc.t.write && !pc.p.dirty then E.(pc := HitOr(pc.t, pc.slot, pc.p))
               else Finish(E, pc.t, pc.p.frame)
    case OrDirty =>
      && pc.HitOr? && pc.t.vpn in m.pte
      && m' == m.(pte := m.pte[pc.t.vpn := m.pte[pc.t.vpn].(dirty := true)])
      && E' == E.(pc := HitDirty(pc.t, pc.slot, pc.p.(dirty := true)))
    case StoreEntry =>
      && pc.HitDirty? && pc.slot in E.tlb && m' == m
      && E' == Finish(E, pc.t, pc.p.frame).(tlb := E.tlb[pc.slot := E.tlb[pc.slot].(pte := pc.p)])
    case LoadPte =>
      && pc.Walk? && m' == m
      && var t := pc.t;
      E' == if t.vpn !in m.pte || !Resident(m.pte[t.vpn]) then E.(pc := Ready)
            else if m.pte[t.vpn].accessed && (t.write ==> m.pte[t.vpn].dirty) then E.(pc := Inserting(t, m.pte[t.vpn]))
            else E.(pc := WalkOr(t))
    case OrPte =>
      && pc.WalkOr? && pc.t.vpn in m.pte
      && var q := m.pte[pc.t.vpn];
      var p := q.(accessed := true, dirty := q.dirty || pc.t.write);
      m' == m.(pte := m.pte[pc.t.vpn := p]) && E' == E.(pc := if Resident(q) then Inserting(pc.t, p) else Ready)
    case SampleGen =>
      pc.Inserting? && m' == m && E' == E.(pc := GenSampled(pc.t, pc.p, m.gen))
    case EmptySlot(slot) =>
      && pc.GenSampled? && slot in E.tlb && m' == m
      && E' == E.(pc := Emptied(pc.t, pc.p, pc.g, slot), tlb := E.tlb[slot := E.tlb[slot].(tag := None)])
    case FillSlot =>
      && pc.Emptied? && pc.slot in E.tlb && m' == m
      && E' == E.(pc := Filled(pc.t, pc.p, pc.g, pc.slot), tlb := E.tlb[pc.slot := E.tlb[pc.slot].(pte := pc.p)])
    case CheckPte =>
      && pc.Filled? && pc.t.vpn in m.pte && m' == m
      && E' == if Resident(m.pte[pc.t.vpn]) then E.(pc := PteChecked(pc.t, pc.p, pc.g, pc.slot))
          else Finish(E, pc.t, pc.p.frame)
    case CheckGen =>
      && pc.PteChecked? && m' == m
      && E' == if m.gen == pc.g then E.(pc := GenChecked(pc.t, pc.p, pc.g, pc.slot)) else Finish(E, pc.t, pc.p.frame)
    case SetTag =>
      && pc.GenChecked? && pc.slot in E.tlb && m' == m
      && E' == E.(pc := Tagged(pc.t, pc.p, pc.g, pc.slot),
          tlb := E.tlb[pc.slot := E.tlb[pc.slot].(tag := Some(pc.t.vpn))])
    case FinalCheck =>
      && pc.Tagged? && m' == m
      && E' == if m.gen == pc.g then Finish(E, pc.t, pc.p.frame) else E.(pc := Clearing(pc.t, pc.p, pc.g, pc.slot))
    case ClearTag =>
      && pc.Clearing? && pc.slot in E.tlb && m' == m
      && E' == Finish(E, pc.t, pc.p.frame).(tlb := E.tlb[pc.slot := E.tlb[pc.slot].(tag := None)])
    case Store(h, offset, byte) =>
      && pc.Ready? && h in E.held && h.write && E' == E
      && h.frame in m.vram && offset < |m.vram[h.frame]|
      && h.vpn in m.flat && offset < |m.flat[h.vpn]|
      && m' == m.(vram := m.vram[h.frame := m.vram[h.frame][offset := byte]],
                  flat := m.flat[h.vpn := m.flat[h.vpn][offset := byte]],
                  written := m.written + {h.vpn})
  }

  datatype DriverAction =
    | BeginEvict(vpn: nat) | BumpGen | LoadTag(e: nat, slot: nat) | StoreTag | SweepDone
    | LoadAccess(e: nat) | SpinAccess | QuiesceDone | EndEvict | Publish | PublishFails
    | TakeFrame(vpn: nat, frame: nat) | CopyIn | StorePte | DropHost
    | ClearAccessed(vpn: nat)

  ghost predicate DriverStep(s: State, s': State, a: DriverAction) {
    var m, D, m' := s.m, s.m.driver, s'.m;
    && (!a.StoreTag? ==> s'.engines == s.engines)
    && match a
       case BeginEvict(vpn) =>
         && D.DIdle? && vpn in m.managed && vpn in m.pte && Resident(m.pte[vpn])
         && m' == m.(driver := Changed(vpn, Evict(m.pte[vpn])), pte := m.pte[vpn := HOST_PTE],
             evictions := m.evictions + 1)
       case BumpGen =>
         D.Changed? && m' == m.(driver := Sweep(D.vpn, D.task, {}, None), gen := m.gen + 1)
       case LoadTag(e, slot) =>
         && D.Sweep? && D.hit.None? && e < |s.engines| && slot in s.engines[e].tlb
         && m' == m.(driver := if s.engines[e].tlb[slot].tag == Some(D.vpn) then D.(hit := Some((e, slot)))
                               else D.(swept := D.swept + {(e, slot)}))
       case StoreTag =>
         && D.Sweep? && D.hit.Some?
         && var (e, slot) := D.hit.value;
         && e < |s.engines| && slot in s.engines[e].tlb
         && var E := s.engines[e];
         && s'.engines == s.engines[e := E.(tlb := E.tlb[slot := E.tlb[slot].(tag := None)])]
         && m' == m.(driver := D.(swept := D.swept + {(e, slot)}, hit := None))
       case SweepDone =>
         && D.Sweep? && D.hit.None?
         && (forall e: nat, slot :: e < |s.engines| && slot in s.engines[e].tlb ==> (e, slot) in D.swept)
         && m' == m.(driver := match D.task
                               case Evict(was) => Quiesce(D.vpn, was, {}, None)
                               case Map(undo) => if undo then DIdle else Mapped(D.vpn))
       case LoadAccess(e) =>
         && D.Quiesce? && D.seen.None? && e < |s.engines| && e !in D.passed
         && var v := s.engines[e].access;
         m' == m.(driver := if v % 2 == 0 then D.(passed := D.passed + {e}) else D.(seen := Some((e, v))))
       case SpinAccess =>
         && D.Quiesce? && D.seen.Some?
         && var (e, v) := D.seen.value;
         && e < |s.engines| && s.engines[e].access != v
         && m' == m.(driver := D.(passed := D.passed + {e}, seen := None))
       case QuiesceDone =>
         && D.Quiesce? && D.seen.None? && (forall e: nat :: e < |s.engines| ==> e in D.passed)
         && m' == m.(driver := Quiesced(D.vpn, D.was))
       case EndEvict =>
         && D.Quiesced? && D.vpn in m.pte
         && m' == m.(driver := Collected(D.vpn, D.was, m.pte[D.vpn].dirty),
                     pte := m.pte[D.vpn := m.pte[D.vpn].(dirty := false, accessed := false)])
       case Publish =>
         && D.Collected? && D.was.frame in m.vram
         && m' == m.(driver := DIdle, free := m.free + {D.was.frame}, written := m.written - {D.vpn},
                     host := if m.uffd || D.was.dirty || D.late then m.host[D.vpn := Some(m.vram[D.was.frame])]
                         else m.host)
       case PublishFails =>
         // Only UFFDIO_COPY can fail: copy_out rejects nothing but a bad frame or a null host page.
         && D.Collected? && m.uffd
         && m' == m.(driver := Copied(D.vpn, D.was.frame, true), written := m.written - {D.vpn})
       case TakeFrame(vpn, frame) =>
         && D.DIdle? && vpn in m.managed && vpn in m.pte && m.pte[vpn].present && !m.pte[vpn].inVram && frame in m.free
         && m' == m.(driver := Taken(vpn, frame), free := m.free - {frame})
       case CopyIn =>
         && D.Taken? && D.vpn in m.host && m.host[D.vpn].Some?
         && m' == m.(driver := Copied(D.vpn, D.frame, false), vram := m.vram[D.frame := m.host[D.vpn].value])
       case StorePte =>
         && D.Copied?
         && m' == m.(driver := Changed(D.vpn, Map(D.undo)),
             pte := m.pte[D.vpn := Pte(true, true, false, true, D.frame)])
       case DropHost =>
         D.Mapped? && m' == m.(driver := DIdle, host := if m.uffd then m.host[D.vpn := None] else m.host)
       case ClearAccessed(vpn) =>
         D.DIdle? && vpn in m.pte && m' == m.(pte := m.pte[vpn := m.pte[vpn].(accessed := false)])
  }

  /** A host thread stores a byte to a page that is host-resident and not on the move. */
  ghost predicate HostStep(m: Memory, m': Memory, vpn: nat, offset: nat, byte: Byte) {
    && vpn in m.managed && vpn in m.pte && vpn in m.host && vpn in m.flat
    && Seat(m, vpn).None? && m.host[vpn].Some?
    && offset < |m.host[vpn].value| && offset < |m.flat[vpn]|
    && m' == m.(host := m.host[vpn := Some(m.host[vpn].value[offset := byte])],
                flat := m.flat[vpn := m.flat[vpn][offset := byte]])
  }

  datatype Step =
    | EngineDoes(e: nat, a: Action)
    | DriverDoes(d: DriverAction)
    | HostStores(vpn: nat, offset: nat, byte: Byte)

  ghost predicate NextStep(s: State, s': State, step: Step) {
    match step
    case EngineDoes(e, a) =>
      && e < |s.engines| && |s'.engines| == |s.engines|
      && EngineStep(s.m, s.engines[e], s'.m, s'.engines[e], a)
      && s'.engines == s.engines[e := s'.engines[e]]
    case DriverDoes(d) => DriverStep(s, s', d)
    case HostStores(vpn, offset, byte) => HostStep(s.m, s'.m, vpn, offset, byte) && s'.engines == s.engines
  }

  ghost predicate Init(s: State) {
    var m := s.m;
    && m.pte.Keys == m.host.Keys == m.flat.Keys
    && m.managed <= m.pte.Keys
    && (forall v :: v in m.pte && v in m.managed ==> m.pte[v] == HOST_PTE && m.host[v] == Some(m.flat[v]))
    && (forall v :: v in m.pte && Resident(m.pte[v]) ==>
          m.pte[v].frame in m.vram && m.pte[v].frame !in m.free && m.vram[m.pte[v].frame] == m.flat[v])
    && (forall v, w :: v in m.pte && w in m.pte && v != w && Resident(m.pte[v]) && Resident(m.pte[w]) ==>
          m.pte[v].frame != m.pte[w].frame)
    && m.free <= m.vram.Keys
    && (forall e: nat ::
        e < |s.engines| ==> s.engines[e].access == 0 && s.engines[e].pc.Idle? && s.engines[e].held == {})
    && (forall e: nat, i :: e < |s.engines| && i in s.engines[e].tlb ==> s.engines[e].tlb[i].tag.None?)
    && m.driver.DIdle? && m.written == {}
  }

  /** A run: any interleaving of the steps above, from an initial state. */
  ghost predicate IsRun(run: seq<State>, steps: seq<Step>) {
    Runs.IsRun(run, steps, Init, NextStep)
  }

  // ---------------------------------------------------------------------------------------------
  // Invariant
  // ---------------------------------------------------------------------------------------------

  /** The driver has taken `vpn` out of the page table but engines may still use its frame. */
  ghost predicate Leaving(m: Memory, vpn: nat) {
    match m.driver
    case Changed(v, task) => v == vpn && task.Evict?
    case Sweep(v, task, _, _) => v == vpn && task.Evict?
    case Quiesce(v, _, _, _) => v == vpn
    case _ => false
  }

  ghost predicate Left(m: Memory, vpn: nat) {
    (m.driver.Quiesced? || m.driver.Collected?) && m.driver.vpn == vpn
  }

  ghost function EvictedPte(d: DriverPc): (r: Pte) {
    match d
    case Changed(_, task) => if task.Evict? then task.was else HOST_PTE
    case Sweep(_, task, _, _) => if task.Evict? then task.was else HOST_PTE
    case Quiesce(_, was, _, _) => was
    case Quiesced(_, was) => was
    case Collected(_, was, _) => was
    case _ => HOST_PTE
  }

  /** The frame set aside for page `vpn`, if any. */
  ghost function Seat(m: Memory, vpn: nat): (r: Option<nat>)
    requires vpn in m.pte
  {
    if Resident(m.pte[vpn]) then Some(m.pte[vpn].frame)
    else if Leaving(m, vpn) || Left(m, vpn) then Some(EvictedPte(m.driver).frame)
    else if (m.driver.Taken? || m.driver.Copied?) && m.driver.vpn == vpn then Some(m.driver.frame)
    else None
  }

  /** Engines may hold translations of `vpn`. */
  ghost predicate Usable(m: Memory, vpn: nat)
    requires vpn in m.pte
  {
    Resident(m.pte[vpn]) || Leaving(m, vpn)
  }

  /** A DIRTY bit for this stay of `vpn` in VRAM is in the table or already collected by the driver. */
  ghost predicate Dirtied(m: Memory, vpn: nat)
    requires vpn in m.pte
  {
    || m.pte[vpn].dirty
    || ((Leaving(m, vpn) || Left(m, vpn)) && EvictedPte(m.driver).dirty)
    || (m.driver.Collected? && m.driver.vpn == vpn && m.driver.late)
  }

  /** quiesce has not yet passed the engine, if it is running for `vpn` at all. */
  ghost predicate Awaited(m: Memory, e: nat, access: nat, vpn: nat) {
    m.driver.Quiesce? && m.driver.vpn == vpn ==>
      e !in m.driver.passed && (m.driver.seen.Some? && m.driver.seen.value.0 == e ==> m.driver.seen.value.1 == access)
  }

  ghost predicate Backed(m: Memory, vpn: nat, frame: nat, dirty: bool) {
    vpn in m.pte && Usable(m, vpn) && Seat(m, vpn) == Some(frame) && (dirty ==> Dirtied(m, vpn))
  }

  /** The engine has read a resident PTE for its request. */
  ghost predicate Loaded(pc: EnginePc) {
    !pc.Idle? && !pc.Ready? && !pc.Lookup? && !pc.TagSeen? && !pc.EntrySeen? && !pc.Walk?
  }

  /** If the sampled generation is still current, the shootdown of `vpn` has not begun to sweep. */
  ghost predicate GenOk(m: Memory, g: nat, vpn: nat) {
    && g <= m.gen
    && (g == m.gen ==> vpn in m.pte && (Resident(m.pte[vpn]) || m.driver.Changed?))
  }

  ghost predicate TagFits(E: Engine, slot: nat, vpn: nat) {
    slot in E.tlb && (E.tlb[slot].tag == None || E.tlb[slot].tag == Some(vpn))
  }

  ghost predicate UsesOk(m: Memory, e: nat, E: Engine, t: Request, p: Pte) {
    Resident(p) && Backed(m, t.vpn, p.frame, p.dirty) && Awaited(m, e, E.access, t.vpn)
  }

  ghost predicate PcOk(m: Memory, e: nat, E: Engine) {
    match E.pc
    case Idle => true
    case Ready => true
    case Lookup(t) => true
    case TagSeen(t, slot) => TagFits(E, slot, t.vpn)
    case EntrySeen(t, slot, p) => TagFits(E, slot, t.vpn) && E.tlb[slot].pte == p
    case HitOr(t, slot, p) => UsesOk(m, e, E, t, p) && TagFits(E, slot, t.vpn)
    case HitDirty(t, slot, p) => UsesOk(m, e, E, t, p) && TagFits(E, slot, t.vpn) && p.dirty
    case Walk(t) => true
    case WalkOr(t) =>
      && t.vpn in m.pte && Seat(m, t.vpn).Some? && Backed(m, t.vpn, Seat(m, t.vpn).value, false)
      && Awaited(m, e, E.access, t.vpn)
    case Inserting(t, p) => UsesOk(m, e, E, t, p) && (t.write ==> p.dirty)
    case GenSampled(t, p, g) => UsesOk(m, e, E, t, p) && (t.write ==> p.dirty) && g <= m.gen
    case Emptied(t, p, g, slot) =>
      UsesOk(m, e, E, t, p) && (t.write ==> p.dirty) && g <= m.gen && slot in E.tlb && E.tlb[slot].tag.None?
    case Filled(t, p, g, slot) =>
      UsesOk(m, e, E, t, p) && (t.write ==> p.dirty) && g <= m.gen && slot in E.tlb && E.tlb[slot] == Entry(None, p)
    case PteChecked(t, p, g, slot) =>
      UsesOk(m, e, E, t, p) && (t.write ==> p.dirty) && GenOk(m, g, t.vpn) && slot in E.tlb
          && E.tlb[slot] == Entry(None, p)
    case GenChecked(t, p, g, slot) =>
      UsesOk(m, e, E, t, p) && (t.write ==> p.dirty) && GenOk(m, g, t.vpn) && slot in E.tlb
          && E.tlb[slot] == Entry(None, p)
    case Tagged(t, p, g, slot) =>
      UsesOk(m, e, E, t, p) && (t.write ==> p.dirty) && GenOk(m, g, t.vpn) && TagFits(E, slot, t.vpn)
    case Clearing(t, p, g, slot) =>
      UsesOk(m, e, E, t, p) && (t.write ==> p.dirty) && g < m.gen && TagFits(E, slot, t.vpn)
  }

  /** An eviction is in progress and `begin_evict` has not returned. */
  ghost predicate Unswept(d: DriverPc) {
    (d.Changed? || d.Sweep?) && d.task.Evict?
  }

  ghost predicate BeganOk(m: Memory, pc: EnginePc) {
    !pc.Idle? && !pc.Ready? && pc.t.began.Some? ==>
      && pc.t.began.value <= m.evictions
      && (pc.t.began.value == m.evictions ==> !Unswept(m.driver))
      && (Loaded(pc) ==> !(pc.t.began.value == m.evictions && ShotDown(m, pc.t.vpn)))
  }

  ghost predicate HoldOk(m: Memory, e: nat, E: Engine, h: Hold) {
    Backed(m, h.vpn, h.frame, h.write) && Awaited(m, e, E.access, h.vpn)
  }

  /** The running eviction's sweep has already passed this slot. */
  ghost predicate Swept(m: Memory, e: nat, slot: nat, vpn: nat) {
    match m.driver
    case Sweep(v, task, swept, _) => v == vpn && task.Evict? && (e, slot) in swept
    case Quiesce(v, _, _, _) => v == vpn
    case _ => false
  }

  /** The engine set this tag after the sweep and is about to see the bumped generation and clear it. */
  ghost predicate Doomed(m: Memory, pc: EnginePc, slot: nat, vpn: nat) {
    (pc.Tagged? || pc.Clearing?) && pc.slot == slot && pc.t.vpn == vpn && pc.g != m.gen
  }

  ghost predicate EntryOk(m: Memory, e: nat, E: Engine, slot: nat)
    requires slot in E.tlb
  {
    E.tlb[slot].tag.Some? ==>
      var vpn, p := E.tlb[slot].tag.value, E.tlb[slot].pte;
      Resident(p) && Backed(m, vpn, p.frame, p.dirty) && (Swept(m, e, slot, vpn) ==> Doomed(m, E.pc, slot, vpn))
  }

  ghost predicate EngineOk(m: Memory, e: nat, E: Engine) {
    && (E.pc.Idle? <==> E.access % 2 == 0)
    && (E.pc.Idle? ==> E.held == {})
    && PcOk(m, e, E)
    && BeganOk(m, E.pc)
    && (forall h :: h in E.held ==> HoldOk(m, e, E, h))
    && (forall slot :: slot in E.tlb ==> EntryOk(m, e, E, slot))
  }

  /** `vpn` is being migrated into VRAM and its host page has not been dropped yet. */
  ghost predicate Arriving(m: Memory, vpn: nat) {
    match m.driver
    case Changed(v, task) => v == vpn && task == Map(false)
    case Sweep(v, task, _, _) => v == vpn && task == Map(false)
    case Taken(v, _) => v == vpn
    case Copied(v, _, undo) => v == vpn && !undo
    case Mapped(v) => v == vpn
    case _ => false
  }

  ghost predicate PageOk(m: Memory, vpn: nat)
    requires vpn in m.pte && vpn in m.flat && vpn in m.host
  {
    var seat := Seat(m, vpn);
    && (seat.Some? ==> seat.value in m.vram && seat.value !in m.free)
    && (seat.Some? && !(m.driver.Taken? && m.driver.vpn == vpn) ==> m.vram[seat.value] == m.flat[vpn])
    && (vpn in m.managed ==>
        && m.pte[vpn].present
        && (seat.None? || (Arriving(m, vpn) && !Resident(m.pte[vpn])) ==> m.host[vpn] == Some(m.flat[vpn]))
        && (!m.uffd && seat.Some? && !Dirtied(m, vpn) ==> m.host[vpn] == Some(m.flat[vpn]))
        && (m.uffd && seat.Some? && !Arriving(m, vpn) ==> m.host[vpn].None?))
    && (vpn in m.written ==> Usable(m, vpn) || Left(m, vpn))
    && (vpn in m.written ==> Dirtied(m, vpn))
  }

  ghost predicate Domains(m: Memory) {
    && m.pte.Keys == m.host.Keys == m.flat.Keys
    && m.managed <= m.pte.Keys
    && m.free <= m.vram.Keys
    && m.written <= m.pte.Keys
  }

  ghost predicate TaskOk(m: Memory, vpn: nat, task: Task) {
    && vpn in m.managed && vpn in m.pte
    && match task
       case Evict(was) => !m.pte[vpn].inVram && Resident(was)
       case Map(undo) => Resident(m.pte[vpn]) && (undo ==> m.uffd)
  }

  ghost predicate DriverOk(m: Memory) {
    match m.driver
    case DIdle => true
    case Changed(v, task) => TaskOk(m, v, task)
    case Sweep(v, task, _, _) => TaskOk(m, v, task)
    case Quiesce(v, was, _, seen) => TaskOk(m, v, Evict(was)) && (seen.Some? ==> seen.value.1 % 2 == 1)
    case Quiesced(v, was) => TaskOk(m, v, Evict(was))
    case Collected(v, was, _) => TaskOk(m, v, Evict(was)) && !m.pte[v].dirty
    case Taken(v, f) => v in m.managed && v in m.pte && !m.pte[v].inVram
    case Copied(v, f, undo) => v in m.managed && v in m.pte && !m.pte[v].inVram && (undo ==> m.uffd)
    case Mapped(v) => v in m.managed && v in m.pte && Resident(m.pte[v])
  }

  ghost predicate SeatsDiffer(m: Memory) {
    forall v, w :: v in m.pte && w in m.pte && v != w && Seat(m, v).Some? ==> Seat(m, v) != Seat(m, w)
  }

  ghost predicate MemoryOk(m: Memory) {
    && Domains(m)
    && DriverOk(m)
    && SeatsDiffer(m)
    && (forall v :: v in m.pte ==> PageOk(m, v))
  }

  ghost predicate Inv(s: State) {
    && MemoryOk(s.m)
    && (forall e: nat :: e < |s.engines| ==> EngineOk(s.m, e, s.engines[e]))
  }

  lemma InitHolds(s: State)
    requires Init(s)
    ensures Inv(s)
  {
  }

  // ---------------------------------------------------------------------------------------------
  // Engine steps
  // ---------------------------------------------------------------------------------------------

  /** The engine moves to another point of the same command. */
  lemma MovesPc(m: Memory, e: nat, E: Engine, pc: EnginePc)
    requires EngineOk(m, e, E) && !E.pc.Idle? && !pc.Idle?
    requires PcOk(m, e, E.(pc := pc)) && BeganOk(m, pc)
    requires forall slot, v :: Doomed(m, E.pc, slot, v) ==> Doomed(m, pc, slot, v)
    ensures EngineOk(m, e, E.(pc := pc))
  {
  }

  /** `translate` returns Ok. */
  lemma Finishes(m: Memory, e: nat, E: Engine, t: Request, frame: nat)
    requires EngineOk(m, e, E) && !E.pc.Idle?
    requires Backed(m, t.vpn, frame, t.write) && Awaited(m, e, E.access, t.vpn)
    requires forall slot, v :: !Doomed(m, E.pc, slot, v)
    ensures EngineOk(m, e, Finish(E, t, frame))
  {
  }

  /** Steps of `translate` outside `tlb_insert`. */
  lemma TranslateStepKeeps(m: Memory, e: nat, E: Engine, E': Engine, a: Action)
    requires DriverOk(m) && EngineOk(m, e, E) && EngineStep(m, E, m, E', a)
    requires a.Begin? || a.End? || a.Translate? || a.Probe? || a.Miss? || a.LoadEntry? || a.RecheckTag? || a.LoadPte?
    ensures EngineOk(m, e, E')
  {
    if a.Begin? || a.End? {
    } else if a.RecheckTag? {
      assert EntryOk(m, e, E, E.pc.slot);
      if E'.pc.Ready? {
        Finishes(m, e, E, E.pc.t, E.pc.p.frame);
      } else {
        MovesPc(m, e, E, E'.pc);
      }
    } else {
      MovesPc(m, e, E, E'.pc);
    }
  }

  /** Steps of `tlb_insert` that only read shared memory. */
  lemma InsertStepKeeps(m: Memory, e: nat, E: Engine, E': Engine, a: Action)
    requires DriverOk(m) && EngineOk(m, e, E) && EngineStep(m, E, m, E', a)
    requires a.SampleGen? || a.CheckPte? || a.CheckGen? || a.FinalCheck?
    ensures EngineOk(m, e, E')
  {
    if E'.pc.Ready? {
      Finishes(m, e, E, E.pc.t, E.pc.p.frame);
    } else {
      MovesPc(m, e, E, E'.pc);
    }
  }

  lemma TlbStepKeeps(m: Memory, e: nat, E: Engine, E': Engine, a: Action)
    requires DriverOk(m) && EngineOk(m, e, E) && EngineStep(m, E, m, E', a)
    requires a.StoreEntry? || a.EmptySlot? || a.FillSlot? || a.SetTag? || a.ClearTag?
    ensures EngineOk(m, e, E')
  {
    assert forall h :: h in E'.held ==> HoldOk(m, e, E', h);
    forall slot | slot in E'.tlb
      ensures EntryOk(m, e, E', slot)
    {
      assert EntryOk(m, e, E, slot);
    }
  }

  /** `m'` is `m` with DIRTY or ACCESSED set in the entry of `vpn`. */
  ghost predicate SetsBits(m: Memory, m': Memory, vpn: nat) {
    && vpn in m.pte
    && var p, p' := m.pte[vpn], if vpn in m'.pte then m'.pte[vpn] else HOST_PTE;
    && m' == m.(pte := m.pte[vpn := p'])
    && p' == p.(dirty := p'.dirty, accessed := p'.accessed) && (p.dirty ==> p'.dirty)
  }

  /** A change of shared memory that takes nothing away from what an engine relies on. */
  lemma CarriesEngine(m: Memory, m': Memory, e: nat, E: Engine)
    requires EngineOk(m, e, E)
    requires forall v, f, d ::
             Backed(m, v, f, d) && Awaited(m, e, E.access, v) ==> Backed(m', v, f, d) && Awaited(m', e, E.access, v)
    requires forall g, v :: GenOk(m, g, v) ==> GenOk(m', g, v)
    requires m.gen <= m'.gen && BeganOk(m', E.pc)
    requires forall slot :: slot in E.tlb ==> EntryOk(m', e, E, slot)
    ensures EngineOk(m', e, E)
  {
    forall h | h in E.held
      ensures HoldOk(m', e, E, h)
    {
      assert HoldOk(m, e, E, h);
    }
  }

  /** Setting bits takes nothing away from any engine. */
  lemma SetsBitsKeepsEngine(m: Memory, m': Memory, vpn: nat, e: nat, E: Engine)
    requires SetsBits(m, m', vpn) && EngineOk(m, e, E)
    ensures EngineOk(m', e, E)
  {
    assert forall v, f, d :: Backed(m, v, f, d) ==> Backed(m', v, f, d);
    forall slot | slot in E.tlb
      ensures EntryOk(m', e, E, slot)
    {
      assert EntryOk(m, e, E, slot);
    }
    CarriesEngine(m, m', e, E);
  }

  lemma SetsBitsKeepsPage(m: Memory, m': Memory, vpn: nat, v: nat)
    requires SetsBits(m, m', vpn) && Domains(m) && v in m.pte && PageOk(m, v)
    ensures Seat(m', v) == Seat(m, v) && PageOk(m', v)
  {
  }

  lemma SetsBitsKeepsMemory(m: Memory, m': Memory, vpn: nat)
    requires SetsBits(m, m', vpn) && MemoryOk(m)
    requires m.driver.Collected? ==> m.driver.vpn != vpn
    ensures MemoryOk(m')
  {
    forall v | v in m'.pte
      ensures Seat(m', v) == Seat(m, v) && PageOk(m', v)
    {
      SetsBitsKeepsPage(m, m', vpn, v);
    }
  }

  /** Steps that set bits in the page table. */
  lemma OrStepKeeps(m: Memory, E: Engine, m': Memory, E': Engine, e: nat, a: Action)
    requires DriverOk(m) && EngineOk(m, e, E) && EngineStep(m, E, m', E', a) && (a.OrDirty? || a.OrPte?)
    ensures SetsBits(m, m', E.pc.t.vpn) && EngineOk(m', e, E')
    ensures m.driver.Collected? ==> m.driver.vpn != E.pc.t.vpn
  {
    SetsBitsKeepsEngine(m, m', E.pc.t.vpn, e, E);
    MovesPc(m', e, E, E'.pc);
  }

  lemma StoreKeepsPage(m: Memory, E: Engine, m': Memory, a: Action, v: nat)
    requires Domains(m) && EngineStep(m, E, m', E, a) && a.Store?
    requires v in m.pte && PageOk(m, v) && (v != a.h.vpn ==> Seat(m, v) != Some(a.h.frame))
    requires Backed(m, a.h.vpn, a.h.frame, a.h.write)
    ensures Domains(m') && Seat(m', v) == Seat(m, v) && PageOk(m', v)
  {
  }

  lemma StoreKeepsMemory(m: Memory, e: nat, E: Engine, m': Memory, a: Action)
    requires MemoryOk(m) && EngineOk(m, e, E) && EngineStep(m, E, m', E, a) && a.Store?
    ensures MemoryOk(m')
  {
    assert HoldOk(m, e, E, a.h);
    forall v | v in m.pte
      ensures Domains(m') && Seat(m', v) == Seat(m, v) && PageOk(m', v)
    {
      StoreKeepsPage(m, E, m', a, v);
    }
  }

  lemma StoreKeepsEngine(m: Memory, m': Memory, e: nat, E: Engine)
    requires EngineOk(m, e, E) && m' == m.(vram := m'.vram, flat := m'.flat, host := m'.host, written := m'.written)
    ensures EngineOk(m', e, E)
  {
    assert forall v, f, d :: Backed(m, v, f, d) ==> Backed(m', v, f, d);
    forall slot | slot in E.tlb
      ensures EntryOk(m', e, E, slot)
    {
      assert EntryOk(m, e, E, slot);
    }
    CarriesEngine(m, m', e, E);
  }

  lemma EngineStepKeeps(s: State, s': State, e: nat, a: Action)
    requires Inv(s) && NextStep(s, s', EngineDoes(e, a))
    ensures Inv(s')
  {
    var m, E, m', E' := s.m, s.engines[e], s'.m, s'.engines[e];
    assert EngineOk(m, e, E);
    if a.Store? {
      StoreKeepsMemory(m, e, E, m', a);
      forall d: nat | d < |s'.engines|
        ensures EngineOk(m', d, s'.engines[d])
      {
        StoreKeepsEngine(m, m', d, s.engines[d]);
      }
    } else if a.OrDirty? || a.OrPte? {
      OrStepKeeps(m, E, m', E', e, a);
      SetsBitsKeepsMemory(m, m', E.pc.t.vpn);
      forall d: nat | d < |s'.engines| && d != e
        ensures EngineOk(m', d, s'.engines[d])
      {
        SetsBitsKeepsEngine(m, m', E.pc.t.vpn, d, s.engines[d]);
      }
    } else if a.SampleGen? || a.CheckPte? || a.CheckGen? || a.FinalCheck? {
      InsertStepKeeps(m, e, E, E', a);
    } else if a.StoreEntry? || a.EmptySlot? || a.FillSlot? || a.SetTag? || a.ClearTag? {
      TlbStepKeeps(m, e, E, E', a);
    } else {
      TranslateStepKeeps(m, e, E, E', a);
    }
  }

  // ---------------------------------------------------------------------------------------------
  // Driver steps
  // ---------------------------------------------------------------------------------------------

  /** The sweep moves no page. */
  lemma SweepKeepsMemoryPage(s: State, s': State, a: DriverAction, v: nat)
    requires Domains(s.m) && DriverOk(s.m) && DriverStep(s, s', a) && v in s.m.pte && PageOk(s.m, v)
    requires a.BumpGen? || a.LoadTag? || a.StoreTag? || a.SweepDone?
    ensures v in s'.m.pte && Domains(s'.m) && Seat(s'.m, v) == Seat(s.m, v) && PageOk(s'.m, v)
  {
  }

  lemma SweepKeepsMemory(s: State, s': State, a: DriverAction)
    requires MemoryOk(s.m) && DriverStep(s, s', a)
    requires a.BumpGen? || a.LoadTag? || a.StoreTag? || a.SweepDone?
    ensures MemoryOk(s'.m)
  {
    forall v | v in s.m.pte
      ensures v in s'.m.pte && Domains(s'.m) && Seat(s'.m, v) == Seat(s.m, v) && PageOk(s'.m, v)
    {
      SweepKeepsMemoryPage(s, s', a, v);
    }
  }

  lemma QuiesceKeepsMemoryPage(s: State, s': State, a: DriverAction, v: nat)
    requires Domains(s.m) && DriverOk(s.m) && DriverStep(s, s', a) && v in s.m.pte && PageOk(s.m, v)
    requires a.LoadAccess? || a.SpinAccess? || a.QuiesceDone?
    ensures v in s'.m.pte && Domains(s'.m) && Seat(s'.m, v) == Seat(s.m, v) && PageOk(s'.m, v)
  {
  }

  lemma QuiesceKeepsMemory(s: State, s': State, a: DriverAction)
    requires MemoryOk(s.m) && DriverStep(s, s', a)
    requires a.LoadAccess? || a.SpinAccess? || a.QuiesceDone?
    ensures MemoryOk(s'.m)
  {
    forall v | v in s.m.pte
      ensures v in s'.m.pte && Domains(s'.m) && Seat(s'.m, v) == Seat(s.m, v) && PageOk(s'.m, v)
    {
      QuiesceKeepsMemoryPage(s, s', a, v);
    }
  }

  lemma BitsKeepMemoryPage(s: State, s': State, a: DriverAction, v: nat)
    requires Domains(s.m) && DriverOk(s.m) && DriverStep(s, s', a) && v in s.m.pte && PageOk(s.m, v)
    requires a.EndEvict? || a.ClearAccessed?
    ensures v in s'.m.pte && Domains(s'.m) && Seat(s'.m, v) == Seat(s.m, v) && PageOk(s'.m, v)
  {
  }

  lemma BitsKeepMemory(s: State, s': State, a: DriverAction)
    requires MemoryOk(s.m) && DriverStep(s, s', a)
    requires a.EndEvict? || a.ClearAccessed?
    ensures MemoryOk(s'.m)
  {
    forall v | v in s.m.pte
      ensures v in s'.m.pte && Domains(s'.m) && Seat(s'.m, v) == Seat(s.m, v) && PageOk(s'.m, v)
    {
      BitsKeepMemoryPage(s, s', a, v);
    }
  }

  lemma EvictKeepsMemoryPage(s: State, s': State, a: DriverAction, v: nat)
    requires Domains(s.m) && DriverOk(s.m) && DriverStep(s, s', a) && v in s.m.pte && PageOk(s.m, v)
    requires a.BeginEvict? || a.PublishFails?
    ensures v in s'.m.pte && Domains(s'.m) && Seat(s'.m, v) == Seat(s.m, v) && PageOk(s'.m, v)
  {
  }

  lemma EvictKeepsMemory(s: State, s': State, a: DriverAction)
    requires MemoryOk(s.m) && DriverStep(s, s', a)
    requires a.BeginEvict? || a.PublishFails?
    ensures MemoryOk(s'.m)
  {
    forall v | v in s.m.pte
      ensures v in s'.m.pte && Domains(s'.m) && Seat(s'.m, v) == Seat(s.m, v) && PageOk(s'.m, v)
    {
      EvictKeepsMemoryPage(s, s', a, v);
    }
  }

  lemma MapKeepsMemoryPage(s: State, s': State, a: DriverAction, v: nat)
    requires Domains(s.m) && DriverOk(s.m) && DriverStep(s, s', a) && v in s.m.pte && PageOk(s.m, v)
    requires a.StorePte? || a.DropHost?
    ensures v in s'.m.pte && Domains(s'.m) && Seat(s'.m, v) == Seat(s.m, v) && PageOk(s'.m, v)
  {
  }

  lemma MapKeepsMemory(s: State, s': State, a: DriverAction)
    requires MemoryOk(s.m) && DriverStep(s, s', a)
    requires a.StorePte? || a.DropHost?
    ensures MemoryOk(s'.m)
  {
    forall v | v in s.m.pte
      ensures v in s'.m.pte && Domains(s'.m) && Seat(s'.m, v) == Seat(s.m, v) && PageOk(s'.m, v)
    {
      MapKeepsMemoryPage(s, s', a, v);
    }
  }

  /** A frame goes back to the free ones, is taken from them, or is filled. */
  lemma FrameKeepsMemory(s: State, s': State, a: DriverAction)
    requires MemoryOk(s.m) && DriverStep(s, s', a)
    requires a.Publish? || a.TakeFrame? || a.CopyIn?
    ensures MemoryOk(s'.m)
  {
    forall v | v in s.m.pte
      ensures v in s'.m.pte && Domains(s'.m) && PageOk(s'.m, v)
    {
      if !a.TakeFrame? {
        assert PageOk(s.m, s.m.driver.vpn);
      }
      FrameKeepsPage(s, s', a, v);
    }
    FrameKeepsSeats(s, s', a);
  }

  lemma FrameMovesSeat(s: State, s': State, a: DriverAction, v: nat)
    requires DriverOk(s.m) && DriverStep(s, s', a) && v in s.m.pte
    requires a.Publish? || a.TakeFrame? || a.CopyIn?
    ensures s'.m.pte == s.m.pte
    ensures Seat(s'.m, v) == if a.Publish? && v == s.m.driver.vpn then None
                             else if a.TakeFrame? && v == a.vpn then Some(a.frame)
                             else Seat(s.m, v)
  {
  }

  lemma FrameKeepsSeats(s: State, s': State, a: DriverAction)
    requires SeatsDiffer(s.m) && DriverOk(s.m) && DriverStep(s, s', a)
    requires forall v :: v in s.m.pte && Seat(s.m, v).Some? ==> Seat(s.m, v).value !in s.m.free
    requires a.Publish? || a.TakeFrame? || a.CopyIn?
    ensures SeatsDiffer(s'.m)
  {
    forall v, w | v in s'.m.pte && w in s'.m.pte && v != w && Seat(s'.m, v).Some?
      ensures Seat(s'.m, v) != Seat(s'.m, w)
    {
      FrameMovesSeat(s, s', a, v);
      FrameMovesSeat(s, s', a, w);
    }
  }

  lemma FrameKeepsPage(s: State, s': State, a: DriverAction, v: nat)
    requires Domains(s.m) && DriverOk(s.m) && DriverStep(s, s', a) && v in s.m.pte && PageOk(s.m, v)
    requires a.Publish? || a.TakeFrame? || a.CopyIn?
    requires !a.TakeFrame? ==>
             PageOk(s.m, s.m.driver.vpn) && (v != s.m.driver.vpn ==> Seat(s.m, v) != Seat(s.m, s.m.driver.vpn))
    ensures v in s'.m.pte && Domains(s'.m) && PageOk(s'.m, v)
  {
    FrameMovesSeat(s, s', a, v);
  }

  lemma DriverStepKeepsMemory(s: State, s': State, a: DriverAction)
    requires MemoryOk(s.m) && DriverStep(s, s', a)
    ensures MemoryOk(s'.m)
  {
    match a {
      case BeginEvict(_) => EvictKeepsMemory(s, s', a);
      case BumpGen => SweepKeepsMemory(s, s', a);
      case LoadTag(_, _) => SweepKeepsMemory(s, s', a);
      case StoreTag => SweepKeepsMemory(s, s', a);
      case SweepDone => SweepKeepsMemory(s, s', a);
      case LoadAccess(_) => QuiesceKeepsMemory(s, s', a);
      case SpinAccess => QuiesceKeepsMemory(s, s', a);
      case QuiesceDone => QuiesceKeepsMemory(s, s', a);
      case EndEvict => BitsKeepMemory(s, s', a);
      case Publish => FrameKeepsMemory(s, s', a);
      case PublishFails => EvictKeepsMemory(s, s', a);
      case TakeFrame(_, _) => FrameKeepsMemory(s, s', a);
      case CopyIn => FrameKeepsMemory(s, s', a);
      case StorePte => MapKeepsMemory(s, s', a);
      case DropHost => MapKeepsMemory(s, s', a);
      case ClearAccessed(_) => BitsKeepMemory(s, s', a);
    }
  }

  /** Steps that change neither who may use a frame nor the progress of a sweep or a quiesce. */
  lemma BitsKeepEngine(s: State, s': State, a: DriverAction, e: nat)
    requires DriverOk(s.m) && DriverStep(s, s', a) && e < |s.engines| && EngineOk(s.m, e, s.engines[e])
    requires a.EndEvict? || a.ClearAccessed?
    ensures EngineOk(s'.m, e, s.engines[e])
  {
    var m, m', E := s.m, s'.m, s.engines[e];
    assert forall v, f, d :: Backed(m, v, f, d) ==> Backed(m', v, f, d);
    forall slot | slot in E.tlb
      ensures EntryOk(m', e, E, slot)
    {
      assert EntryOk(m, e, E, slot);
    }
    CarriesEngine(m, m', e, E);
  }

  lemma FrameKeepsEngine(s: State, s': State, a: DriverAction, e: nat)
    requires DriverOk(s.m) && DriverStep(s, s', a) && e < |s.engines| && EngineOk(s.m, e, s.engines[e])
    requires a.Publish? || a.PublishFails? || a.TakeFrame?
    ensures EngineOk(s'.m, e, s.engines[e])
  {
    var m, m', E := s.m, s'.m, s.engines[e];
    assert forall v, f, d :: Backed(m, v, f, d) ==> Backed(m', v, f, d);
    forall slot | slot in E.tlb
      ensures EntryOk(m', e, E, slot)
    {
      assert EntryOk(m, e, E, slot);
    }
    CarriesEngine(m, m', e, E);
  }

  lemma MapKeepsEngine(s: State, s': State, a: DriverAction, e: nat)
    requires DriverOk(s.m) && DriverStep(s, s', a) && e < |s.engines| && EngineOk(s.m, e, s.engines[e])
    requires a.CopyIn? || a.StorePte? || a.DropHost?
    ensures EngineOk(s'.m, e, s.engines[e])
  {
    var m, m', E := s.m, s'.m, s.engines[e];
    assert forall v, f, d :: Backed(m, v, f, d) ==> Backed(m', v, f, d);
    forall slot | slot in E.tlb
      ensures EntryOk(m', e, E, slot)
    {
      assert EntryOk(m, e, E, slot);
    }
    CarriesEngine(m, m', e, E);
  }

  lemma BeginEvictKeepsEngine(s: State, s': State, a: DriverAction, e: nat)
    requires DriverOk(s.m) && DriverStep(s, s', a) && e < |s.engines| && EngineOk(s.m, e, s.engines[e])
             && (a.BeginEvict? || a.BumpGen?)
    ensures EngineOk(s'.m, e, s.engines[e])
  {
    var m, m', E := s.m, s'.m, s.engines[e];
    assert forall v, f, d :: Backed(m, v, f, d) ==> Backed(m', v, f, d);
    forall slot | slot in E.tlb
      ensures EntryOk(m', e, E, slot)
    {
      assert EntryOk(m, e, E, slot);
    }
    CarriesEngine(m, m', e, E);
  }

  lemma SweepKeepsEngine(s: State, s': State, a: DriverAction, e: nat)
    requires DriverOk(s.m) && DriverStep(s, s', a) && e < |s.engines| && EngineOk(s.m, e, s.engines[e])
             && (a.LoadTag? || a.SweepDone?)
    ensures EngineOk(s'.m, e, s.engines[e])
  {
    var m, m', E := s.m, s'.m, s.engines[e];
    assert forall v, f, d :: Backed(m, v, f, d) ==> Backed(m', v, f, d);
    forall slot | slot in E.tlb
      ensures EntryOk(m', e, E, slot)
    {
      assert EntryOk(m, e, E, slot);
    }
    CarriesEngine(m, m', e, E);
  }

  /** The driver may clear any tag at any time. */
  lemma ClearsTag(m: Memory, e: nat, E: Engine, slot: nat)
    requires EngineOk(m, e, E) && slot in E.tlb
    ensures EngineOk(m, e, E.(tlb := E.tlb[slot := E.tlb[slot].(tag := None)]))
  {
    var E' := E.(tlb := E.tlb[slot := E.tlb[slot].(tag := None)]);
    forall i | i in E'.tlb
      ensures EntryOk(m, e, E', i)
    {
      assert EntryOk(m, e, E, i);
    }
    assert forall h :: h in E'.held ==> HoldOk(m, e, E, h) && HoldOk(m, e, E', h);
  }

  lemma StoreTagKeepsEngine(s: State, s': State, e: nat)
    requires DriverOk(s.m) && DriverStep(s, s', StoreTag) && e < |s.engines| && EngineOk(s.m, e, s.engines[e])
    ensures EngineOk(s'.m, e, s'.engines[e])
  {
    var m, m', E' := s.m, s'.m, s'.engines[e];
    var (d, slot) := m.driver.hit.value;
    if e == d {
      ClearsTag(m, e, s.engines[e], slot);
    }
    assert forall v, f, dirty :: Backed(m, v, f, dirty) ==> Backed(m', v, f, dirty);
    forall i | i in E'.tlb
      ensures EntryOk(m', e, E', i)
    {
      assert EntryOk(m, e, E', i);
    }
    CarriesEngine(m, m', e, E');
  }

  /** quiesce passes an engine only when that engine holds nothing of the page being evicted. */
  lemma QuiesceKeepsEngine(s: State, s': State, a: DriverAction, e: nat)
    requires DriverOk(s.m) && DriverStep(s, s', a) && e < |s.engines| && EngineOk(s.m, e, s.engines[e])
             && (a.LoadAccess? || a.SpinAccess? || a.QuiesceDone?)
    ensures EngineOk(s'.m, e, s.engines[e])
  {
    var m, m', E := s.m, s'.m, s.engines[e];
    forall slot | slot in E.tlb
      ensures EntryOk(m', e, E, slot)
    {
      assert EntryOk(m, e, E, slot);
    }
    if E.pc.Idle? {
      assert E.held == {};
    } else {
      CarriesEngine(m, m', e, E);
    }
  }

  lemma DriverStepKeepsEngine(s: State, s': State, a: DriverAction, e: nat)
    requires DriverOk(s.m) && DriverStep(s, s', a) && e < |s.engines| && EngineOk(s.m, e, s.engines[e])
    ensures e < |s'.engines| && EngineOk(s'.m, e, s'.engines[e])
  {
    match a {
      case BeginEvict(_) => BeginEvictKeepsEngine(s, s', a, e);
      case BumpGen => BeginEvictKeepsEngine(s, s', a, e);
      case LoadTag(_, _) => SweepKeepsEngine(s, s', a, e);
      case StoreTag => StoreTagKeepsEngine(s, s', e);
      case SweepDone => SweepKeepsEngine(s, s', a, e);
      case LoadAccess(_) => QuiesceKeepsEngine(s, s', a, e);
      case SpinAccess => QuiesceKeepsEngine(s, s', a, e);
      case QuiesceDone => QuiesceKeepsEngine(s, s', a, e);
      case EndEvict => BitsKeepEngine(s, s', a, e);
      case Publish => FrameKeepsEngine(s, s', a, e);
      case PublishFails => FrameKeepsEngine(s, s', a, e);
      case TakeFrame(_, _) => FrameKeepsEngine(s, s', a, e);
      case CopyIn => MapKeepsEngine(s, s', a, e);
      case StorePte => MapKeepsEngine(s, s', a, e);
      case DropHost => MapKeepsEngine(s, s', a, e);
      case ClearAccessed(_) => BitsKeepEngine(s, s', a, e);
    }
  }

  // ---------------------------------------------------------------------------------------------
  // All runs
  // ---------------------------------------------------------------------------------------------

  lemma HostStepKeepsPage(m: Memory, m': Memory, vpn: nat, offset: nat, byte: Byte, v: nat)
    requires Domains(m) && HostStep(m, m', vpn, offset, byte) && v in m.pte && PageOk(m, v)
    ensures Domains(m') && Seat(m', v) == Seat(m, v) && PageOk(m', v)
  {
  }

  lemma HostStepKeepsMemory(m: Memory, m': Memory, vpn: nat, offset: nat, byte: Byte)
    requires MemoryOk(m) && HostStep(m, m', vpn, offset, byte)
    ensures MemoryOk(m')
  {
    forall v | v in m.pte
      ensures Domains(m') && Seat(m', v) == Seat(m, v) && PageOk(m', v)
    {
      HostStepKeepsPage(m, m', vpn, offset, byte, v);
    }
  }

  lemma StepKeepsInv(s: State, s': State, step: Step)
    requires Inv(s) && NextStep(s, s', step)
    ensures Inv(s')
  {
    match step {
      case EngineDoes(e, a) => EngineStepKeeps(s, s', e, a);
      case DriverDoes(d) =>
        DriverStepKeepsMemory(s, s', d);
        forall e: nat | e < |s'.engines|
          ensures EngineOk(s'.m, e, s'.engines[e])
        {
          DriverStepKeepsEngine(s, s', d, e);
        }
      case HostStores(vpn, offset, byte) =>
        HostStepKeepsMemory(s.m, s'.m, vpn, offset, byte);
        forall e: nat | e < |s'.engines|
          ensures EngineOk(s'.m, e, s'.engines[e])
        {
          StoreKeepsEngine(s.m, s'.m, e, s.engines[e]);
        }
    }
  }

  lemma RunKeepsInv(run: seq<State>, steps: seq<Step>, i: nat)
    requires IsRun(run, steps) && i < |run|
    ensures Inv(run[i])
  {
    forall s | Init(s)
      ensures Inv(s)
    {
      InitHolds(s);
    }
    forall s, s', step | Inv(s) && NextStep(s, s', step)
      ensures Inv(s')
    {
      StepKeepsInv(s, s', step);
    }
    Runs.KeepInvariant(run, steps, Init, NextStep, Inv, i);
  }

  /** Where the bytes of page `vpn` are, read off the mechanism and not off `flat`. */
  ghost function Logical(m: Memory, vpn: nat): (r: Option<seq<Byte>>)
    requires vpn in m.pte && vpn in m.host
  {
    var seat := Seat(m, vpn);
    if seat.Some? && !(m.driver.Taken? && m.driver.vpn == vpn) && seat.value in m.vram then Some(m.vram[seat.value])
    else m.host[vpn]
  }

  /**
    Frame-reuse safety. In every run: an engine that may use a frame through a page sees the flat
    memory of that page; two translations in use share a frame only if they are of the same page; and
    from the moment quiesce returns until the page is mapped again no engine can use the evicted frame,
    through this page or any other, nor a frame the driver is filling.
  */
  lemma FrameReuseSafety(run: seq<State>, steps: seq<Step>, i: nat, e: nat, h: Hold)
    requires IsRun(run, steps) && i < |run| && e < |run[i].engines| && h in run[i].engines[e].held
    ensures var m := run[i].m;
            && h.vpn in m.flat && h.frame in m.vram && m.vram[h.frame] == m.flat[h.vpn]
            && h.frame !in m.free
            && ((m.driver.Quiesced? || m.driver.Collected?) ==> h.vpn != m.driver.vpn && h.frame != m.driver.was.frame)
            && ((m.driver.Taken? || m.driver.Copied?) ==> h.vpn != m.driver.vpn && h.frame != m.driver.frame)
    ensures forall d: nat, k ::
            d < |run[i].engines| && k in run[i].engines[d].held && k.frame == h.frame ==> k.vpn == h.vpn
  {
    RunKeepsInv(run, steps, i);
    var m := run[i].m;
    assert EngineOk(m, e, run[i].engines[e]) && HoldOk(m, e, run[i].engines[e], h) && PageOk(m, h.vpn);
    forall d: nat, k | d < |run[i].engines| && k in run[i].engines[d].held && k.frame == h.frame
      ensures k.vpn == h.vpn
    {
      assert EngineOk(m, d, run[i].engines[d]) && HoldOk(m, d, run[i].engines[d], k);
    }
  }

  /** The step makes engine `e` return Ok from `translate` with this translation. */
  ghost predicate Returns(s: State, s': State, e: nat, h: Hold) {
    e < |s.engines| && e < |s'.engines| && h in s'.engines[e].held && h !in s.engines[e].held
  }

  lemma ReturnIsFresh(s: State, s': State, step: Step, e: nat, h: Hold)
    requires Inv(s) && NextStep(s, s', step) && Returns(s, s', e, h)
    ensures var pc := s.engines[e].pc;
            && !pc.Idle? && !pc.Ready? && h == Hold(pc.t.vpn, h.frame, pc.t.write)
            && (pc.t.began == Some(s.m.evictions) ==> !ShotDown(s.m, h.vpn))
  {
    var E, E' := s.engines[e], s'.engines[e];
    assert EngineOk(s.m, e, E);
    assert step.EngineDoes? && EngineStep(s.m, E, s'.m, E', step.a);
    FinishIsFresh(s.m, e, E, s'.m, E', step.a, h);
  }

  lemma FinishIsFresh(m: Memory, e: nat, E: Engine, m': Memory, E': Engine, a: Action, h: Hold)
    requires MemoryOk(m) && EngineOk(m, e, E) && EngineStep(m, E, m', E', a) && h in E'.held && h !in E.held
    ensures !E.pc.Idle? && !E.pc.Ready? && h == Hold(E.pc.t.vpn, h.frame, E.pc.t.write)
    ensures E.pc.t.began == Some(m.evictions) ==> !ShotDown(m, h.vpn)
  {
    if E.pc.EntrySeen? {
      assert EntryOk(m, e, E, E.pc.slot);
    }
  }

  /**
    A translate that begins after `begin_evict` has returned does not yield the old frame: while that
    eviction is still in progress the call does not return Ok at all.
  */
  lemma NoStaleTranslate(run: seq<State>, steps: seq<Step>, i: nat, e: nat, h: Hold)
    requires IsRun(run, steps) && i < |steps| && Returns(run[i], run[i + 1], e, h)
    ensures var pc := run[i].engines[e].pc;
            && !pc.Idle? && !pc.Ready? && h == Hold(pc.t.vpn, h.frame, pc.t.write)
            && (pc.t.began == Some(run[i].m.evictions) ==> !ShotDown(run[i].m, h.vpn))
  {
    RunKeepsInv(run, steps, i);
    assert Runs.StepAt(run, steps, NextStep, i);
    ReturnIsFresh(run[i], run[i + 1], steps[i], e, h);
  }

  /** No lost write-back: when the driver decides whether to write the page back, every engine store
      since the page became resident has left its DIRTY bit in one of the two words it collected. */
  lemma NoLostWriteBack(run: seq<State>, steps: seq<Step>, i: nat)
    requires IsRun(run, steps) && i < |run| && run[i].m.driver.Collected?
    ensures var d := run[i].m.driver; d.vpn in run[i].m.written ==> d.was.dirty || d.late
  {
    RunKeepsInv(run, steps, i);
    var m := run[i].m;
    if m.driver.vpn in m.written {
      assert PageOk(m, m.driver.vpn);
    }
  }

  /** Paging refines flat memory: wherever a page's bytes are, they are the flat bytes. */
  lemma RefinesFlat(run: seq<State>, steps: seq<Step>, i: nat, vpn: nat)
    requires IsRun(run, steps) && i < |run| && vpn in run[i].m.managed
    ensures var m := run[i].m;
            && vpn in m.pte && vpn in m.host && vpn in m.flat && Logical(m, vpn) == Some(m.flat[vpn])
            && (m.uffd && m.host[vpn].Some? && !Arriving(m, vpn) ==> m.host[vpn].value == m.flat[vpn])
  {
    RunKeepsInv(run, steps, i);
    assert PageOk(run[i].m, vpn);
  }

  /** What a program expects the step to do to the bytes of page `vpn`. */
  ghost function Poke(bytes: seq<Byte>, step: Step, vpn: nat): (r: seq<Byte>) {
    match step
    case HostStores(v, offset, byte) => if v == vpn && offset < |bytes| then bytes[offset := byte] else bytes
    case DriverDoes(_) => bytes
    case EngineDoes(_, a) =>
      if a.Store? && a.h.vpn == vpn && a.offset < |bytes| then bytes[a.offset := a.byte]
      else bytes
  }

  lemma EnginePokesFlat(m: Memory, E: Engine, m': Memory, E': Engine, a: Action)
    requires EngineStep(m, E, m', E', a)
    ensures m'.managed == m.managed
    ensures m'.flat == if a.Store? && a.h.vpn in m.flat && a.offset < |m.flat[a.h.vpn]|
                       then m.flat[a.h.vpn := m.flat[a.h.vpn][a.offset := a.byte]] else m.flat
  {
  }

  lemma DriverKeepsFlat(s: State, s': State, a: DriverAction)
    requires DriverStep(s, s', a)
    ensures s'.m.managed == s.m.managed && s'.m.flat == s.m.flat
  {
  }

  lemma StepPokesFlat(s: State, s': State, step: Step, vpn: nat)
    requires NextStep(s, s', step) && vpn in s.m.flat
    ensures s'.m.managed == s.m.managed && vpn in s'.m.flat && s'.m.flat[vpn] == Poke(s.m.flat[vpn], step, vpn)
  {
    match step {
      case EngineDoes(e, a) => EnginePokesFlat(s.m, s.engines[e], s'.m, s'.engines[e], a);
      case DriverDoes(d) => DriverKeepsFlat(s, s', d);
      case HostStores(_, _, _) =>
    }
  }

  /** Nothing but a store changes a page's bytes: translation, eviction, shootdown, quiesce, migration
      and rollback keep every page's logical bytes, and a store changes one byte of one page. */
  lemma OnlyStoresChangeBytes(run: seq<State>, steps: seq<Step>, i: nat, vpn: nat)
    requires IsRun(run, steps) && i < |steps| && vpn in run[i].m.managed
    ensures var m, m' := run[i].m, run[i + 1].m;
            && vpn in m.pte && vpn in m.host && vpn in m'.pte && vpn in m'.host
            && Logical(m, vpn).Some? && Logical(m', vpn) == Some(Poke(Logical(m, vpn).value, steps[i], vpn))
  {
    RefinesFlat(run, steps, i, vpn);
    assert Runs.StepAt(run, steps, NextStep, i);
    StepPokesFlat(run[i], run[i + 1], steps[i], vpn);
    RefinesFlat(run, steps, i + 1, vpn);
  }
}
