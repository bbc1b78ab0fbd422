/**
  Translations, evictions and migrations come to their ends: what Shootdown shows to be safe also happens.
*/
module Completion {
  import opened Base
  import opened Shootdown
  import Runs

  // ---------------------------------------------------------------------------------------------
  // Translations
  // ---------------------------------------------------------------------------------------------

  /** The engine is inside `translate`. */
  predicate Translating(pc: EnginePc) {
    !pc.Idle? && !pc.Ready?
  }

  /** Steps to go, at most, until `translate` returns. */
  function Ahead(pc: EnginePc): (n: nat) {
    match pc
    case Idle => 0
    case Ready => 0
    case Lookup(_) => 13
    case TagSeen(_, _) => 12
    case EntrySeen(_, _, _) => 11
    case Walk(_) => 10
    case WalkOr(_) => 9
    case Inserting(_, _) => 8
    case GenSampled(_, _, _) => 7
    case Emptied(_, _, _, _) => 6
    case Filled(_, _, _, _) => 5
    case PteChecked(_, _, _, _) => 4
    case GenChecked(_, _, _, _) => 3
    case HitOr(_, _, _) => 2
    case Tagged(_, _, _, _) => 2
    case HitDirty(_, _, _) => 1
    case Clearing(_, _, _, _) => 1
  }

  /** `translate` has returned Ok: the engine holds a translation to the page's frame. */
  ghost predicate Succeeds(m: Memory, E: Engine, E': Engine)
    requires Translating(E.pc)
  {
    exists frame: nat ::
      Backed(m, E.pc.t.vpn, frame, E.pc.t.write) && E'.held == E.held + {Hold(E.pc.t.vpn, frame, E.pc.t.write)}
  }

  /** `translate` answers the request: Ok, or a fault, and that only for a page that is not in VRAM. */
  ghost predicate Answers(m: Memory, E: Engine, E': Engine)
    requires Translating(E.pc)
  {
    E'.pc.Ready? && (Succeeds(m, E, E') || (E'.held == E.held && !(E.pc.t.vpn in m.pte && Resident(m.pte[E.pc.t.vpn]))))
  }

  /** `translate` goes on, closer to its end. */
  ghost predicate GoesOn(E: Engine, E': Engine)
    requires Translating(E.pc)
  {
    Translating(E'.pc) && E'.pc.t == E.pc.t && E'.held == E.held && Ahead(E'.pc) < Ahead(E.pc)
  }

  /** Nothing but bits of page-table entries has changed. */
  ghost predicate SamePages(m: Memory, m': Memory) {
    && m' == m.(pte := m'.pte) && m'.pte.Keys == m.pte.Keys
    && forall v :: v in m.pte ==> m'.pte[v] == m.pte[v].(dirty := m'.pte[v].dirty, accessed := m'.pte[v].accessed)
  }

  ghost predicate StepOk(m: Memory, E: Engine, m': Memory, E': Engine)
    requires Translating(E.pc)
  {
    && (GoesOn(E, E') || Answers(m, E, E'))
    && SamePages(m, m') && E'.tlb.Keys == E.tlb.Keys && E'.access == E.access
  }

  /** The translation an engine has read, whether from its TLB or from the table, is backed by the page's frame. */
  lemma ReadIsBacked(m: Memory, e: nat, E: Engine)
    requires EngineOk(m, e, E) && Translating(E.pc) && (Loaded(E.pc) || E.pc.EntrySeen?) && !E.pc.WalkOr?
    requires E.pc.EntrySeen? ==> E.tlb[E.pc.slot].tag == Some(E.pc.t.vpn) && (E.pc.t.write ==> E.pc.p.dirty)
    requires !E.pc.HitOr?
    ensures Backed(m, E.pc.t.vpn, E.pc.p.frame, E.pc.t.write)
  {
    if E.pc.EntrySeen? {
      assert EntryOk(m, e, E, E.pc.slot);
    }
  }

  ghost predicate InInsert(pc: EnginePc) {
    Loaded(pc) && !pc.HitOr? && !pc.HitDirty? && !pc.WalkOr?
  }

  lemma ProbeStep(m: Memory, e: nat, E: Engine, m': Memory, E': Engine, a: Action)
    requires EngineOk(m, e, E) && EngineStep(m, E, m', E', a) && Translating(E.pc)
    requires a.Probe? || a.Miss? || a.LoadEntry? || a.RecheckTag? || a.OrDirty? || a.StoreEntry?
    ensures StepOk(m, E, m', E')
  {
    if E'.pc.Ready? {
      ReadIsBacked(m, e, E);
    }
  }

  lemma WalkStep(m: Memory, e: nat, E: Engine, m': Memory, E': Engine, a: Action)
    requires EngineOk(m, e, E) && EngineStep(m, E, m', E', a) && Translating(E.pc) && (a.LoadPte? || a.OrPte?)
    ensures StepOk(m, E, m', E')
  {
  }

  lemma InsertStep(m: Memory, e: nat, E: Engine, m': Memory, E': Engine, a: Action)
    requires EngineOk(m, e, E) && EngineStep(m, E, m', E', a) && Translating(E.pc)
    requires InInsert(E.pc)
    ensures StepOk(m, E, m', E')
  {
    if E'.pc.Ready? {
      ReadIsBacked(m, e, E);
    }
  }

  /** Whatever its engine does next, a translation answers or comes closer to that. */
  lemma TranslateStep(m: Memory, e: nat, E: Engine, m': Memory, E': Engine, a: Action)
    requires EngineOk(m, e, E) && EngineStep(m, E, m', E', a) && Translating(E.pc)
    ensures StepOk(m, E, m', E')
  {
    if a.Probe? || a.Miss? || a.LoadEntry? || a.RecheckTag? || a.OrDirty? || a.StoreEntry? {
      ProbeStep(m, e, E, m', E', a);
    } else if a.LoadPte? || a.OrPte? {
      WalkStep(m, e, E, m', E', a);
    } else {
      InsertStep(m, e, E, m', E', a);
    }
  }

  /** In every run, whatever the driver and other engines do: `translate` returns Ok, or it reports a fault, and that
      only for a page that is not in VRAM then. */
  lemma TranslateAnswers(run: seq<State>, steps: seq<Step>, i: nat, e: nat)
    requires IsRun(run, steps) && i < |steps| && e < |run[i].engines| && e < |run[i + 1].engines|
    requires Translating(run[i].engines[e].pc) && !Translating(run[i + 1].engines[e].pc)
    ensures Answers(run[i].m, run[i].engines[e], run[i + 1].engines[e])
  {
    RunKeepsInv(run, steps, i);
    assert Runs.StepAt(run, steps, NextStep, i);
    var s, s' := run[i], run[i + 1];
    assert EngineOk(s.m, e, s.engines[e]);
    if steps[i] == EngineDoes(e, steps[i].a) {
      TranslateStep(s.m, e, s.engines[e], s'.m, s'.engines[e], steps[i].a);
    }
  }

  lemma NextInsert(m: Memory, e: nat, E: Engine) returns (a: Action, E': Engine)
    requires EngineOk(m, e, E) && InInsert(E.pc) && E.tlb != map[]
    ensures EngineStep(m, E, m, E', a)
  {
    var any :| any in E.tlb;
    match E.pc {
      case Inserting(t, p) => a, E' := SampleGen, E.(pc := GenSampled(t, p, m.gen));
      case GenSampled(t, p, g) =>
        a, E' := EmptySlot(any), E.(pc := Emptied(t, p, g, any), tlb := E.tlb[any := E.tlb[any].(tag := None)]);
      case Emptied(t, p, g, slot) =>
        a, E' := FillSlot, E.(pc := Filled(t, p, g, slot), tlb := E.tlb[slot := E.tlb[slot].(pte := p)]);
      case Filled(t, p, g, slot) =>
        a, E' := CheckPte, if Resident(m.pte[t.vpn]) then E.(pc := PteChecked(t, p, g, slot))
            else Finish(E, t, p.frame);
      case PteChecked(t, p, g, slot) =>
        a, E' := CheckGen, if m.gen == g then E.(pc := GenChecked(t, p, g, slot)) else Finish(E, t, p.frame);
      case GenChecked(t, p, g, slot) =>
        a, E' := SetTag, E.(pc := Tagged(t, p, g, slot), tlb := E.tlb[slot := E.tlb[slot].(tag := Some(t.vpn))]);
      case Tagged(t, p, g, slot) =>
        a, E' := FinalCheck, if m.gen == g then Finish(E, t, p.frame) else E.(pc := Clearing(t, p, g, slot));
      case Clearing(t, p, g, slot) =>
        a, E' := ClearTag, Finish(E, t, p.frame).(tlb := E.tlb[slot := E.tlb[slot].(tag := None)]);
    }
  }

  /** The engine can always make its next step. */
  lemma NextAction(m: Memory, e: nat, E: Engine) returns (a: Action, m': Memory, E': Engine)
    requires EngineOk(m, e, E) && Translating(E.pc) && E.tlb != map[]
    ensures EngineStep(m, E, m', E', a)
  {
    m', E' := m, E;
    match E.pc {
      case Lookup(t) =>
        if slot :| slot in E.tlb && E.tlb[slot].tag == Some(t.vpn) {
          a, E' := Probe(slot), E.(pc := TagSeen(t, slot));
        } else {
          a, E' := Miss, E.(pc := Walk(t));
        }
      case TagSeen(t, slot) => a, E' := LoadEntry, E.(pc := EntrySeen(t, slot, E.tlb[slot].pte));
      case EntrySeen(t, slot, p) =>
        a := RecheckTag;
        E' := if E.tlb[slot].tag != Some(t.vpn) || !Resident(p) then E.(pc := Walk(t))
              else if t.write && !p.dirty then E.(pc := HitOr(t, slot, p)) else Finish(E, t, p.frame);
      case HitOr(t, slot, p) =>
        a, m' := OrDirty, m.(pte := m.pte[t.vpn := m.pte[t.vpn].(dirty := true)]);
        E' := E.(pc := HitDirty(t, slot, p.(dirty := true)));
      case HitDirty(t, slot, p) =>
        a, E' := StoreEntry, Finish(E, t, p.frame).(tlb := E.tlb[slot := E.tlb[slot].(pte := p)]);
      case Walk(t) =>
        a := LoadPte;
        E' := if t.vpn !in m.pte || !Resident(m.pte[t.vpn]) then E.(pc := Ready)
              else if m.pte[t.vpn].accessed && (t.write ==> m.pte[t.vpn].dirty)
                  then E.(pc := Inserting(t, m.pte[t.vpn]))
              else E.(pc := WalkOr(t));
      case WalkOr(t) =>
        var q := m.pte[t.vpn];
        var p := q.(accessed := true, dirty := q.dirty || t.write);
        a, m' := OrPte, m.(pte := m.pte[t.vpn := p]);
        E' := E.(pc := if Resident(q) then Inserting(t, p) else Ready);
      case _ => a, E' := NextInsert(m, e, E);
    }
  }

  /** The invariant of Shootdown. Stated so that the verifier looks inside only where `Inv` is mentioned. */
  ghost predicate Sound(s: State) {
    forall x {:trigger Inv(x)} :: x == s ==> Inv(x)
  }

  /** Steps of one engine. */
  ghost function Own(e: nat): (r: (State, State, Step) -> bool) {
    (s, s', step) => NextStep(s, s', step) && step.EngineDoes? && step.e == e
  }

  /** Every TLB has room for something. */
  ghost predicate Roomy(s: State) {
    forall e :: 0 <= e < |s.engines| ==> s.engines[e].tlb != map[]
  }

  /** Only engine `e` has moved, and no page has. */
  ghost predicate OnlyEngine(s: State, s': State, e: nat) {
    && e < |s.engines| == |s'.engines| && s'.engines == s.engines[e := s'.engines[e]]
    && s'.engines[e].tlb.Keys == s.engines[e].tlb.Keys && s'.engines[e].access == s.engines[e].access
    && SamePages(s.m, s'.m)
  }

  /** No shootdown has come between since the translation began: what it has found or filled is still tagged. */
  ghost predicate Undisturbed(m: Memory, E: Engine) {
    && Translating(E.pc) && E.pc.t.vpn in m.pte && Resident(m.pte[E.pc.t.vpn])
    && match E.pc
       case TagSeen(t, slot) => Tags(E, slot, t.vpn)
       case EntrySeen(t, slot, _) => Tags(E, slot, t.vpn)
       case HitOr(t, slot, _) => Tags(E, slot, t.vpn)
       case HitDirty(t, slot, _) => Tags(E, slot, t.vpn)
       case GenSampled(_, _, g) => g == m.gen
       case Emptied(_, _, g, _) => g == m.gen
       case Filled(_, _, g, _) => g == m.gen
       case PteChecked(_, _, g, _) => g == m.gen
       case GenChecked(_, _, g, _) => g == m.gen
       case Tagged(t, _, g, slot) => g == m.gen && Tags(E, slot, t.vpn)
       case Clearing(_, _, _, _) => false
       case _ => true
  }

  ghost predicate Tags(E: Engine, slot: nat, vpn: nat) {
    slot in E.tlb && E.tlb[slot].tag == Some(vpn)
  }

  /** The TLB has an entry for the page. */
  ghost predicate Cached(E: Engine, vpn: nat) {
    exists slot: nat :: Tags(E, slot, vpn)
  }

  lemma UndisturbedInsert(m: Memory, E: Engine, m': Memory, E': Engine, a: Action)
    requires EngineStep(m, E, m', E', a) && Undisturbed(m, E) && InInsert(E.pc)
    ensures if E'.pc.Ready? then Cached(E', E.pc.t.vpn) else Undisturbed(m', E')
  {
    if E'.pc.Ready? {
      assert Tags(E', E.pc.slot, E.pc.t.vpn);
    }
  }

  lemma UndisturbedStep(m: Memory, e: nat, E: Engine, m': Memory, E': Engine, a: Action)
    requires EngineStep(m, E, m', E', a) && Undisturbed(m, E) && EngineOk(m, e, E)
    ensures if E'.pc.Ready? then Cached(E', E.pc.t.vpn) else Undisturbed(m', E')
  {
    if InInsert(E.pc) {
      UndisturbedInsert(m, E, m', E', a);
    } else if E'.pc.Ready? {
      assert Tags(E', E.pc.slot, E.pc.t.vpn);
    }
  }

  /** The engine's next step. */
  lemma TakesStep(s: State, e: nat) returns (step: Step, s': State)
    requires Sound(s) && e < |s.engines| && Translating(s.engines[e].pc) && s.engines[e].tlb != map[]
    ensures Own(e)(s, s', step) && Sound(s') && OnlyEngine(s, s', e)
    ensures GoesOn(s.engines[e], s'.engines[e]) || (s'.engines[e].pc.Ready? && Gets(s, s', e))
    ensures Undisturbed(s.m, s.engines[e]) ==>
            if s'.engines[e].pc.Ready? then Cached(s'.engines[e], s.engines[e].pc.t.vpn)
                else Undisturbed(s'.m, s'.engines[e])
  {
    var E := s.engines[e];
    assert EngineOk(s.m, e, E) by {
      assert Inv(s);
    }
    var a, m', E' := NextAction(s.m, e, E);
    TranslateStep(s.m, e, E, m', E', a);
    if Undisturbed(s.m, E) {
      UndisturbedStep(s.m, e, E, m', E', a);
    }
    step, s' := EngineDoes(e, a), State(m', s.engines[e := E']);
    assert Sound(s') by {
      assert Inv(s);
      StepKeepsInv(s, s', step);
    }
  }

  /** If the page is in VRAM the engine has a translation to its frame. */
  ghost predicate Gets(s: State, s': State, e: nat)
    requires e < |s.engines| == |s'.engines| && Translating(s.engines[e].pc)
  {
    var t := s.engines[e].pc.t;
    t.vpn in s.m.pte && Resident(s.m.pte[t.vpn]) ==>
      s'.engines[e].held == s.engines[e].held + {Hold(t.vpn, s.m.pte[t.vpn].frame, t.write)}
  }

  /** A translation comes to its end by steps of its engine, wherever the driver is. If the page is in VRAM it ends
      with a translation to the page's frame. */
  lemma {:induction false} TranslateEnds(s: State, e: nat) returns (u: State)
    requires Sound(s) && e < |s.engines| && Translating(s.engines[e].pc) && s.engines[e].tlb != map[]
    ensures Runs.Reaches(s, u, Own(e)) && Sound(u) && OnlyEngine(s, u, e) && u.engines[e].pc.Ready? && Gets(s, u, e)
    ensures Undisturbed(s.m, s.engines[e]) ==> Cached(u.engines[e], s.engines[e].pc.t.vpn)
    decreases Ahead(s.engines[e].pc)
  {
    var step, s' := TakesStep(s, e);
    if s'.engines[e].pc.Ready? {
      u := s';
      Runs.ReachesItself(u, Own(e));
    } else {
      u := TranslateEnds(s', e);
    }
    Runs.StepReaches(s, step, s', u, Own(e));
  }

  /** An engine in a command gets a translation of a page in VRAM by asking for it, and has it in its TLB then. */
  lemma TranslateFor(s: State, e: nat, vpn: nat, write: bool) returns (u: State)
    requires Sound(s) && e < |s.engines| && s.engines[e].pc.Ready? && s.engines[e].tlb != map[]
    requires vpn in s.m.pte && Resident(s.m.pte[vpn])
    ensures Runs.Reaches(s, u, Own(e)) && Sound(u) && OnlyEngine(s, u, e) && u.engines[e].pc.Ready?
    ensures u.engines[e].held == s.engines[e].held + {Hold(vpn, s.m.pte[vpn].frame, write)} && Cached(u.engines[e], vpn)
  {
    var E := s.engines[e];
    var t := Request(vpn, write, if ShotDown(s.m, vpn) then Some(s.m.evictions) else None);
    var s' := s.(engines := s.engines[e := E.(pc := Lookup(t))]);
    assert NextStep(s, s', EngineDoes(e, Translate(vpn, write)));
    assert Sound(s') by {
      assert Inv(s);
      StepKeepsInv(s, s', EngineDoes(e, Translate(vpn, write)));
    }
    u := TranslateEnds(s', e);
    Runs.StepReaches(s, EngineDoes(e, Translate(vpn, write)), s', u, Own(e));
  }

  // ---------------------------------------------------------------------------------------------
  // Evictions and migrations
  // ---------------------------------------------------------------------------------------------

  /** TLBs have the slots they had. */
  ghost predicate SameSlots(s: State, u: State) {
    |u.engines| == |s.engines| && forall e :: 0 <= e < |s.engines| ==> u.engines[e].tlb.Keys == s.engines[e].tlb.Keys
  }

  /** An engine comes to the end of its command: its access sequence is even again. */
  lemma CommandEnds(s: State, e: nat) returns (u: State)
    requires Sound(s) && Roomy(s) && e < |s.engines| && !s.engines[e].pc.Idle?
    ensures Runs.Reaches(s, u, NextStep) && Sound(u) && Roomy(u) && SamePages(s.m, u.m) && SameSlots(s, u)
    ensures u.engines[e].access == s.engines[e].access + 1
  {
    var v := s;
    Runs.ReachesItself(s, NextStep);
    if Translating(s.engines[e].pc) {
      v := TranslateEnds(s, e);
      OwnIsNext(s, v, e);
    }
    var E := v.engines[e];
    u := v.(engines := v.engines[e := E.(access := E.access + 1, pc := Idle, held := {})]);
    assert NextStep(v, u, EngineDoes(e, End));
    assert Sound(u) by {
      assert Inv(v);
      StepKeepsInv(v, u, EngineDoes(e, End));
    }
    Runs.ReachesItself(u, NextStep);
    Runs.StepReaches(v, EngineDoes(e, End), u, u, NextStep);
    Runs.ReachesOn(s, v, u, NextStep);
  }

  lemma OwnIsNext(s: State, t: State, e: nat)
    requires Runs.Reaches(s, t, Own(e))
    ensures Runs.Reaches(s, t, NextStep)
  {
    var run, acts :| Runs.IsPath(run, acts, Own(e)) && run[0] == s && run[|run| - 1] == t;
    forall k: nat | k < |acts|
      ensures Runs.StepAt(run, acts, NextStep, k)
    {
      assert Runs.StepAt(run, acts, Own(e), k);
    }
    assert Runs.IsPath(run, acts, NextStep);
  }

  /** One step of the driver, taken. */
  lemma DriverMoves(s: State, s': State, d: DriverAction)
    requires Sound(s) && DriverStep(s, s', d)
    ensures Runs.Reaches(s, s', NextStep) && Sound(s')
  {
    assert Inv(s);
    StepKeepsInv(s, s', DriverDoes(d));
    Runs.ReachesItself(s', NextStep);
    Runs.StepReaches(s, DriverDoes(d), s', s', NextStep);
  }

  /** Slots of TLBs that the sweep has not looked at yet. */
  ghost function Unswept(s: State): (r: set<(nat, nat)>)
    requires s.m.driver.Sweep?
  {
    set e: nat, slot | e < |s.engines| && slot in s.engines[e].tlb && (e, slot) !in s.m.driver.swept :: (e, slot)
  }

  ghost function AfterSweep(d: DriverPc): (r: DriverPc)
    requires d.Sweep?
  {
    match d.task
    case Evict(was) => Quiesce(d.vpn, was, {}, None)
    case Map(undo) => if undo then DIdle else Mapped(d.vpn)
  }

  ghost predicate HitOk(s: State)
    requires s.m.driver.Sweep?
  {
    s.m.driver.hit.Some? ==> s.m.driver.hit.value in Unswept(s)
  }

  /** The tag that was found to be the page's is cleared. */
  lemma ClearStep(s: State) returns (s': State)
    requires s.m.driver.Sweep? && HitOk(s) && s.m.driver.hit.Some?
    ensures DriverStep(s, s', StoreTag) && SameSlots(s, s') && s'.m.driver.Sweep?
    ensures Unswept(s') == Unswept(s) - {s.m.driver.hit.value}
    ensures s'.m == s.m.(driver := s.m.driver.(swept := s'.m.driver.swept, hit := None))
  {
    var d := s.m.driver;
    var (e, slot) := d.hit.value;
    var E := s.engines[e];
    s' := State(s.m.(driver := d.(swept := d.swept + {(e, slot)}, hit := None)),
                s.engines[e := E.(tlb := E.tlb[slot := E.tlb[slot].(tag := None)])]);
  }

  /** The next tag is looked at. */
  lemma LookStep(s: State, e: nat, slot: nat) returns (s': State)
    requires s.m.driver.Sweep? && s.m.driver.hit == None && (e, slot) in Unswept(s)
    ensures DriverStep(s, s', LoadTag(e, slot)) && s'.engines == s.engines && s'.m.driver.Sweep? && HitOk(s')
    ensures s'.m == s.m.(driver := s.m.driver.(swept := s'.m.driver.swept, hit := s'.m.driver.hit))
    ensures Unswept(s') == if s'.m.driver.hit.Some? then Unswept(s) else Unswept(s) - {(e, slot)}
  {
    var d := s.m.driver;
    var hits := s.engines[e].tlb[slot].tag == Some(d.vpn);
    s' := s.(m := s.m.(driver := if hits then d.(hit := Some((e, slot))) else d.(swept := d.swept + {(e, slot)})));
  }

  /** One step of the sweep. */
  lemma SweepStep(s: State) returns (s': State)
    requires Sound(s) && s.m.driver.Sweep? && HitOk(s) && (s.m.driver.hit.Some? || Unswept(s) != {})
    ensures Runs.Reaches(s, s', NextStep) && Sound(s') && SameSlots(s, s') && s'.m.driver.Sweep? && HitOk(s')
    ensures s'.m == s.m.(driver := s.m.driver.(swept := s'.m.driver.swept, hit := s'.m.driver.hit))
    ensures |Unswept(s')| < |Unswept(s)| || (Unswept(s') == Unswept(s) && s.m.driver.hit.None? && s'.m.driver.hit.Some?)
  {
    if s.m.driver.hit.Some? {
      s' := ClearStep(s);
      DriverMoves(s, s', StoreTag);
    } else {
      var e: nat, slot: nat :| (e, slot) in Unswept(s);
      s' := LookStep(s, e, slot);
      DriverMoves(s, s', LoadTag(e, slot));
    }
  }

  /** The sweep looks at every slot of every TLB, and ends. */
  lemma {:induction false} SweepEnds(s: State) returns (u: State)
    requires Sound(s) && s.m.driver.Sweep? && HitOk(s)
    ensures Runs.Reaches(s, u, NextStep) && Sound(u) && SameSlots(s, u) && u.m == s.m.(driver := AfterSweep(s.m.driver))
    decreases |Unswept(s)|, s.m.driver.hit.None?
  {
    if s.m.driver.hit.Some? || Unswept(s) != {} {
      var s' := SweepStep(s);
      u := SweepEnds(s');
      Runs.ReachesOn(s, s', u, NextStep);
    } else {
      u := s.(m := s.m.(driver := AfterSweep(s.m.driver)));
      assert forall e: nat, slot :: e < |s.engines| && slot in s.engines[e].tlb ==> (e, slot) !in Unswept(s);
      DriverMoves(s, u, SweepDone);
    }
  }

  /** Engines that quiesce has not passed yet. */
  ghost function Unpassed(s: State): (r: set<nat>)
    requires s.m.driver.Quiesce?
  {
    set e: nat | e < |s.engines| && e !in s.m.driver.passed
  }

  ghost predicate SeenOk(s: State)
    requires s.m.driver.Quiesce?
  {
    s.m.driver.seen.Some? ==> s.m.driver.seen.value.0 in Unpassed(s)
  }

  /** quiesce reads the access sequence of an engine it has not passed. */
  lemma ReadStep(s: State, e: nat) returns (s': State)
    requires Sound(s) && s.m.driver.Quiesce? && s.m.driver.seen == None && e in Unpassed(s)
    ensures Runs.Reaches(s, s', NextStep) && Sound(s') && s'.engines == s.engines && s'.m.driver.Quiesce? && SeenOk(s')
    ensures s'.m == s.m.(driver := s.m.driver.(passed := s'.m.driver.passed, seen := s'.m.driver.seen))
    ensures Unpassed(s') == if s'.m.driver.seen.Some? then Unpassed(s) else Unpassed(s) - {e}
  {
    var d, v := s.m.driver, s.engines[e].access;
    s' := s.(m := s.m.(driver := if v % 2 == 0 then d.(passed := d.passed + {e}) else d.(seen := Some((e, v)))));
    DriverMoves(s, s', LoadAccess(e));
  }

  /** The engine that quiesce waits for comes to the end of its command, if it has not, and is passed. */
  lemma PassStep(s: State) returns (s': State)
    requires Sound(s) && Roomy(s) && s.m.driver.Quiesce? && SeenOk(s) && s.m.driver.seen.Some?
    ensures Runs.Reaches(s, s', NextStep) && Sound(s') && SameSlots(s, s') && s'.m.driver.Quiesce?
    ensures var d := s.m.driver;
            SamePages(s.m.(driver := d.(passed := d.passed + {d.seen.value.0}, seen := None)), s'.m)
    ensures Unpassed(s') == Unpassed(s) - {s.m.driver.seen.value.0}
  {
    var d := s.m.driver;
    var (e, v) := d.seen.value;
    var w := s;
    Runs.ReachesItself(s, NextStep);
    if s.engines[e].access == v {
      assert Inv(s) && EngineOk(s.m, e, s.engines[e]);
      w := CommandEnds(s, e);
    }
    s' := w.(m := w.m.(driver := d.(passed := d.passed + {e}, seen := None)));
    DriverMoves(w, s', SpinAccess);
    Runs.ReachesOn(s, w, s', NextStep);
  }

  lemma SameSlotsRoomy(s: State, u: State)
    requires SameSlots(s, u) && Roomy(s)
    ensures Roomy(u)
  {
    forall e | 0 <= e < |u.engines|
      ensures u.engines[e].tlb != map[]
    {
      assert u.engines[e].tlb.Keys == s.engines[e].tlb.Keys;
      var any :| any in s.engines[e].tlb;
    }
  }

  /** quiesce waits for every engine once, and ends. */
  lemma {:induction false} QuiesceEnds(s: State) returns (u: State)
    requires Sound(s) && Roomy(s) && s.m.driver.Quiesce? && SeenOk(s)
    ensures Runs.Reaches(s, u, NextStep) && Sound(u) && SameSlots(s, u)
    ensures SamePages(s.m.(driver := Quiesced(s.m.driver.vpn, s.m.driver.was)), u.m)
    decreases |Unpassed(s)|, s.m.driver.seen.None?
  {
    var s': State;
    if s.m.driver.seen.Some? {
      s' := PassStep(s);
      SameSlotsRoomy(s, s');
      u := QuiesceEnds(s');
      Runs.ReachesOn(s, s', u, NextStep);
    } else if Unpassed(s) != {} {
      var e :| e in Unpassed(s);
      s' := ReadStep(s, e);
      u := QuiesceEnds(s');
      Runs.ReachesOn(s, s', u, NextStep);
    } else {
      u := s.(m := s.m.(driver := Quiesced(s.m.driver.vpn, s.m.driver.was)));
      forall e: nat | e < |s.engines|
        ensures e in s.m.driver.passed
      {
        assert e !in Unpassed(s);
      }
      DriverMoves(s, u, QuiesceDone);
    }
  }

  /** begin_evict up to the end of its shootdown. */
  lemma ShootsDown(s: State, vpn: nat) returns (u: State)
    requires Sound(s) && s.m.driver.DIdle? && vpn in s.m.managed && vpn in s.m.pte && Resident(s.m.pte[vpn])
    ensures Runs.Reaches(s, u, NextStep) && Sound(u) && SameSlots(s, u)
    ensures u.m.driver == Quiesce(vpn, s.m.pte[vpn], {}, None) && u.m.pte == s.m.pte[vpn := HOST_PTE]
            && u.m.free == s.m.free
  {
    var task := Evict(s.m.pte[vpn]);
    var s1 := s.(m :=
        s.m.(driver := Changed(vpn, task), pte := s.m.pte[vpn := HOST_PTE], evictions := s.m.evictions + 1));
    DriverMoves(s, s1, BeginEvict(vpn));
    var s2 := s1.(m := s1.m.(driver := Sweep(vpn, task, {}, None), gen := s1.m.gen + 1));
    DriverMoves(s1, s2, BumpGen);
    u := SweepEnds(s2);
    Runs.ReachesOn(s1, s2, u, NextStep);
    Runs.ReachesOn(s, s1, u, NextStep);
  }

  /** An eviction can be carried through from every state between two driver calls, whatever engines are at: its page
      is on the host and in no frame, and its frame is free. */
  lemma EvictionEnds(s: State, vpn: nat) returns (u: State)
    requires Sound(s) && Roomy(s) && s.m.driver.DIdle? && vpn in s.m.managed && vpn in s.m.pte && Resident(s.m.pte[vpn])
    ensures Runs.Reaches(s, u, NextStep) && Sound(u) && u.m.driver.DIdle?
    ensures vpn in u.m.pte && !u.m.pte[vpn].inVram && vpn in u.m.host && u.m.host[vpn].Some?
    ensures u.m.free == s.m.free + {s.m.pte[vpn].frame}
  {
    var s1 := ShootsDown(s, vpn);
    SameSlotsRoomy(s, s1);
    var s2 := QuiesceEnds(s1);
    Runs.ReachesOn(s, s1, s2, NextStep);
    u := WritesBack(s2);
    Runs.ReachesOn(s, s2, u, NextStep);
  }

  /** end_evict and a write-back that succeeds. */
  lemma WritesBack(s: State) returns (u: State)
    requires Sound(s) && s.m.driver.Quiesced?
    ensures Runs.Reaches(s, u, NextStep) && Sound(u) && u.m.driver.DIdle?
            && u.m.free == s.m.free + {s.m.driver.was.frame}
    ensures var v := s.m.driver.vpn; v in u.m.pte && !u.m.pte[v].inVram && v in u.m.host && u.m.host[v].Some?
  {
    var m, d := s.m, s.m.driver;
    assert d.vpn in m.pte && d.vpn in m.managed && d.was.frame in m.vram && d.vpn in m.host && !m.pte[d.vpn].inVram by {
      assert Inv(s) && PageOk(m, d.vpn);
    }
    var late := m.pte[d.vpn].dirty;
    var m1 := m.(driver := Collected(d.vpn, d.was, late),
        pte := m.pte[d.vpn := m.pte[d.vpn].(dirty := false, accessed := false)]);
    var s1 := s.(m := m1);
    DriverMoves(s, s1, EndEvict);
    var m2 := m1.(driver := DIdle, free := m1.free + {d.was.frame}, written := m1.written - {d.vpn},
                  host := if m1.uffd || d.was.dirty || late then m1.host[d.vpn := Some(m1.vram[d.was.frame])]
                      else m1.host);
    u := s.(m := m2);
    DriverMoves(s1, u, Publish);
    assert u.m.host[d.vpn].Some? by {
      assert Inv(u) && PageOk(u.m, d.vpn);
    }
    Runs.ReachesOn(s, s1, u, NextStep);
  }

  /** A page on the host can be brought into any free frame. */
  lemma MigrationEnds(s: State, vpn: nat, frame: nat) returns (u: State)
    requires Sound(s) && s.m.driver.DIdle? && vpn in s.m.managed && vpn in s.m.pte && !s.m.pte[vpn].inVram
             && frame in s.m.free
    ensures Runs.Reaches(s, u, NextStep) && Sound(u) && u.m.driver.DIdle?
    ensures vpn in u.m.pte && u.m.pte[vpn].frame == frame && Resident(u.m.pte[vpn]) && u.m.free == s.m.free - {frame}
  {
    var m := s.m;
    assert m.pte[vpn].present && vpn in m.host && m.host[vpn].Some? by {
      assert Inv(s) && PageOk(m, vpn);
    }
    var m1 := m.(driver := Taken(vpn, frame), free := m.free - {frame});
    DriverMoves(s, s.(m := m1), TakeFrame(vpn, frame));
    var m2 := m1.(driver := Copied(vpn, frame, false), vram := m1.vram[frame := m1.host[vpn].value]);
    DriverMoves(s.(m := m1), s.(m := m2), CopyIn);
    var m3 := m2.(driver := Changed(vpn, Map(false)), pte := m2.pte[vpn := Pte(true, true, false, true, frame)]);
    DriverMoves(s.(m := m2), s.(m := m3), StorePte);
    var m4 := m3.(driver := Sweep(vpn, Map(false), {}, None), gen := m3.gen + 1);
    DriverMoves(s.(m := m3), s.(m := m4), BumpGen);
    var s5 := SweepEnds(s.(m := m4));
    u := s5.(m := s5.m.(driver := DIdle, host := if m.uffd then s5.m.host[vpn := None] else s5.m.host));
    DriverMoves(s5, u, DropHost);
    Runs.ReachesOn(s.(m := m4), s5, u, NextStep);
    Runs.ReachesOn(s.(m := m3), s.(m := m4), u, NextStep);
    Runs.ReachesOn(s.(m := m2), s.(m := m3), u, NextStep);
    Runs.ReachesOn(s.(m := m1), s.(m := m2), u, NextStep);
    Runs.ReachesOn(s, s.(m := m1), u, NextStep);
  }

  /** An eviction whose write-back fails ends too: the page is back in its frame. */
  lemma RollbackEnds(s: State) returns (u: State)
    requires Sound(s) && s.m.driver.Collected? && s.m.uffd
    ensures Runs.Reaches(s, u, NextStep) && Sound(u) && u.m.driver.DIdle? && u.m.free == s.m.free
    ensures var v := s.m.driver.vpn; v in u.m.pte && Resident(u.m.pte[v]) && u.m.pte[v].frame == s.m.driver.was.frame
  {
    var m, v, frame := s.m, s.m.driver.vpn, s.m.driver.was.frame;
    var m1 := m.(driver := Copied(v, frame, true), written := m.written - {v});
    DriverMoves(s, s.(m := m1), PublishFails);
    var m2 := m1.(driver := Changed(v, Map(true)), pte := m1.pte[v := Pte(true, true, false, true, frame)]);
    DriverMoves(s.(m := m1), s.(m := m2), StorePte);
    var m3 := m2.(driver := Sweep(v, Map(true), {}, None), gen := m2.gen + 1);
    DriverMoves(s.(m := m2), s.(m := m3), BumpGen);
    u := SweepEnds(s.(m := m3));
    Runs.ReachesOn(s.(m := m2), s.(m := m3), u, NextStep);
    Runs.ReachesOn(s.(m := m1), s.(m := m2), u, NextStep);
    Runs.ReachesOn(s, s.(m := m1), u, NextStep);
  }

  // ---------------------------------------------------------------------------------------------
  // Stores
  // ---------------------------------------------------------------------------------------------

  /** An engine that holds a translation for writing can store any byte to the page. */
  lemma StoreLands(s: State, e: nat, h: Hold, offset: nat, byte: Byte) returns (u: State)
    requires Sound(s) && e < |s.engines| && s.engines[e].pc.Ready? && h in s.engines[e].held && h.write
    requires h.vpn in s.m.flat && offset < |s.m.flat[h.vpn]|
    ensures NextStep(s, u, EngineDoes(e, Store(h, offset, byte))) && Sound(u)
    ensures h.vpn in u.m.pte && h.vpn in u.m.host && Logical(u.m, h.vpn) == Some(s.m.flat[h.vpn][offset := byte])
  {
    assert h.frame in s.m.vram && s.m.vram[h.frame] == s.m.flat[h.vpn]
           && !(s.m.driver.Taken? && s.m.driver.vpn == h.vpn) by {
      assert Inv(s) && EngineOk(s.m, e, s.engines[e]) && HoldOk(s.m, e, s.engines[e], h) && PageOk(s.m, h.vpn);
    }
    u := s.(m := s.m.(vram := s.m.vram[h.frame := s.m.vram[h.frame][offset := byte]],
                      flat := s.m.flat[h.vpn := s.m.flat[h.vpn][offset := byte]],
                      written := s.m.written + {h.vpn}));
    assert s.engines[e := s.engines[e]] == s.engines;
    assert NextStep(s, u, EngineDoes(e, Store(h, offset, byte)));
    assert Sound(u) && h.vpn in u.m.pte && h.vpn in u.m.host && Seat(u.m, h.vpn) == Some(h.frame) by {
      assert Inv(s) && EngineOk(s.m, e, s.engines[e]) && HoldOk(s.m, e, s.engines[e], h);
      StepKeepsInv(s, u, EngineDoes(e, Store(h, offset, byte)));
    }
  }

  /** A host thread can store any byte to a page that is on the host and not on the move. */
  lemma HostStoreLands(s: State, vpn: nat, offset: nat, byte: Byte) returns (u: State)
    requires Sound(s) && vpn in s.m.managed && vpn in s.m.pte && Seat(s.m, vpn).None?
    requires vpn in s.m.flat && offset < |s.m.flat[vpn]|
    ensures NextStep(s, u, HostStores(vpn, offset, byte))
    ensures vpn in u.m.pte && vpn in u.m.host && Logical(u.m, vpn) == Some(s.m.flat[vpn][offset := byte])
  {
    assert vpn in s.m.host && s.m.host[vpn] == Some(s.m.flat[vpn]) by {
      assert Inv(s) && PageOk(s.m, vpn);
    }
    u := s.(m := s.m.(host := s.m.host[vpn := Some(s.m.host[vpn].value[offset := byte])],
                      flat := s.m.flat[vpn := s.m.flat[vpn][offset := byte]]));
  }
}
