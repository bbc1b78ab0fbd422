/**
  Copies through the staging pool (`do_submit`, `acquire_slot`, `release_slot`): first the protocol that
  keeps concurrent copies out of each other's slots, then the two copy loops against a device that
  executes their DMA commands when it likes.
*/
module Staging {
  import opened Base
  import Runs
  import opened Modular

  type Bytes = seq<Byte>

  // ---------------------------------------------------------------------------------------------
  // Slots
  // ---------------------------------------------------------------------------------------------

  /** `value` commands of `ring`. */
  datatype Fence = Fence(ring: nat, value: nat)

  datatype Slot = Slot(busy: bool, fence: Fence)

  /** Published commands, each with the slot it reads or writes, if any. */
  datatype Ring = Ring(cmds: seq<Option<nat>>, get: nat)

  /** One chunk of one copy, from acquire_slot to release_slot. */
  datatype Phase = Waiting(prev: Fence) | Clear | Queued(index: nat)

  datatype User = User(ring: nat, slot: nat, phase: Phase)

  datatype State = State(slots: seq<Slot>, rings: seq<Ring>, users: map<nat, User>)

  datatype Action =
    | Acquire(u: nat, ring: nat, slot: nat)
    | PassFence(u: nat)
    | Enqueue(u: nat)
    | Publish(ring: nat)
    | Retire(ring: nat)
    | Release(u: nat)

  ghost predicate Passed(s: State, f: Fence) {
    f.ring < |s.rings| && f.value <= s.rings[f.ring].get
  }

  function Append(s: State, ring: nat, cmd: Option<nat>): (r: State)
    requires ring < |s.rings|
  {
    s.(rings := s.rings[ring := s.rings[ring].(cmds := s.rings[ring].cmds + [cmd])])
  }

  ghost predicate Does(s: State, s': State, a: Action) {
    match a
    case Acquire(u, ring, slot) =>
      && u !in s.users && ring < |s.rings| && slot < |s.slots| && !s.slots[slot].busy
      && s' == s.(slots := s.slots[slot := s.slots[slot].(busy := true)],
          users := s.users[u := User(ring, slot, Waiting(s.slots[slot].fence))])
    case PassFence(u) =>
      && u in s.users && s.users[u].phase.Waiting? && Passed(s, s.users[u].phase.prev)
      && s' == s.(users := s.users[u := s.users[u].(phase := Clear)])
    case Enqueue(u) =>
      && u in s.users && s.users[u].phase == Clear && s.users[u].ring < |s.rings|
      && var x := s.users[u];
         s' == Append(s, x.ring, Some(x.slot)).(users := s.users[u := x.(phase := Queued(|s.rings[x.ring].cmds|))])
    case Publish(ring) => ring < |s.rings| && s' == Append(s, ring, None)
    case Retire(ring) =>
      ring < |s.rings| && s.rings[ring].get < |s.rings[ring].cmds|
          && s' == s.(rings := s.rings[ring := s.rings[ring].(get := s.rings[ring].get + 1)])
    case Release(u) =>
      && u in s.users && s.users[u].phase.Queued? && s.users[u].slot < |s.slots|
      && var x := s.users[u];
         s' == s.(slots := s.slots[x.slot := Slot(false, Fence(x.ring, x.phase.index + 1))], users := s.users - {u})
  }

  /** Command `i` of `ring` has not retired and uses `slot`. */
  ghost predicate Uses(s: State, ring: nat, i: nat, slot: nat) {
    ring < |s.rings| && s.rings[ring].get <= i < |s.rings[ring].cmds| && s.rings[ring].cmds[i] == Some(slot)
  }

  ghost predicate Covers(f: Fence, ring: nat, i: nat) {
    f.ring == ring && i < f.value
  }

  /** Somebody is responsible for the command: the user that queued it, the fence left with the slot, or the
      fence the slot's next user is waiting for. */
  ghost predicate Answered(s: State, ring: nat, i: nat, slot: nat) {
    || (slot < |s.slots| && !s.slots[slot].busy && Covers(s.slots[slot].fence, ring, i))
    || exists u :: u in s.users && AnswersFor(s.users[u], ring, i, slot)
  }

  ghost predicate AnswersFor(x: User, ring: nat, i: nat, slot: nat) {
    && x.slot == slot
    && match x.phase
       case Waiting(prev) => Covers(prev, ring, i)
       case Clear => false
       case Queued(index) => x.ring == ring && index == i
  }

  ghost predicate Apart(s: State, u: nat, v: nat) {
    u in s.users && v in s.users && u != v ==> s.users[u].slot != s.users[v].slot
  }

  ghost predicate Inv(s: State) {
    && (forall u :: u in s.users ==> s.users[u].slot < |s.slots| && s.slots[s.users[u].slot].busy)
    && (forall u, v :: Apart(s, u, v))
    && (forall ring, i, slot :: Uses(s, ring, i, slot) ==> Answered(s, ring, i, slot))
  }

  ghost predicate Init(s: State) {
    && s.users == map[] && (forall i :: 0 <= i < |s.slots| ==> s.slots[i] == Slot(false, Fence(0, 0)))
    && forall r :: 0 <= r < |s.rings| ==> s.rings[r] == Ring([], 0)
  }

  lemma AnsweredStays(s: State, s': State, u: nat, ring: nat, i: nat, slot: nat)
    requires Answered(s, ring, i, slot)
    requires forall v :: v in s.users && v != u ==> v in s'.users && s'.users[v] == s.users[v]
    requires slot < |s.slots| && !s.slots[slot].busy && Covers(s.slots[slot].fence, ring, i) ==>
               Answered(s', ring, i, slot)
    requires u in s.users && AnswersFor(s.users[u], ring, i, slot) ==> Answered(s', ring, i, slot)
    ensures Answered(s', ring, i, slot)
  {
    if !(slot < |s.slots| && !s.slots[slot].busy && Covers(s.slots[slot].fence, ring, i)) {
      var v :| v in s.users && AnswersFor(s.users[v], ring, i, slot);
      if v != u {
        assert v in s'.users && AnswersFor(s'.users[v], ring, i, slot);
      }
    }
  }

  lemma RingStepAnswers(s: State, s': State, a: Action, ring: nat, i: nat, slot: nat)
    requires Inv(s) && Does(s, s', a) && (a.Retire? || a.Publish?) && Uses(s', ring, i, slot)
    ensures Answered(s', ring, i, slot)
  {
    assert Uses(s, ring, i, slot);
    if !(slot < |s.slots| && !s.slots[slot].busy && Covers(s.slots[slot].fence, ring, i)) {
      var v :| v in s.users && AnswersFor(s.users[v], ring, i, slot);
      assert v in s'.users && AnswersFor(s'.users[v], ring, i, slot);
    }
  }

  lemma UserStepAnswers(s: State, s': State, a: Action, ring: nat, i: nat, slot: nat)
    requires Inv(s) && Does(s, s', a) && !a.Retire? && !a.Publish? && Uses(s', ring, i, slot)
    ensures Answered(s', ring, i, slot)
  {
    if Uses(s, ring, i, slot) {
      if a.Acquire? && slot == a.slot {
        assert Covers(s.slots[slot].fence, ring, i) ==> AnswersFor(s'.users[a.u], ring, i, slot);
      }
      if a.Release? && s.users[a.u].slot == slot && AnswersFor(s.users[a.u], ring, i, slot) {
        assert Covers(s'.slots[slot].fence, ring, i);
      }
      AnsweredStays(s, s', a.u, ring, i, slot);
    } else {
      assert AnswersFor(s'.users[a.u], ring, i, slot);
    }
  }

  lemma StepKeepsInv(s: State, s': State, a: Action)
    requires Inv(s) && Does(s, s', a)
    ensures Inv(s')
  {
    forall u, v
      ensures Apart(s', u, v)
    {
      assert Apart(s, u, v);
    }
    forall ring: nat, i: nat, slot: nat | Uses(s', ring, i, slot)
      ensures Answered(s', ring, i, slot)
    {
      if a.Retire? || a.Publish? {
        RingStepAnswers(s, s', a, ring, i, slot);
      } else {
        UserStepAnswers(s, s', a, ring, i, slot);
      }
    }
    if a.Release? {
      assert forall v :: v in s'.users ==> Apart(s, a.u, v);
    }
  }

  ghost predicate IsRun(run: seq<State>, acts: seq<Action>) {
    Runs.IsRun(run, acts, Init, Does)
  }

  lemma RunKeepsInv(run: seq<State>, acts: seq<Action>, k: nat)
    requires IsRun(run, acts) && k < |run|
    ensures Inv(run[k])
  {
    forall s, s', a | Inv(s) && Does(s, s', a)
      ensures Inv(s')
    {
      StepKeepsInv(s, s', a);
    }
    Runs.KeepInvariant(run, acts, Init, Does, Inv, k);
  }

  /** No slot is reused while a command still reads or writes it: when a copy has passed the fence it got
      with a slot, no command in flight on any ring uses that slot; and once it has queued its own command,
      that is the only one. */
  lemma SlotIsExclusive(run: seq<State>, acts: seq<Action>, k: nat, u: nat, ring: nat, i: nat)
    requires IsRun(run, acts) && k < |run| && u in run[k].users && !run[k].users[u].phase.Waiting?
    requires Uses(run[k], ring, i, run[k].users[u].slot)
    ensures run[k].users[u].phase == Queued(i) && run[k].users[u].ring == ring
  {
    var s := run[k];
    RunKeepsInv(run, acts, k);
    assert Answered(s, ring, i, s.users[u].slot);
    var v :| v in s.users && AnswersFor(s.users[v], ring, i, s.users[u].slot);
    assert Apart(s, u, v);
  }

  /** A fence names commands that are in a ring. */
  ghost predicate Exists(s: State, f: Fence) {
    f.ring < |s.rings| && f.value <= |s.rings[f.ring].cmds|
  }

  ghost predicate UserStands(s: State, x: User) {
    && x.ring < |s.rings| && x.slot < |s.slots|
    && match x.phase
       case Waiting(prev) => Exists(s, prev)
       case Clear => true
       case Queued(index) => index < |s.rings[x.ring].cmds| && s.rings[x.ring].cmds[index] == Some(x.slot)
  }

  /** What is waited for is there, and what is queued is in the ring. */
  ghost predicate Stands(s: State) {
    && (forall u :: u in s.users ==> UserStands(s, s.users[u]))
    && forall i :: 0 <= i < |s.slots| ==> s.slots[i].fence == Fence(0, 0) || Exists(s, s.slots[i].fence)
  }

  lemma StepStands(s: State, s': State, a: Action)
    requires Stands(s) && Does(s, s', a)
    ensures Stands(s')
  {
    assert forall f :: Exists(s, f) ==> Exists(s', f);
    forall u | u in s'.users
      ensures UserStands(s', s'.users[u])
    {
      if u in s.users && s'.users[u] == s.users[u] {
        assert UserStands(s, s.users[u]);
      } else if a.Acquire? {
        assert s.slots[a.slot].fence == Fence(0, 0) ==> Exists(s, Fence(0, 0));
      } else {
        assert UserStands(s, s.users[u]);
      }
    }
    if a.Release? {
      assert UserStands(s, s.users[a.u]);
    }
  }

  /** The device retires commands until a fence passes. */
  lemma {:induction false} FencePasses(s: State, f: Fence) returns (t: State)
    requires Stands(s) && Exists(s, f)
    ensures Runs.Reaches(s, t, Does) && Stands(t) && Passed(t, f)
    ensures t.users == s.users && t.slots == s.slots && |t.rings| == |s.rings|
    decreases f.value - s.rings[f.ring].get
  {
    if Passed(s, f) {
      t := s;
      Runs.ReachesItself(t, Does);
    } else {
      var s' := s.(rings := s.rings[f.ring := s.rings[f.ring].(get := s.rings[f.ring].get + 1)]);
      StepStands(s, s', Retire(f.ring));
      t := FencePasses(s', f);
      Runs.StepReaches(s, Retire(f.ring), s', t, Does);
    }
  }

  /** A chunk comes through: in every reachable state with a free slot, a copy gets it, queues its command on its
      ring, and gives the slot back with a fence behind that command. */
  lemma ChunkEnds(run: seq<State>, acts: seq<Action>, k: nat, u: nat, ring: nat, slot: nat) returns (t: State)
    requires IsRun(run, acts) && k < |run|
    requires u !in run[k].users && ring < |run[k].rings| && slot < |run[k].slots| && !run[k].slots[slot].busy
    ensures Runs.Reaches(run[k], t, Does) && u !in t.users && ring < |t.rings| && slot < |t.slots|
    ensures !t.slots[slot].busy && t.slots[slot].fence == Fence(ring, |t.rings[ring].cmds|)
    ensures t.rings[ring].cmds != [] && t.rings[ring].cmds[|t.rings[ring].cmds| - 1] == Some(slot)
  {
    var s := run[k];
    assert Stands(s) by {
      forall x, x', a | Stands(x) && Does(x, x', a)
        ensures Stands(x')
      {
        StepStands(x, x', a);
      }
      Runs.KeepInvariant(run, acts, Init, Does, Stands, k);
    }
    var prev := s.slots[slot].fence;
    var v := s.(slots := s.slots[slot := s.slots[slot].(busy := true)],
                users := s.users[u := User(ring, slot, Waiting(prev))]);
    StepStands(s, v, Acquire(u, ring, slot));
    assert Exists(v, prev) by {
      assert UserStands(v, v.users[u]);
    }
    var w := FencePasses(v, prev);
    t := Released(w, u);
    Runs.ReachesOn(v, w, t, Does);
    Runs.StepReaches(s, Acquire(u, ring, slot), v, t, Does);
  }

  lemma Released(s: State, u: nat) returns (t: State)
    requires u in s.users && s.users[u].ring < |s.rings| && s.users[u].slot < |s.slots|
    requires s.users[u].phase.Waiting? && Passed(s, s.users[u].phase.prev)
    ensures Runs.Reaches(s, t, Does) && t.users == s.users - {u}
    ensures var x := s.users[u];
            && t == Append(s, x.ring, Some(x.slot)).(slots := t.slots, users := t.users)
            && t.slots == s.slots[x.slot := Slot(false, Fence(x.ring, |s.rings[x.ring].cmds| + 1))]
  {
    var x := s.users[u];
    var n := |s.rings[x.ring].cmds|;
    var v := s.(users := s.users[u := x.(phase := Clear)]);
    var w := Append(v, x.ring, Some(x.slot)).(users := v.users[u := x.(phase := Queued(n))]);
    t := w.(slots := w.slots[x.slot := Slot(false, Fence(x.ring, n + 1))], users := w.users - {u});
    Runs.ReachesItself(t, Does);
    Runs.StepReaches(w, Release(u), t, t, Does);
    Runs.StepReaches(v, Enqueue(u), w, t, Does);
    Runs.StepReaches(s, PassFence(u), v, t, Does);
  }

  // ---------------------------------------------------------------------------------------------
  // DMA in order
  // ---------------------------------------------------------------------------------------------

  /** Device memory and the staging slots. */
  datatype Mem = Mem(dev: Bytes, slots: seq<Bytes>)

  /** COPY_H2D and COPY_D2H between a slot and [at, at + n) of device memory. */
  datatype Dma = ToDevice(slot: nat, at: nat, n: nat) | ToHost(slot: nat, at: nat, n: nat)

  /** `all` with `part` at position `at`. */
  function Patch(all: Bytes, at: nat, part: Bytes): (r: Bytes)
    requires at + |part| <= |all|
    ensures |r| == |all|
  {
    all[..at] + part + all[at + |part|..]
  }

  function Exec(m: Mem, d: Dma): (r: Mem)
    ensures |r.dev| == |m.dev| && |r.slots| == |m.slots|
            && forall s :: 0 <= s < |m.slots| ==> |r.slots[s]| == |m.slots[s]|
  {
    if d.slot < |m.slots| && d.n <= |m.slots[d.slot]| && d.at + d.n <= |m.dev| then
      if d.ToDevice? then m.(dev := Patch(m.dev, d.at, m.slots[d.slot][..d.n]))
      else m.(slots := m.slots[d.slot := Patch(m.slots[d.slot], 0, m.dev[d.at..d.at + d.n])])
    else m
  }

  /** The memory once every command in the ring has executed. */
  ghost function Settled(m: Mem, ring: seq<Dma>): (r: Mem)
    ensures |r.dev| == |m.dev| && |r.slots| == |m.slots|
            && forall s :: 0 <= s < |m.slots| ==> |r.slots[s]| == |m.slots[s]|
  {
    if ring == [] then m else Exec(Settled(m, ring[..|ring| - 1]), ring[|ring| - 1])
  }

  /** The device takes commands from the front of the ring. */
  lemma {:induction false} SettledFront(m: Mem, ring: seq<Dma>)
    requires ring != []
    ensures Settled(m, ring) == Settled(Exec(m, ring[0]), ring[1..])
  {
    var n := |ring| - 1;
    if n > 0 {
      SettledFront(m, ring[..n]);
      assert ring[..n][1..] == ring[1..][..n - 1];
      assert ring[1..][n - 1] == ring[n];
    } else {
      assert ring[..0] == [] && ring[1..] == [];
    }
  }

  lemma SettledAppend(m: Mem, ring: seq<Dma>, d: Dma)
    ensures Settled(m, ring + [d]) == Exec(Settled(m, ring), d)
  {
    assert (ring + [d])[..|ring|] == ring;
  }

  ghost predicate Unused(ring: seq<Dma>, slot: nat) {
    forall i :: 0 <= i < |ring| ==> ring[i].slot != slot
  }

  /** Filling a slot that no command in the ring uses does not disturb them. */
  lemma {:induction false} FillCommutes(m: Mem, ring: seq<Dma>, slot: nat, data: Bytes)
    requires slot < |m.slots| && |data| == |m.slots[slot]| && Unused(ring, slot)
    ensures var m' := m.(slots := m.slots[slot := data]);
            Settled(m', ring) == Settled(m, ring).(slots := Settled(m, ring).slots[slot := data])
  {
    if ring != [] {
      var n := |ring| - 1;
      FillCommutes(m, ring[..n], slot, data);
      ExecOther(Settled(m, ring[..n]), ring[n], slot, data);
    }
  }

  lemma ExecOther(m: Mem, d: Dma, slot: nat, data: Bytes)
    requires slot < |m.slots| && |data| == |m.slots[slot]| && d.slot != slot
    ensures Exec(m.(slots := m.slots[slot := data]), d) == Exec(m, d).(slots := Exec(m, d).slots[slot := data])
  {
  }

  /** A slot that no command in the ring uses already has its final contents. */
  lemma {:induction false} UnusedSettled(m: Mem, ring: seq<Dma>, slot: nat)
    requires slot < |m.slots| && Unused(ring, slot)
    ensures Settled(m, ring).slots[slot] == m.slots[slot]
  {
    if ring != [] {
      UnusedSettled(m, ring[..|ring| - 1], slot);
    }
  }

  // ---------------------------------------------------------------------------------------------
  // Chunks
  // ---------------------------------------------------------------------------------------------

  function ChunkCount(total: nat, chunk: nat): (r: nat)
    requires chunk > 0
  {
    (total + chunk - 1) / chunk
  }

  /** Where chunk `c` starts; the total for the one after the last. */
  function Start(total: nat, chunk: nat, c: nat): (r: nat) {
    if c * chunk < total then c * chunk else total
  }

  function Length(total: nat, chunk: nat, c: nat): (r: nat)
    requires c * chunk <= total
  {
    if chunk < total - c * chunk then chunk else total - c * chunk
  }

  /** The chunks follow each other without gap or overlap, from 0 to the total. */
  lemma ChunksTile(total: nat, chunk: nat, c: nat)
    requires chunk > 0
    ensures Start(total, chunk, 0) == 0
    ensures c < ChunkCount(total, chunk) <==> c * chunk < total
    ensures c < ChunkCount(total, chunk) ==> Start(total, chunk, c + 1) == c * chunk + Length(total, chunk, c)
    ensures c >= ChunkCount(total, chunk) ==> Start(total, chunk, c) == total
  {
    var q := ChunkCount(total, chunk);
    var x := total + chunk - 1;
    assert x == chunk * q + x % chunk;
    assert (c + 1) * chunk == c * chunk + chunk;
    if c < q {
      Grows(c + 1, q, chunk);
    } else {
      Grows(q, c, chunk);
    }
  }

  lemma Grows(x: nat, y: nat, chunk: nat)
    requires x <= y
    ensures x * chunk <= y * chunk
  {
  }

  /** Commands in the ring that use the slot come before `fence`; the ring's first has number `get`. */
  ghost predicate Fenced(ring: seq<Dma>, get: nat, slot: nat, fence: nat) {
    forall j :: 0 <= j < |ring| && ring[j].slot == slot ==> get + j < fence
  }

  datatype Issued = Issued(slot: nat, fence: nat)

  class Pool {
    const chunk: nat
    var m: Mem
    /** Commands that have not retired; `get` have. */
    var ring: seq<Dma>
    var get: nat
    var busy: seq<bool>
    var fence: seq<nat>
    var nextSlot: nat
    /** Slots whose command is queued and whose user has not released them. */
    ghost var queued: set<nat>

    ghost predicate Valid()
      reads this
    {
      && chunk > 0 && |m.slots| == |busy| == |fence| && nextSlot < |busy|
      && (forall s :: 0 <= s < |m.slots| ==> |m.slots[s]| == chunk)
      && (forall s: nat :: s < |busy| && s !in queued ==> Fenced(ring, get, s, fence[s]) && fence[s] <= get + |ring|)
      && (forall s :: s in queued ==> s < |busy| && busy[s])
    }

    ghost function Final(): (r: Mem)
      reads this
    {
      Settled(m, ring)
    }

    /** What waiting leaves as it was. */
    twostate predicate OnlyRetires()
      reads this
    {
      && Final() == old(Final()) && get + |ring| == old(get + |ring|) && get >= old(get)
      && busy == old(busy) && fence == old(fence) && nextSlot == old(nextSlot) && queued == old(queued)
      && forall s: nat, f: nat :: old(Fenced(ring, get, s, f)) ==> Fenced(ring, get, s, f)
    }

    /** The device executes and retires the command at the front. */
    method Execute()
      requires Valid() && ring != []
      modifies this`m, this`ring, this`get
      ensures Valid() && OnlyRetires() && get == old(get) + 1
    {
      SettledFront(m, ring);
      m, ring, get := Exec(m, ring[0]), ring[1..], get + 1;
    }

    /** wait_fence; the device may have gone further. */
    method WaitFence(f: nat)
      requires Valid() && f <= get + |ring|
      modifies this`m, this`ring, this`get
      ensures Valid() && OnlyRetires() && get >= f
    {
      var further: nat := *;
      while ring != [] && (get < f || further > 0)
        invariant Valid() && OnlyRetires() && f <= get + |ring|
        decreases |ring|
      {
        if get >= f {
          further := further - 1;
        }
        Execute();
      }
    }

    /** Every slot is taken: acquire_slot spins until another copy releases one. */
    ghost predicate AllBusy()
      reads this
    {
      forall x :: 0 <= x < |busy| ==> busy[x]
    }

    /** One pass of acquire_slot, and the wait for the fence that the slot's last user left. None if every slot is
        busy: the source then looks again. */
    method AcquireSlot() returns (r: Option<nat>)
      requires Valid()
      modifies this`m, this`ring, this`get, this`busy, this`nextSlot
      ensures Valid() && Final() == old(Final()) && get + |ring| == old(get + |ring|)
      ensures r.None? <==> old(AllBusy())
      ensures r.None? ==> busy == old(busy) && ring == old(ring) && get == old(get) && m == old(m)
      ensures r.Some? ==>
              r.value < |busy| && !old(busy)[r.value] && busy == old(busy)[r.value := true] && Unused(ring, r.value)
              && r.value !in queued
      ensures forall x: nat, f: nat :: old(Fenced(ring, get, x, f)) ==> Fenced(ring, get, x, f)
    {
      for i := 0 to |busy|
        invariant forall j :: 0 <= j < i ==> busy[Place(nextSlot, j, |busy|)]
        invariant m == old(m) && ring == old(ring) && get == old(get) && busy == old(busy) && nextSlot == old(nextSlot)
      {
        var s := (nextSlot + i) % |busy|;
        if !busy[s] {
          var prev := fence[s];
          busy := busy[s := true];
          nextSlot := (s + 1) % |busy|;
          WaitFence(prev);
          return Some(s);
        }
      }
      forall x | 0 <= x < |busy|
        ensures busy[x]
      {
        assert Place(nextSlot, Distance(nextSlot, x, |busy|), |busy|) == x;
      }
      r := None;
    }

    /** Puts a command for a held slot into the ring; its fence is returned. */
    method Enqueue(d: Dma) returns (f: nat)
      requires Valid() && d.slot < |busy| && busy[d.slot] && d.slot !in queued && Unused(ring, d.slot)
      modifies this`ring, this`queued
      ensures Valid() && f == get + |ring| && ring == old(ring) + [d] && queued == old(queued) + {d.slot}
      ensures Final() == Exec(old(Final()), d) && Fenced(ring, get, d.slot, f)
      ensures forall x: nat, g: nat :: x != d.slot && old(Fenced(ring, get, x, g)) ==> Fenced(ring, get, x, g)
    {
      SettledAppend(m, ring, d);
      ring := ring + [d];
      queued := queued + {d.slot};
      f := get + |ring|;
    }

    /** release_slot: the fence stays with the slot. */
    method ReleaseSlot(s: nat, f: nat)
      requires Valid() && s < |busy| && Fenced(ring, get, s, f) && f <= get + |ring|
      modifies this`busy, this`fence, this`queued
      ensures Valid() && busy == old(busy)[s := false] && queued == old(queued) - {s}
    {
      busy, fence := busy[s := false], fence[s := f];
      queued := queued - {s};
    }

    /** Fills a slot with one chunk and has it copied to [at, at + |part|). */
    method StageOut(at: nat, part: Bytes) returns (ok: bool)
      requires Valid() && |part| <= chunk && at + |part| <= |m.dev|
      modifies this
      ensures Valid() && busy == old(busy) && queued == old(queued) && |m.dev| == |old(m).dev|
      ensures !ok ==> AllBusy() && Final().dev == old(Final()).dev
      ensures ok ==> Final().dev == Patch(old(Final()).dev, at, part)
    {
      var slot := AcquireSlot();
      if slot.None? {
        return false;
      }
      var s := slot.value;
      var data := part + m.slots[s][|part|..];
      FillCommutes(m, ring, s, data);
      m := m.(slots := m.slots[s := data]);
      assert data[..|part|] == part;
      var f := Enqueue(ToDevice(s, at, |part|));
      ReleaseSlot(s, f);
      assert busy == old(busy) && queued == old(queued);
      ok := true;
    }

    /** COPY_H2D of pageable memory, whatever slots other copies hold: the first `done` bytes of `src` end up once,
        in their place, and nothing else changes. It stops short only where the source spins for a slot. */
    method CopyH2D(at: nat, src: Bytes) returns (done: nat)
      requires Valid() && at + |src| <= |m.dev|
      modifies this
      ensures Valid() && busy == old(busy) && queued == old(queued)
      ensures done <= |src| && (done < |src| ==> AllBusy())
      ensures Final().dev == Patch(old(Final()).dev, at, src[..done])
    {
      ghost var dev := Final().dev;
      done := 0;
      assert Patch(dev, at, src[..0]) == dev;
      while done < |src|
        invariant done <= |src| && Valid() && busy == old(busy) && queued == old(queued) && |m.dev| == |dev|
        invariant Final().dev == Patch(dev, at, src[..done])
      {
        var next := if chunk < |src| - done then done + chunk else |src|;
        PatchMore(dev, at, src, done, next);
        var ok := StageOut(at + done, src[done..next]);
        if !ok {
          return;
        }
        done := next;
      }
    }

    ghost predicate InFlight(window: seq<Issued>, done: nat, job: Job)
      reads this
    {
      WindowOk(Final(), ring, get, busy, queued, window, done, job)
    }

    /** Issues the DMA for the next chunk, [from, to). */
    method Issue(window: seq<Issued>, from: nat, to: nat, ghost done: nat, ghost job: Job) returns (w: Option<Issued>)
      requires Valid() && InFlight(window, done, job) && done + |window| + 1 < |job.cuts|
      requires from == job.at + job.cuts[done + |window|] && to == job.at + job.cuts[done + |window| + 1]
               && from <= to <= from + chunk && to <= |m.dev|
      modifies this
      ensures Valid() && |m.dev| == |old(m).dev| && |busy| == |old(busy)| && Final().dev == old(Final()).dev
      ensures if w.Some? then InFlight(window + [w.value], done, job) else AllBusy() && InFlight(window, done, job)
    {
      var slot := AcquireSlot();
      if slot.None? {
        return None;
      }
      var s := slot.value;
      ghost var fin, r, g := Final(), ring, get;
      WindowWaits(fin, old(ring), old(get), r, g, old(busy), queued, window, done, job);
      var f := Enqueue(ToHost(s, from, to - from));
      w := Some(Issued(s, f));
      IssueKeeps(fin, r, g, ring, get, old(busy), old(queued), window, w.value, done, job);
    }

    /** Waits for the oldest chunk of the window, copies it out and releases its slot. */
    method Collect(window: seq<Issued>, n: nat, ghost done: nat, ghost job: Job) returns (part: Bytes)
      requires Valid() && InFlight(window, done, job) && window != [] && job.cuts[done + 1] == job.cuts[done] + n
               && n <= chunk
      modifies this
      ensures Valid() && |m.dev| == |old(m).dev| && |busy| == |old(busy)| && Final().dev == old(Final()).dev
      ensures job.at + job.cuts[done] <= job.at + job.cuts[done + 1] <= |Final().dev|
              && part == Final().dev[job.at + job.cuts[done]..job.at + job.cuts[done + 1]]
      ensures InFlight(window[1..], done + 1, job)
    {
      var w := window[0];
      assert EntryAt(Final(), ring, get, window, done, job, 0);
      WaitFence(w.fence);
      WindowWaits(Final(), old(ring), old(get), ring, get, busy, queued, window, done, job);
      assert Unused(ring, w.slot);
      UnusedSettled(m, ring, w.slot);
      part := m.slots[w.slot][..n];
      CollectKeeps(Final(), ring, get, busy, queued, window, done, job);
      ReleaseSlot(w.slot, w.fence);
    }

    /** Issues chunk `c`, which is the one after the window. */
    method IssueChunk(window: seq<Issued>, c: nat, at: nat, total: nat, ghost done: nat, ghost job: Job)
        returns (w: Option<Issued>)
      requires Valid() && JobOk(job, at, total, chunk) && InFlight(window, done, job)
               && c == done + |window| < |job.cuts| - 1
      requires at + total <= |m.dev|
      modifies this
      ensures Valid() && |m.dev| == |old(m).dev| && |busy| == |old(busy)| && Final().dev == old(Final()).dev
      ensures if w.Some? then InFlight(window + [w.value], done, job) else AllBusy() && InFlight(window, done, job)
    {
      CutsAt(job.cuts, total, chunk, c);
      var from := at + c * chunk;
      w := Issue(window, from, from + Length(total, chunk, c), done, job);
    }

    method CollectChunk(window: seq<Issued>, c: nat, total: nat, ghost at: nat, ghost job: Job) returns (part: Bytes)
      requires Valid() && JobOk(job, at, total, chunk) && InFlight(window, c, job) && window != [] && c < |job.cuts| - 1
      modifies this
      ensures Valid() && |m.dev| == |old(m).dev| && |busy| == |old(busy)| && Final().dev == old(Final()).dev
      ensures at + job.cuts[c] <= at + job.cuts[c + 1] <= |Final().dev|
              && part == Final().dev[at + job.cuts[c]..at + job.cuts[c + 1]]
      ensures InFlight(window[1..], c + 1, job)
    {
      CutsAt(job.cuts, total, chunk, c);
      part := Collect(window, Length(total, chunk, c), c, job);
    }

    /** Fills the window: `depth` chunks, or all of them, unless every slot is busy before that. */
    method FillWindow(at: nat, total: nat, chunks: nat, depth: nat, ghost job: Job)
        returns (window: seq<Issued>, ok: bool)
      requires Valid() && at + total <= |m.dev| && JobOk(job, at, total, chunk) && chunks == |job.cuts| - 1
               && InFlight([], 0, job)
      modifies this
      ensures Valid() && |m.dev| == |old(m).dev| && |busy| == |old(busy)| && Final().dev == old(Final()).dev
      ensures InFlight(window, 0, job) && |window| <= depth && |window| <= chunks
      ensures if ok then |window| == (if depth < chunks then depth else chunks)
              else AllBusy() && FreeIn(job.busy) < depth
    {
      window, ok := [], true;
      while |window| < depth && |window| < chunks
        invariant Valid() && |m.dev| == |old(m).dev| && |busy| == |old(busy)| && Final().dev == old(Final()).dev
        invariant |window| <= depth && |window| <= chunks && InFlight(window, 0, job)
        decreases chunks - |window|
      {
        var w := IssueChunk(window, |window|, at, total, 0, job);
        if w.None? {
          ok := false;
          FreeAreTaken(busy, queued, window, job);
          return;
        }
        window := window + [w.value];
      }
    }

    /** Adds chunk `c` to what has been delivered, and issues the next one if there is any. */
    method Advance(out0: Bytes, window0: seq<Issued>, c: nat, at: nat, total: nat, chunks: nat, ghost job: Job)
        returns (out: Bytes, window: seq<Issued>, ok: bool)
      requires Valid() && at + total <= |m.dev| && JobOk(job, at, total, chunk) && chunks == |job.cuts| - 1
               && c < chunks
      requires InFlight(window0, c, job) && window0 != [] && at + job.cuts[c] <= |Final().dev|
               && out0 == Final().dev[at..at + job.cuts[c]]
      modifies this
      ensures Valid() && |m.dev| == |old(m).dev| && |busy| == |old(busy)| && Final().dev == old(Final()).dev
      ensures at + job.cuts[c + 1] <= |Final().dev| && out == Final().dev[at..at + job.cuts[c + 1]]
      ensures InFlight(window, c + 1, job)
      ensures if ok then |window| == (if c + |window0| < chunks then |window0| else |window0| - 1)
              else AllBusy() && FreeIn(job.busy) < |window0|
    {
      var part := CollectChunk(window0, c, total, at, job);
      Join(Final().dev, at, at + job.cuts[c], at + job.cuts[c + 1]);
      out, window, ok := out0 + part, window0[1..], true;
      if c + |window0| < chunks {
        var w := IssueChunk(window, c + |window0|, at, total, c + 1, job);
        if w.None? {
          ok := false;
          FreeAreTaken(busy, queued, window, job);
          return;
        }
        window := window + [w.value];
      }
    }

    /** Collects every chunk in order, and keeps the window full meanwhile. */
    method DrainWindow(at: nat, total: nat, chunks: nat, depth: nat, window0: seq<Issued>, ghost job: Job)
        returns (out: Bytes, ok: bool)
      requires Valid() && at + total <= |m.dev| && JobOk(job, at, total, chunk) && chunks == |job.cuts| - 1 && depth > 0
      requires InFlight(window0, 0, job) && |window0| == if depth < chunks then depth else chunks
      modifies this
      ensures Valid() && |m.dev| == |old(m).dev| && |busy| == |old(busy)| && Final().dev == old(Final()).dev
      ensures |out| <= total && at + |out| <= |Final().dev| && out == Final().dev[at..at + |out|]
      ensures if ok then |out| == total && InFlight([], chunks, job) else AllBusy() && FreeIn(job.busy) < depth
    {
      CutsEnds(job.cuts, total, chunk);
      var window, done := window0, 0;
      out, ok := [], true;
      while done < chunks && ok
        invariant Valid() && |m.dev| == |old(m).dev| && |busy| == |old(busy)| && Final().dev == old(Final()).dev
        invariant done <= chunks && InFlight(window, done, job)
        invariant if ok then |window| == (if done + depth < chunks then depth else chunks - done)
                  else AllBusy() && FreeIn(job.busy) < depth
        invariant at + job.cuts[done] <= |Final().dev| && out == Final().dev[at..at + job.cuts[done]]
        decreases chunks - done
      {
        out, window, ok := Advance(out, window, done, at, total, chunks, job);
        done := done + 1;
      }
      CutsBelow(job.cuts, total, chunk, done);
      assert ok ==> window == [];
    }

    /** COPY_D2H to pageable memory, whatever slots other copies hold: up to half of the slots are in flight ahead of
        the host, and the host gets exactly the bytes the device holds once the commands before have executed. It
        stops short only where the source spins for a slot, with a prefix delivered. */
    method CopyD2H(at: nat, total: nat) returns (out: Bytes, ok: bool)
      requires Valid() && at + total <= |m.dev|
      modifies this
      ensures Valid() && Final().dev == old(Final()).dev
      ensures |out| <= total && at + |out| <= |Final().dev| && out == Final().dev[at..at + |out|]
      ensures if ok then |out| == total && busy == old(busy) && queued == old(queued)
              else AllBusy() && FreeIn(old(busy)) < if |busy| / 2 > 1 then |busy| / 2 else 1
    {
      var chunks := ChunkCount(total, chunk);
      var depth := if |busy| / 2 > 1 then |busy| / 2 else 1;
      ghost var cuts := MakeCuts(total, chunk);
      ghost var job := Job(at, cuts, busy, queued);
      assert InFlight([], 0, job) by {
        assert forall x: nat :: !InWindow([], x);
      }
      var window;
      window, ok := FillWindow(at, total, chunks, depth, job);
      if !ok {
        return [], false;
      }
      out, ok := DrainWindow(at, total, chunks, depth, window, job);
      if ok {
        assert forall x: nat :: !InWindow([], x);
        assert busy == old(busy) && queued == old(queued);
      }
    }
  }

  /** A D2H copy: where it reads, where its chunks start, and the slots that other copies hold. */
  datatype Job = Job(at: nat, cuts: seq<nat>, busy: seq<bool>, queued: set<nat>)

  ghost predicate JobOk(job: Job, at: nat, total: nat, chunk: nat) {
    job.at == at && AreCuts(job.cuts, total, chunk)
  }

  /** The slot will hold [from, to) of device memory once its command has executed. */
  ghost predicate EntryOk(fin: Mem, ring: seq<Dma>, get: nat, w: Issued, from: nat, to: nat) {
    && w.slot < |fin.slots| && Fenced(ring, get, w.slot, w.fence) && w.fence <= get + |ring|
    && from <= to <= |fin.dev| && to - from <= |fin.slots[w.slot]|
    && fin.slots[w.slot][..to - from] == fin.dev[from..to]
  }

  /** Entry `k` of the window is for chunk done + k. */
  ghost predicate EntryAt(fin: Mem, ring: seq<Dma>, get: nat, window: seq<Issued>, done: nat, job: Job, k: nat) {
    k < |window| && done + k + 1 < |job.cuts|
        && EntryOk(fin, ring, get, window[k], job.at + job.cuts[done + k], job.at + job.cuts[done + k + 1])
  }

  /** The window's slots are its own: each for one chunk, none held by another copy. */
  ghost predicate SlotsOk(busy: seq<bool>, queued: set<nat>, window: seq<Issued>, job: Job) {
    && |busy| == |job.busy|
    && (forall j, k :: 0 <= j < k < |window| ==> window[j].slot != window[k].slot)
    && (forall k :: 0 <= k < |window| ==>
        window[k].slot < |job.busy| && !job.busy[window[k].slot] && window[k].slot !in job.queued)
    && (forall x: nat :: x in queued <==> x in job.queued || InWindow(window, x))
    && (forall x: nat :: x < |busy| ==> (busy[x] <==> job.busy[x] || InWindow(window, x)))
  }

  /** The window of a D2H copy: chunks done..issued-1 in order. `fin` is the memory once the ring has executed. */
  ghost predicate WindowOk(fin: Mem, ring: seq<Dma>, get: nat, busy: seq<bool>, queued: set<nat>, window: seq<Issued>,
                           done: nat, job: Job) {
    && done + |window| < |job.cuts| && |fin.slots| == |busy|
    && (forall k: nat :: k < |window| ==> EntryAt(fin, ring, get, window, done, job, k))
    && SlotsOk(busy, queued, window, job)
  }

  /** Retirements change nothing for the window. */
  lemma WindowWaits(fin: Mem, ring: seq<Dma>, get: nat, ring': seq<Dma>, get': nat, busy: seq<bool>, queued: set<nat>,
                    window: seq<Issued>, done: nat, job: Job)
    requires WindowOk(fin, ring, get, busy, queued, window, done, job) && get' + |ring'| == get + |ring|
    requires forall x: nat, f: nat :: Fenced(ring, get, x, f) ==> Fenced(ring', get', x, f)
    ensures WindowOk(fin, ring', get', busy, queued, window, done, job)
  {
    forall k: nat | k < |window|
      ensures EntryAt(fin, ring', get', window, done, job, k)
    {
      assert EntryAt(fin, ring, get, window, done, job, k);
    }
  }

  lemma IssueSlots(busy: seq<bool>, queued: set<nat>, window: seq<Issued>, w: Issued, job: Job)
    requires SlotsOk(busy, queued, window, job) && w.slot < |busy| && !busy[w.slot] && w.slot !in queued
    ensures SlotsOk(busy[w.slot := true], queued + {w.slot}, window + [w], job) && !InWindow(window, w.slot)
  {
    GrowWindow(window, w);
    assert !InWindow(window, w.slot);
  }

  lemma IssueKeeps(fin: Mem, ring: seq<Dma>, get: nat, ring': seq<Dma>, get': nat, busy: seq<bool>, queued: set<nat>,
                   window: seq<Issued>, w: Issued, done: nat, job: Job)
    requires WindowOk(fin, ring, get, busy, queued, window, done, job) && done + |window| + 1 < |job.cuts|
    requires w.slot < |busy| && !busy[w.slot] && w.slot !in queued && get' + |ring'| >= get + |ring|
             && w.fence <= get' + |ring'| && Fenced(ring', get', w.slot, w.fence)
    requires forall x: nat, f: nat :: x != w.slot && Fenced(ring, get, x, f) ==> Fenced(ring', get', x, f)
    requires var from, to := job.at + job.cuts[done + |window|], job.at + job.cuts[done + |window| + 1];
             from <= to <= |fin.dev| && to - from <= |fin.slots[w.slot]|
    ensures var from, to := job.at + job.cuts[done + |window|], job.at + job.cuts[done + |window| + 1];
            WindowOk(Exec(fin, ToHost(w.slot, from, to - from)), ring', get', busy[w.slot := true], queued + {w.slot},
                window + [w], done, job)
  {
    var from, to := job.at + job.cuts[done + |window|], job.at + job.cuts[done + |window| + 1];
    var fin' := Exec(fin, ToHost(w.slot, from, to - from));
    IssueSlots(busy, queued, window, w, job);
    forall k: nat | k < |window + [w]|
      ensures EntryAt(fin', ring', get', window + [w], done, job, k)
    {
      if k < |window| {
        assert EntryAt(fin, ring, get, window, done, job, k);
        assert window[k].slot != w.slot;
        EntryStays(fin, ring, get, ring', get', window[k], w.slot, job.at + job.cuts[done + k],
            job.at + job.cuts[done + k + 1], from, to);
      }
    }
  }

  lemma EntryStays(fin: Mem, ring: seq<Dma>, get: nat, ring': seq<Dma>, get': nat, w: Issued, slot: nat, a: nat, b: nat,
                   from: nat, to: nat)
    requires EntryOk(fin, ring, get, w, a, b) && w.slot != slot && from <= to && get' + |ring'| >= get + |ring|
    requires Fenced(ring, get, w.slot, w.fence) ==> Fenced(ring', get', w.slot, w.fence)
    ensures EntryOk(Exec(fin, ToHost(slot, from, to - from)), ring', get', w, a, b)
  {
  }

  lemma CollectKeeps(fin: Mem, ring: seq<Dma>, get: nat, busy: seq<bool>, queued: set<nat>, window: seq<Issued>,
                     done: nat, job: Job)
    requires WindowOk(fin, ring, get, busy, queued, window, done, job) && window != [] && window[0].slot < |busy|
    ensures WindowOk(fin, ring, get, busy[window[0].slot := false], queued - {window[0].slot}, window[1..], done + 1,
            job)
  {
    ShrinkWindow(window);
    var rest, next := window[1..], done + 1;
    forall k: nat | k < |rest|
      ensures EntryAt(fin, ring, get, rest, next, job, k)
    {
      assert EntryAt(fin, ring, get, window, done, job, k + 1);
    }
  }

  lemma Join(all: Bytes, a: nat, b: nat, c: nat)
    requires a <= b <= c <= |all|
    ensures all[a..b] + all[b..c] == all[a..c]
  {
  }

  lemma CutsBelow(cuts: seq<nat>, total: nat, chunk: nat, c: nat)
    requires AreCuts(cuts, total, chunk) && c < |cuts|
    ensures cuts[c] <= total
  {
    assert IsCut(cuts, total, chunk, c);
  }

  ghost predicate IsCut(cuts: seq<nat>, total: nat, chunk: nat, c: nat) {
    chunk > 0 && |cuts| == ChunkCount(total, chunk) + 1 && (c < |cuts| ==> cuts[c] == Start(total, chunk, c))
  }

  /** Where the chunks start, and at last where they end. */
  ghost predicate AreCuts(cuts: seq<nat>, total: nat, chunk: nat) {
    chunk > 0 && cuts != [] && forall c: nat :: IsCut(cuts, total, chunk, c)
  }

  lemma MakeCuts(total: nat, chunk: nat) returns (cuts: seq<nat>)
    requires chunk > 0
    ensures AreCuts(cuts, total, chunk) && |cuts| == ChunkCount(total, chunk) + 1
  {
    cuts := seq(ChunkCount(total, chunk) + 1, c requires 0 <= c => Start(total, chunk, c));
  }

  lemma CutsEnds(cuts: seq<nat>, total: nat, chunk: nat)
    requires AreCuts(cuts, total, chunk)
    ensures cuts[0] == 0 && cuts[|cuts| - 1] == total
  {
    assert IsCut(cuts, total, chunk, 0) && IsCut(cuts, total, chunk, |cuts| - 1);
    ChunksTile(total, chunk, 0);
    ChunksTile(total, chunk, |cuts| - 1);
  }

  lemma CutsAt(cuts: seq<nat>, total: nat, chunk: nat, c: nat)
    requires AreCuts(cuts, total, chunk) && c < |cuts| - 1
    ensures c * chunk < total && Length(total, chunk, c) <= chunk
    ensures cuts[c] == c * chunk && cuts[c + 1] == c * chunk + Length(total, chunk, c) <= total
  {
    assert IsCut(cuts, total, chunk, c) && IsCut(cuts, total, chunk, c + 1);
    ChunksTile(total, chunk, c);
  }

  lemma ShrinkWindow(window: seq<Issued>)
    requires window != [] && forall j, k :: 0 <= j < k < |window| ==> window[j].slot != window[k].slot
    ensures forall x: nat :: InWindow(window[1..], x) <==> InWindow(window, x) && x != window[0].slot
  {
    forall x: nat
      ensures InWindow(window[1..], x) <==> InWindow(window, x) && x != window[0].slot
    {
      if InWindow(window[1..], x) {
        var k :| 0 <= k < |window[1..]| && window[1..][k].slot == x;
        assert window[k + 1].slot == x;
      }
      if InWindow(window, x) && x != window[0].slot {
        var k :| 0 <= k < |window| && window[k].slot == x;
        assert window[1..][k - 1].slot == x;
      }
    }
  }

  /** How many slots are free. */
  ghost function FreeIn(busy: seq<bool>): (n: nat) {
    |FreeSet(busy)|
  }

  ghost function FreeSet(busy: seq<bool>): (r: set<nat>) {
    set x: nat | x < |busy| && !busy[x]
  }

  ghost function SlotSet(window: seq<Issued>): (r: set<nat>) {
    set k | 0 <= k < |window| :: window[k].slot
  }

  lemma {:induction false} SlotSetSize(window: seq<Issued>)
    ensures |SlotSet(window)| <= |window|
  {
    if window == [] {
      assert SlotSet(window) == {};
    } else {
      var n := |window| - 1;
      SlotSetSize(window[..n]);
      assert SlotSet(window) == SlotSet(window[..n]) + {window[n].slot};
    }
  }

  /** When every slot is busy, the ones that were free at the start are those of the window. */
  lemma FreeAreTaken(busy: seq<bool>, queued: set<nat>, window: seq<Issued>, job: Job)
    requires SlotsOk(busy, queued, window, job) && forall x :: 0 <= x < |busy| ==> busy[x]
    ensures FreeIn(job.busy) <= |window|
  {
    forall x | x in FreeSet(job.busy)
      ensures x in SlotSet(window)
    {
      assert busy[x] && InWindow(window, x);
    }
    SubsetSize(FreeSet(job.busy), SlotSet(window));
    SlotSetSize(window);
  }

  ghost predicate InWindow(window: seq<Issued>, x: nat) {
    exists k :: 0 <= k < |window| && window[k].slot == x
  }

  lemma GrowWindow(window: seq<Issued>, w: Issued)
    ensures forall x: nat :: InWindow(window + [w], x) <==> InWindow(window, x) || x == w.slot
  {
    forall x: nat
      ensures InWindow(window + [w], x) <==> InWindow(window, x) || x == w.slot
    {
      if InWindow(window, x) {
        var k :| 0 <= k < |window| && window[k].slot == x;
        assert (window + [w])[k].slot == x;
      }
      assert (window + [w])[|window|] == w;
    }
  }

  lemma PatchMore(all: Bytes, at: nat, src: Bytes, k: nat, n: nat)
    requires k <= n <= |src| && at + |src| <= |all|
    ensures Patch(Patch(all, at, src[..k]), at + k, src[k..n]) == Patch(all, at, src[..n])
  {
  }
}
