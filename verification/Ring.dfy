/**
  One channel's command ring: many producers (`enqueue`) and one engine. Each step is one atomic access,
  and every interleaving of them is a run.
*/
module Ring {
  import opened Base
  import opened Modular
  import Runs

  datatype Command = Command(word: nat)

  /** SG_SUBMIT_TICKET, or the channel's lock. */
  datatype Mode = Ticket | Mutex

  /** Where a producer stands in `enqueue`. */
  datatype Phase = Check | Write | AwaitTurn | StorePut | StoreMirror | Leave

  datatype Producer = Producer(ticket: nat, cmd: Command, phase: Phase)

  /** What became of a command: the engine ran it to its end, or retired it because the migration of a page
      it needs failed. */
  datatype Outcome = Ran(cmd: Command) | Failed

  /** `put` and `get` are the device registers, `mirror` is the driver's copy of PUT. The engine's own
      cursor is `cur`, and `seen` the last PUT it loaded. `tickets` lists the commands by ticket and
      `log` what became of those the cursor has passed. */
  datatype State = State(mode: Mode, depth: nat, slots: seq<Command>, put: nat, mirror: nat,
                         producers: map<nat, Producer>,
                         get: nat, cur: nat, seen: nat, running: Option<Command>,
                         tickets: seq<Command>, log: seq<Outcome>)

  datatype Action =
    | Reserve(p: nat, cmd: Command)
    | CheckRoom(p: nat)
    | WriteSlot(p: nat)
    | TakeTurn(p: nat)
    | Publish(p: nat)
    | PassTurn(p: nat)
    | Return(p: nat)
    | LoadPut
    | Fetch
    | Execute
    | Fault
    | FailRetire
    | Retire

  ghost predicate At(s: State, p: nat, phase: Phase) {
    p in s.producers && s.producers[p].phase == phase
  }

  function Slot(s: State, ticket: nat): (i: nat)
    requires s.depth > 0
    ensures i < s.depth
  {
    ticket % s.depth
  }

  /** `s` with producer `p` moved to another phase. */
  function Moved(s: State, p: nat, phase: Phase): (r: State)
    requires p in s.producers
  {
    s.(producers := s.producers[p := s.producers[p].(phase := phase)])
  }

  ghost predicate Sized(s: State) {
    s.depth > 0 && |s.slots| == s.depth
  }

  ghost predicate Does(s: State, s': State, a: Action) {
    Sized(s) && match a
    // Under the lock the ticket is the mirror; no other producer is inside.
    case Reserve(p, cmd) =>
      && p !in s.producers && (s.mode.Mutex? ==> s.producers == map[])
      && var ticket := if s.mode.Ticket? then |s.tickets| else s.mirror;
         s' == s.(tickets := s.tickets + [cmd], producers := s.producers[p := Producer(ticket, cmd, Check)])
    case CheckRoom(p) =>
      && At(s, p, Check)
      && s' == if s.producers[p].ticket - s.get >= s.depth then s else Moved(s, p, Write)
    case WriteSlot(p) =>
      && At(s, p, Write)
      && s' == Moved(s, p, if s.mode.Ticket? then AwaitTurn else StorePut)
               .(slots := s.slots[Slot(s, s.producers[p].ticket) := s.producers[p].cmd])
    case TakeTurn(p) =>
      && At(s, p, AwaitTurn)
      && s' == if s.mirror == s.producers[p].ticket then Moved(s, p, StorePut) else s
    case Publish(p) => At(s, p, StorePut) && s' == Moved(s, p, StoreMirror).(put := s.producers[p].ticket + 1)
    case PassTurn(p) => At(s, p, StoreMirror) && s' == Moved(s, p, Leave).(mirror := s.producers[p].ticket + 1)
    case Return(p) => At(s, p, Leave) && s' == s.(producers := s.producers - {p})
    case LoadPut => s.running == None && s' == s.(seen := s.put)
    case Fetch => s.running == None && s.get == s.cur != s.seen && s' == s.(running := Some(s.slots[Slot(s, s.cur)]))
    // The engine reads the slot while it executes, and only then moves its cursor.
    case Execute =>
      && s.running.Some?
      && s' == s.(running := None, log := s.log + [Ran(s.slots[Slot(s, s.cur)])], cur := s.cur + 1)
    // A page fault: the command stays at the head and is fetched again.
    case Fault => s.running.Some? && s' == s.(running := None)
    // fault_fail: the head is retired without being executed.
    case FailRetire =>
      && s.running == None && s.get == s.cur != s.seen
      && s' == s.(log := s.log + [Failed], cur := s.cur + 1)
    case Retire => s' == s.(get := s.cur)
  }

  // ---------------------------------------------------------------------------------------------
  // Invariant
  // ---------------------------------------------------------------------------------------------

  /** Entry `i` of the log is about ticket `i`. */
  ghost predicate LogFits(log: seq<Outcome>, tickets: seq<Command>) {
    |log| <= |tickets| && forall i :: 0 <= i < |log| && log[i].Ran? ==> log[i].cmd == tickets[i]
  }

  ghost predicate CountersOk(s: State) {
    && Sized(s)
    && s.get <= s.cur <= s.get + 1 && s.cur <= s.seen <= s.put
    && (s.running.Some? ==> s.cur < s.seen && s.get == s.cur)
    && s.mirror <= s.put <= s.mirror + 1 && s.put <= |s.tickets| && s.put <= s.get + s.depth
    && |s.log| == s.cur && LogFits(s.log, s.tickets)
  }

  ghost predicate ProducerOk(s: State, p: nat)
    requires p in s.producers
  {
    var q := s.producers[p];
    && q.ticket < |s.tickets| && s.tickets[q.ticket] == q.cmd
    && (if q.phase == Leave then q.ticket < s.mirror
        else if q.phase == StoreMirror then q.ticket == s.mirror && s.put == s.mirror + 1
        else q.ticket >= s.put)
    && (q.phase != Check && q.phase != Leave ==> q.ticket < s.get + s.depth)
    && (q.phase == StorePut ==> q.ticket == s.mirror == s.put)
    && (s.mode.Mutex? ==> q.phase != AwaitTurn)
  }

  ghost predicate HasWritten(q: Producer) {
    q.phase == AwaitTurn || q.phase == StorePut
  }

  ghost predicate Differ(s: State, p: nat, q: nat) {
    p in s.producers && q in s.producers && p != q ==> s.producers[p].ticket != s.producers[q].ticket
  }

  /** The command of `ticket` is in its slot. */
  ghost predicate InSlot(s: State, ticket: nat) {
    Sized(s) && ticket < |s.tickets| && s.slots[Slot(s, ticket)] == s.tickets[ticket]
  }

  /** Every ticket that is not published has its producer. */
  ghost predicate HasProducer(s: State, ticket: nat) {
    exists p :: p in s.producers && s.producers[p].ticket == ticket && s.producers[p].phase != Leave
  }

  ghost predicate Inv(s: State) {
    && CountersOk(s)
    && (forall p :: p in s.producers ==> ProducerOk(s, p))
    && (forall p, q :: Differ(s, p, q))
    && (forall t :: s.cur <= t < s.put ==> InSlot(s, t))
    && (forall p :: p in s.producers && HasWritten(s.producers[p]) ==> InSlot(s, s.producers[p].ticket))
    && (forall t :: s.mirror <= t < |s.tickets| ==> HasProducer(s, t))
    && (s.mode.Mutex? ==> |s.producers| <= 1)
  }

  ghost predicate Init(s: State) {
    && Sized(s) && s.producers == map[] && s.running == None
    && s.put == s.mirror == s.get == s.cur == s.seen == 0 && s.tickets == [] && s.log == []
  }

  ghost predicate InWindow(s: State, ticket: nat) {
    s.get <= ticket < s.get + s.depth
  }

  lemma WriteKeepsSlot(s: State, s': State, p: nat, t: nat)
    requires Inv(s) && Does(s, s', WriteSlot(p)) && t != s.producers[p].ticket && InWindow(s, t) && InSlot(s, t)
    ensures InSlot(s', t)
  {
    var u := s.producers[p].ticket;
    assert ProducerOk(s, p);
    if t < u {
      SlotsDiffer(s.depth, t, u);
    } else {
      SlotsDiffer(s.depth, u, t);
    }
  }

  /** No slot is written and nothing is published. */
  lemma SlotsStay(s: State, s': State)
    requires Inv(s) && s'.slots == s.slots && s'.tickets == s.tickets && s'.depth == s.depth && s'.put == s.put
             && s'.cur >= s.cur
    requires forall q :: q in s'.producers && HasWritten(s'.producers[q]) ==>
               q in s.producers && HasWritten(s.producers[q]) && s.producers[q].ticket == s'.producers[q].ticket
    ensures forall t :: s'.cur <= t < s'.put ==> InSlot(s', t)
    ensures forall q :: q in s'.producers && HasWritten(s'.producers[q]) ==> InSlot(s', s'.producers[q].ticket)
  {
    forall q | q in s'.producers && HasWritten(s'.producers[q])
      ensures InSlot(s', s'.producers[q].ticket)
    {
      assert InSlot(s, s.producers[q].ticket);
    }
    forall t | s'.cur <= t < s'.put
      ensures InSlot(s', t)
    {
      assert InSlot(s, t);
    }
  }

  lemma ReserveKeeps(s: State, s': State, p: nat, cmd: Command)
    requires Inv(s) && Does(s, s', Reserve(p, cmd))
    ensures Inv(s')
  {
    assert s.mode.Mutex? ==> s.mirror == |s.tickets| by {
      assert s.mirror < |s.tickets| ==> HasProducer(s, s.mirror);
    }
    forall q | q in s'.producers
      ensures ProducerOk(s', q)
    {
      assert q != p ==> ProducerOk(s, q);
    }
    forall q, r
      ensures Differ(s', q, r)
    {
      assert Differ(s, q, r);
      assert q in s.producers ==> ProducerOk(s, q);
      assert r in s.producers ==> ProducerOk(s, r);
    }
    forall t | s'.cur <= t < s'.put
      ensures InSlot(s', t)
    {
      assert InSlot(s, t);
    }
    forall q | q in s'.producers && HasWritten(s'.producers[q])
      ensures InSlot(s', s'.producers[q].ticket)
    {
      assert InSlot(s, s.producers[q].ticket);
    }
    forall t | s'.mirror <= t < |s'.tickets|
      ensures HasProducer(s', t)
    {
      if t < |s.tickets| {
        assert HasProducer(s, t);
        var q :| q in s.producers && s.producers[q].ticket == t && s.producers[q].phase != Leave;
        assert s'.producers[q] == s.producers[q];
      } else {
        assert s'.producers[p].ticket == t;
      }
    }
  }

  /** A step of producer `p` that leaves its ticket and the others' alone. */
  ghost predicate OnlyMoves(s: State, s': State, p: nat) {
    && p in s.producers && s'.producers.Keys == s.producers.Keys
    && (forall q :: q in s.producers && q != p ==> s'.producers[q] == s.producers[q])
    && s'.producers[p].ticket == s.producers[p].ticket && s'.producers[p].cmd == s.producers[p].cmd
    && s'.tickets == s.tickets && s'.mode == s.mode
  }

  lemma MovesKeepDiffer(s: State, s': State, p: nat)
    requires OnlyMoves(s, s', p) && forall q, r :: Differ(s, q, r)
    ensures forall q, r :: Differ(s', q, r)
  {
    forall q, r
      ensures Differ(s', q, r)
    {
      assert Differ(s, q, r);
    }
  }

  lemma MovesKeepProducers(s: State, s': State, p: nat)
    requires OnlyMoves(s, s', p) && s'.producers[p].phase != Leave && s'.mirror == s.mirror
    requires forall t :: s.mirror <= t < |s.tickets| ==> HasProducer(s, t)
    ensures forall t :: s'.mirror <= t < |s'.tickets| ==> HasProducer(s', t)
  {
    forall t | s'.mirror <= t < |s'.tickets|
      ensures HasProducer(s', t)
    {
      assert HasProducer(s, t);
      var q :| q in s.producers && s.producers[q].ticket == t && s.producers[q].phase != Leave;
      assert q in s'.producers && s'.producers[q].ticket == t;
    }
  }

  /** A producer's steps before it publishes. */
  lemma QuietKeeps(s: State, s': State, p: nat, a: Action)
    requires Inv(s) && Does(s, s', a) && (a == CheckRoom(p) || a == TakeTurn(p))
    ensures Inv(s')
  {
    if s' != s {
      MovesKeepDiffer(s, s', p);
      MovesKeepProducers(s, s', p);
      QuietProducers(s, s', p, a);
      SlotsStay(s, s');
    }
  }

  lemma QuietProducers(s: State, s': State, p: nat, a: Action)
    requires Inv(s) && Does(s, s', a) && (a == CheckRoom(p) || a == TakeTurn(p))
    ensures forall q :: q in s'.producers ==> ProducerOk(s', q)
  {
    forall q | q in s'.producers
      ensures ProducerOk(s', q)
    {
      assert ProducerOk(s, q);
    }
  }

  lemma WriteKeeps(s: State, s': State, p: nat)
    requires Inv(s) && Does(s, s', WriteSlot(p))
    ensures Inv(s')
  {
    MovesKeepDiffer(s, s', p);
    MovesKeepProducers(s, s', p);
    WriteKeepsProducers(s, s', p);
    WriteKeepsSlots(s, s', p);
  }

  lemma WriteKeepsProducers(s: State, s': State, p: nat)
    requires Inv(s) && Does(s, s', WriteSlot(p))
    ensures forall q :: q in s'.producers ==> ProducerOk(s', q)
  {
    // The lock's holder has the only ticket that is not published.
    assert s.mode.Mutex? ==> s.producers[p].ticket == s.mirror == s.put by {
      assert ProducerOk(s, p);
      if s.mode.Mutex? {
        MutexAlone(s, p);
      }
    }
    forall q | q in s'.producers
      ensures ProducerOk(s', q)
    {
      WriteKeepsProducer(s, s', p, q);
    }
  }

  lemma WriteKeepsProducer(s: State, s': State, p: nat, q: nat)
    requires Does(s, s', WriteSlot(p)) && q in s.producers && ProducerOk(s, q)
    requires s.mode.Mutex? ==> s.producers[p].ticket == s.mirror == s.put
    ensures q in s'.producers && ProducerOk(s', q)
  {
  }

  lemma MutexAlone(s: State, p: nat)
    requires Inv(s) && s.mode.Mutex? && p in s.producers
    ensures s.producers[p].ticket >= s.put ==> s.producers[p].ticket == s.mirror == s.put
  {
    assert ProducerOk(s, p);
    assert s.producers.Keys == {p} by {
      assert s.producers.Keys == {p} + (s.producers.Keys - {p});
    }
    if s.producers[p].ticket >= s.put {
      assert HasProducer(s, s.mirror);
    }
  }

  lemma WriteKeepsSlots(s: State, s': State, p: nat)
    requires Inv(s) && Does(s, s', WriteSlot(p))
    ensures forall t :: s'.cur <= t < s'.put ==> InSlot(s', t)
    ensures forall q :: q in s'.producers && HasWritten(s'.producers[q]) ==> InSlot(s', s'.producers[q].ticket)
  {
    assert ProducerOk(s, p);
    forall t | s'.cur <= t < s'.put
      ensures InSlot(s', t)
    {
      assert InSlot(s, t);
      WriteKeepsSlot(s, s', p, t);
    }
    forall q | q in s'.producers && HasWritten(s'.producers[q])
      ensures InSlot(s', s'.producers[q].ticket)
    {
      if q != p {
        assert ProducerOk(s, q) && Differ(s, p, q);
        assert HasWritten(s.producers[q]) && InSlot(s, s.producers[q].ticket);
        WriteKeepsSlot(s, s', p, s.producers[q].ticket);
      }
    }
  }

  lemma PublishKeeps(s: State, s': State, p: nat)
    requires Inv(s) && Does(s, s', Publish(p))
    ensures Inv(s')
  {
    MovesKeepDiffer(s, s', p);
    MovesKeepProducers(s, s', p);
    assert ProducerOk(s, p);
    forall q | q in s'.producers
      ensures ProducerOk(s', q)
    {
      assert ProducerOk(s, q) && Differ(s, p, q);
    }
    PublishKeepsSlots(s, s', p);
  }

  lemma PublishKeepsSlots(s: State, s': State, p: nat)
    requires Inv(s) && Does(s, s', Publish(p))
    ensures forall t :: s'.cur <= t < s'.put ==> InSlot(s', t)
    ensures forall q :: q in s'.producers && HasWritten(s'.producers[q]) ==> InSlot(s', s'.producers[q].ticket)
  {
    assert ProducerOk(s, p) && HasWritten(s.producers[p]) && InSlot(s, s.producers[p].ticket);
    forall t | s'.cur <= t < s'.put
      ensures InSlot(s', t)
    {
      assert t != s.producers[p].ticket ==> InSlot(s, t);
    }
    forall q | q in s'.producers && HasWritten(s'.producers[q])
      ensures InSlot(s', s'.producers[q].ticket)
    {
      assert HasWritten(s.producers[q]) && InSlot(s, s.producers[q].ticket);
    }
  }

  lemma PassTurnProducers(s: State, s': State, p: nat)
    requires Inv(s) && Does(s, s', PassTurn(p))
    ensures forall q :: q in s'.producers ==> ProducerOk(s', q)
  {
    assert ProducerOk(s, p);
    forall q | q in s'.producers
      ensures ProducerOk(s', q)
    {
      assert ProducerOk(s, q) && Differ(s, p, q);
    }
  }

  lemma PassTurnTickets(s: State, s': State, p: nat)
    requires Inv(s) && Does(s, s', PassTurn(p))
    ensures forall t :: s'.mirror <= t < |s'.tickets| ==> HasProducer(s', t)
  {
    assert ProducerOk(s, p);
    forall t | s'.mirror <= t < |s'.tickets|
      ensures HasProducer(s', t)
    {
      assert HasProducer(s, t);
      var q :| q in s.producers && s.producers[q].ticket == t && s.producers[q].phase != Leave;
      assert q in s'.producers && s'.producers[q].ticket == t;
    }
  }

  lemma PassTurnKeeps(s: State, s': State, p: nat)
    requires Inv(s) && Does(s, s', PassTurn(p))
    ensures Inv(s')
  {
    assert ProducerOk(s, p);
    MovesKeepDiffer(s, s', p);
    PassTurnProducers(s, s', p);
    PassTurnTickets(s, s', p);
    SlotsStay(s, s');
  }

  lemma ReturnKeeps(s: State, s': State, p: nat)
    requires Inv(s) && Does(s, s', Return(p))
    ensures Inv(s')
  {
    assert ProducerOk(s, p);
    forall q | q in s'.producers
      ensures ProducerOk(s', q)
    {
      assert ProducerOk(s, q);
    }
    forall q, r
      ensures Differ(s', q, r)
    {
      assert Differ(s, q, r);
    }
    forall t | s'.mirror <= t < |s'.tickets|
      ensures HasProducer(s', t)
    {
      assert HasProducer(s, t);
      var q :| q in s.producers && s.producers[q].ticket == t && s.producers[q].phase != Leave;
      assert q in s'.producers && s'.producers[q].ticket == t;
    }
    SlotsStay(s, s');
  }

  ghost predicate ByEngine(a: Action) {
    a.LoadPut? || a.Fetch? || a.Execute? || a.Fault? || a.FailRetire? || a.Retire?
  }

  lemma EngineCounters(s: State, s': State, a: Action)
    requires Inv(s) && Does(s, s', a) && ByEngine(a)
    ensures CountersOk(s')
  {
    assert a == Execute ==> InSlot(s, s.cur);
  }

  lemma EngineKeeps(s: State, s': State, a: Action)
    requires Inv(s) && Does(s, s', a) && ByEngine(a)
    ensures Inv(s')
  {
    EngineCounters(s, s', a);
    SlotsStay(s, s');
    forall q | q in s'.producers
      ensures ProducerOk(s', q)
    {
      assert ProducerOk(s, q);
    }
    forall q, r
      ensures Differ(s', q, r)
    {
      assert Differ(s, q, r);
    }
    forall t | s'.mirror <= t < |s'.tickets|
      ensures HasProducer(s', t)
    {
      assert HasProducer(s, t);
    }
  }

  lemma StepKeepsInv(s: State, s': State, a: Action)
    requires Inv(s) && Does(s, s', a)
    ensures Inv(s')
  {
    match a
    case Reserve(p, cmd) => ReserveKeeps(s, s', p, cmd);
    case CheckRoom(p) => QuietKeeps(s, s', p, a);
    case WriteSlot(p) => WriteKeeps(s, s', p);
    case TakeTurn(p) => QuietKeeps(s, s', p, a);
    case Publish(p) => PublishKeeps(s, s', p);
    case PassTurn(p) => PassTurnKeeps(s, s', p);
    case Return(p) => ReturnKeeps(s, s', p);
    case _ => EngineKeeps(s, s', a);
  }

  // ---------------------------------------------------------------------------------------------
  // Whole runs
  // ---------------------------------------------------------------------------------------------

  ghost predicate IsRun(run: seq<State>, acts: seq<Action>) {
    Runs.IsRun(run, acts, Init, Does)
  }

  lemma RunKeepsInv(run: seq<State>, acts: seq<Action>, k: nat)
    requires IsRun(run, acts) && k < |run|
    ensures Inv(run[k])
  {
    forall s, s', a | Inv(s) && Does(s, s', a)
      ensures Inv(s')
    {
      StepKeepsInv(s, s', a);
    }
    Runs.KeepInvariant(run, acts, Init, Does, Inv, k);
  }

  /** The engine takes the commands in ticket order, each exactly once: entry i of its log is the end of ticket
      i, run or failed, and the log is as long as the cursor. PutNeverGoesBack adds that entries stay. */
  lemma ExecutesInTicketOrder(run: seq<State>, acts: seq<Action>, k: nat)
    requires IsRun(run, acts) && k < |run|
    ensures run[k].get <= |run[k].log| <= run[k].get + 1 && |run[k].log| <= |run[k].tickets|
    ensures forall i :: 0 <= i < |run[k].log| && run[k].log[i].Ran? ==> run[k].log[i] == Ran(run[k].tickets[i])
  {
    RunKeepsInv(run, acts, k);
  }

  ghost function Failures(log: seq<Outcome>): (n: nat) {
    if log == [] then 0 else Failures(log[..|log| - 1]) + if log[|log| - 1] == Failed then 1 else 0
  }

  ghost function FailRetires(acts: seq<Action>): (n: nat) {
    if acts == [] then 0 else FailRetires(acts[..|acts| - 1]) + if acts[|acts| - 1] == FailRetire then 1 else 0
  }

  /** What a step adds to the log. */
  lemma StepLogs(s: State, s': State, a: Action)
    requires Inv(s) && Does(s, s', a)
    ensures a == Execute ==> |s.log| < |s.tickets| && s'.log == s.log + [Ran(s.tickets[|s.log|])]
    ensures a == FailRetire ==> s'.log == s.log + [Failed]
    ensures a != Execute && a != FailRetire ==> s'.log == s.log
  {
    if a == Execute {
      assert InSlot(s, s.cur);
    }
  }

  lemma StepFails(s: State, s': State, a: Action)
    requires Inv(s) && Does(s, s', a)
    ensures Failures(s'.log) == Failures(s.log) + if a == FailRetire then 1 else 0
  {
    StepLogs(s, s', a);
    assert s'.log != s.log ==> s'.log[..|s'.log| - 1] == s.log;
  }

  lemma FailRetiresGrow(acts: seq<Action>, a: Action)
    ensures FailRetires(acts + [a]) == FailRetires(acts) + if a == FailRetire then 1 else 0
  {
    assert (acts + [a])[..|acts|] == acts;
  }

  /** In every run exactly as many commands have failed as migrations failed for the head. */
  lemma {:induction false} FailuresCounted(run: seq<State>, acts: seq<Action>, k: nat)
    requires IsRun(run, acts) && k < |run|
    ensures Failures(run[k].log) == FailRetires(acts[..k])
  {
    if k > 0 {
      FailuresCounted(run, acts, k - 1);
      RunKeepsInv(run, acts, k - 1);
      assert Runs.StepAt(run, acts, Does, k - 1);
      StepFails(run[k - 1], run[k], acts[k - 1]);
      assert acts[..k] == acts[..k - 1] + [acts[k - 1]];
      FailRetiresGrow(acts[..k - 1], acts[k - 1]);
    }
  }

  /** So without failed migrations every command is run: entry i of the log is ticket i's command. */
  lemma {:induction false} EveryCommandRuns(run: seq<State>, acts: seq<Action>, k: nat)
    requires IsRun(run, acts) && k < |run| && forall j :: 0 <= j < k ==> acts[j] != FailRetire
    ensures |run[k].log| <= |run[k].tickets| && AllRan(run[k], 0)
  {
    RunKeepsInv(run, acts, k);
    if k > 0 {
      EveryCommandRuns(run, acts, k - 1);
      RunKeepsInv(run, acts, k - 1);
      assert Runs.StepAt(run, acts, Does, k - 1);
      StepLogs(run[k - 1], run[k], acts[k - 1]);
      StepIsMonotone(run[k - 1], run[k], acts[k - 1]);
    }
  }

  /** From entry `from` on, the log says that the commands ran. */
  ghost predicate AllRan(s: State, from: nat) {
    forall i :: from <= i < |s.log| && i < |s.tickets| ==> s.log[i] == Ran(s.tickets[i])
  }

  /** The device's PUT never goes back and never falls behind GET or the engine's cursor, which never go
      back either; and a ticket keeps its command. */
  lemma {:induction false} PutNeverGoesBack(run: seq<State>, acts: seq<Action>, i: nat, j: nat)
    requires IsRun(run, acts) && i <= j < |run|
    ensures run[i].put <= run[j].put
            && run[i].get <= run[j].get <= run[j].cur <= run[j].put <= run[j].get + run[j].depth
    ensures run[i].tickets <= run[j].tickets && run[i].log <= run[j].log
  {
    RunKeepsInv(run, acts, j);
    if i < j {
      PutNeverGoesBack(run, acts, i, j - 1);
      RunKeepsInv(run, acts, j - 1);
      assert Runs.StepAt(run, acts, Does, j - 1);
      StepIsMonotone(run[j - 1], run[j], acts[j - 1]);
    }
  }

  lemma StepIsMonotone(s: State, s': State, a: Action)
    requires Inv(s) && Does(s, s', a)
    ensures s.put <= s'.put && s.get <= s'.get && s.tickets <= s'.tickets && s.log <= s'.log
  {
    if a.Publish? {
      assert ProducerOk(s, a.p);
    }
  }

  /** No slot is overwritten before its previous command has retired, and a store to a slot leaves every
      command that has been published and not retired where it is. */
  lemma NoOverwrite(run: seq<State>, acts: seq<Action>, k: nat, t: nat)
    requires IsRun(run, acts) && k < |acts| && acts[k].WriteSlot?
    ensures var s := run[k];
            && acts[k].p in s.producers && Sized(s)
            && var u := s.producers[acts[k].p].ticket;
            && (t < u && t % s.depth == u % s.depth ==> t < s.get)
            && (s.cur <= t < s.put ==> InSlot(s, t) && InSlot(run[k + 1], t))
  {
    var s := run[k];
    RunKeepsInv(run, acts, k);
    RunKeepsInv(run, acts, k + 1);
    assert Runs.StepAt(run, acts, Does, k) && ProducerOk(s, acts[k].p);
    var u := s.producers[acts[k].p].ticket;
    if t < u && t % s.depth == u % s.depth && s.get <= t {
      SlotsDiffer(s.depth, t, u);
    }
  }

  // ---------------------------------------------------------------------------------------------
  // Progress
  // ---------------------------------------------------------------------------------------------

  /** A step of producer `p` in `enqueue`. */
  ghost predicate StepsOf(a: Action, p: nat) {
    a == CheckRoom(p) || a == WriteSlot(p) || a == TakeTurn(p) || a == Publish(p) || a == PassTurn(p)
  }

  /** Steps that get work done; the rest are new commands, faults and failures, and returns of producers. */
  ghost predicate Works(s: State, s': State, a: Action) {
    Does(s, s', a) && !a.Reserve? && !a.Fault? && !a.FailRetire? && !a.Return?
  }

  /** The ring never jams: whenever a command has a ticket but is not published, and the engine has nothing
      to retire, the producer whose turn it is can take its next step, and gets further by it. */
  lemma NeverStuck(s: State) returns (p: nat, a: Action, s': State)
    requires Inv(s) && s.mirror < |s.tickets| && s.get == s.put
    ensures p in s.producers && s.producers[p].ticket == s.mirror && StepsOf(a, p) && Works(s, s', a)
    ensures s' == Moved(s, p, s'.producers[p].phase).(slots := s'.slots, put := s'.put, mirror := s'.mirror)
    ensures Ahead(s'.producers[p].phase) < Ahead(s.producers[p].phase)
  {
    assert HasProducer(s, s.mirror);
    p :| p in s.producers && s.producers[p].ticket == s.mirror && s.producers[p].phase != Leave;
    assert ProducerOk(s, p);
    a, s' := TurnStep(s, p);
  }

  /** Accesses that a producer has before it. */
  function Ahead(phase: Phase): (n: nat) {
    match phase
    case Check => 5
    case Write => 4
    case AwaitTurn => 3
    case StorePut => 2
    case StoreMirror => 1
    case Leave => 0
  }

  lemma TurnStep(s: State, p: nat) returns (a: Action, s': State)
    requires Inv(s) && p in s.producers && s.producers[p].ticket == s.mirror && s.producers[p].phase != Leave
    requires s.producers[p].phase == Check ==> s.get == s.put
    ensures StepsOf(a, p) && Works(s, s', a) && p in s'.producers
            && Ahead(s'.producers[p].phase) < Ahead(s.producers[p].phase)
    ensures s' == Moved(s, p, s'.producers[p].phase).(slots := s'.slots, put := s'.put, mirror := s'.mirror)
    ensures s'.mirror == if s'.producers[p].phase == Leave then s.mirror + 1 else s.mirror
  {
    assert ProducerOk(s, p);
    var q := s.producers[p];
    match q.phase
    case Check => a, s' := CheckRoom(p), Moved(s, p, Write);
    case Write =>
      a := WriteSlot(p);
      s' := Moved(s, p, if s.mode.Ticket? then AwaitTurn else StorePut).(slots := s.slots[Slot(s, q.ticket) := q.cmd]);
    case AwaitTurn => a, s' := TakeTurn(p), Moved(s, p, StorePut);
    case StorePut => a, s' := Publish(p), Moved(s, p, StoreMirror).(put := q.ticket + 1);
    case StoreMirror => a, s' := PassTurn(p), Moved(s, p, Leave).(mirror := q.ticket + 1);
  }

  /** Whose turn it is publishes, and hands the turn on. */
  lemma {:induction false} TurnEnds(s: State, p: nat) returns (t: State)
    requires Inv(s) && p in s.producers && s.producers[p].ticket == s.mirror && s.producers[p].phase != Leave
    requires s.producers[p].phase == Check ==> s.get == s.put
    ensures Runs.Reaches(s, t, Works) && Inv(t) && t.tickets == s.tickets && t.get == s.get && t.mirror == s.mirror + 1
    ensures t.log == s.log
    decreases Ahead(s.producers[p].phase)
  {
    var a, s' := TurnStep(s, p);
    StepKeepsInv(s, s', a);
    if s'.producers[p].phase == Leave {
      t := s';
      Runs.ReachesItself(t, Works);
    } else {
      t := TurnEnds(s', p);
    }
    Runs.StepReaches(s, a, s', t, Works);
  }

  /** Accesses the engine has before it retires a command. */
  ghost function EngineAhead(s: State): (n: nat) {
    if s.cur > s.get then 0 else if s.running.Some? then 1 else if s.seen != s.cur then 2 else 3
  }

  lemma EngineStep(s: State) returns (a: Action, s': State)
    requires Inv(s) && s.get < s.put
    ensures Works(s, s', a) && s'.tickets == s.tickets && s'.mirror == s.mirror
    ensures if s.cur > s.get then s'.get == s.get + 1
            else s'.get == s.get && s'.put == s.put && EngineAhead(s') < EngineAhead(s)
    ensures s'.log == s.log || (|s.log| < |s.tickets| && s'.log == s.log + [Ran(s.tickets[|s.log|])])
  {
    if s.cur > s.get {
      a, s' := Retire, s.(get := s.cur);
    } else if s.running.Some? {
      a, s' := Execute, s.(running := None, log := s.log + [Ran(s.slots[Slot(s, s.cur)])], cur := s.cur + 1);
    } else if s.seen != s.cur {
      a, s' := Fetch, s.(running := Some(s.slots[Slot(s, s.cur)]));
    } else {
      a, s' := LoadPut, s.(seen := s.put);
    }
    StepLogs(s, s', a);
  }

  /** The engine runs what is published, and retires it. */
  lemma {:induction false} EngineRetires(s: State) returns (t: State)
    requires Inv(s) && s.get < s.put
    ensures Runs.Reaches(s, t, Works) && Inv(t) && t.tickets == s.tickets && t.mirror == s.mirror && t.get == s.get + 1
    ensures s.log <= t.log && AllRan(t, |s.log|)
    decreases EngineAhead(s)
  {
    var a, s' := EngineStep(s);
    StepKeepsInv(s, s', a);
    if s.cur > s.get {
      t := s';
      Runs.ReachesItself(t, Works);
    } else {
      t := EngineRetires(s');
    }
    Runs.StepReaches(s, a, s', t, Works);
  }

  /** From every reachable state producers and engine can finish: every command that has a ticket is published
      and retired, and those that were not taken yet have run. */
  lemma {:induction false} Drains(s: State) returns (t: State)
    requires Inv(s)
    ensures Runs.Reaches(s, t, Works) && Inv(t) && t.tickets == s.tickets && t.get == |t.tickets|
    ensures s.log <= t.log && |t.log| == |t.tickets| == t.mirror && AllRan(t, |s.log|)
    decreases |s.tickets| - s.get, |s.tickets| - s.mirror
  {
    if s.get < s.put {
      var u := EngineRetires(s);
      t := Drains(u);
      Runs.ReachesOn(s, u, t, Works);
    } else if s.mirror < |s.tickets| {
      assert HasProducer(s, s.mirror);
      var p :| p in s.producers && s.producers[p].ticket == s.mirror && s.producers[p].phase != Leave;
      var u := TurnEnds(s, p);
      t := Drains(u);
      Runs.ReachesOn(s, u, t, Works);
    } else {
      t := s;
      Runs.ReachesItself(t, Works);
    }
  }

  /** With every ticket published, producers have only to return: the lock is free. */
  lemma {:induction false} AllReturn(s: State) returns (t: State)
    requires Inv(s) && s.mirror == |s.tickets|
    ensures Runs.Reaches(s, t, Does) && Inv(t) && t == s.(producers := map[])
    decreases |s.producers|
  {
    if s.producers == map[] {
      t := s;
      Runs.ReachesItself(t, Does);
    } else {
      var p :| p in s.producers;
      assert ProducerOk(s, p);
      var s' := s.(producers := s.producers - {p});
      assert |s.producers| == |s.producers - {p}| + 1 by {
        assert s.producers.Keys == (s.producers - {p}).Keys + {p};
      }
      StepKeepsInv(s, s', Return(p));
      t := AllReturn(s');
      Runs.StepReaches(s, Return(p), s', t, Does);
    }
  }

  lemma WorksIsDoes(s: State, t: State)
    requires Runs.Reaches(s, t, Works)
    ensures Runs.Reaches(s, t, Does)
  {
    var run, acts :| Runs.IsPath(run, acts, Works) && run[0] == s && run[|run| - 1] == t;
    forall k: nat | k < |acts|
      ensures Runs.StepAt(run, acts, Does, k)
    {
      assert Runs.StepAt(run, acts, Works, k);
    }
    assert Runs.IsPath(run, acts, Does);
  }

  /** From every reachable state a new command can be enqueued, published, run and retired, in either mode. */
  lemma EnqueueRuns(s: State, p: nat, cmd: Command) returns (t: State)
    requires Inv(s)
    ensures Runs.Reaches(s, t, Does) && Inv(t) && t.tickets == s.tickets + [cmd] && t.get == |t.tickets| == |t.log|
    ensures t.log[|s.tickets|] == Ran(cmd)
  {
    var u := Drains(s);
    WorksIsDoes(s, u);
    var v := AllReturn(u);
    var ticket := if v.mode.Ticket? then |v.tickets| else v.mirror;
    var w := v.(tickets := v.tickets + [cmd], producers := v.producers[p := Producer(ticket, cmd, Check)]);
    assert Does(v, w, Reserve(p, cmd));
    StepKeepsInv(v, w, Reserve(p, cmd));
    t := Drains(w);
    WorksIsDoes(w, t);
    Runs.StepReaches(v, Reserve(p, cmd), w, t, Does);
    Runs.ReachesOn(u, v, t, Does);
    Runs.ReachesOn(s, u, t, Does);
  }

  // ---------------------------------------------------------------------------------------------
  // The slot index
  // ---------------------------------------------------------------------------------------------

  function BitAnd(x: nat, y: nat): (r: nat) {
    if x == 0 || y == 0 then 0 else 2 * BitAnd(x / 2, y / 2) + (x % 2) * (y % 2)
  }

  function Pow2(k: nat): (r: nat)
    ensures r > 0
  {
    if k == 0 then 1 else 2 * Pow2(k - 1)
  }

  /** For a power-of-two depth, masking a ticket with depth - 1 gives its slot. */
  lemma {:induction false} MaskIsSlot(ticket: nat, k: nat)
    ensures BitAnd(ticket, Pow2(k) - 1) == ticket % Pow2(k)
  {
    if k == 0 {
      assert ticket % 1 == 0;
    } else if ticket == 0 {
      ModIs(0, Pow2(k), 0, 0);
    } else {
      var m := Pow2(k - 1);
      MaskIsSlot(ticket / 2, k - 1);
      LowBit(ticket, m);
      HalfMod(ticket, m);
    }
  }

  lemma LowBit(x: nat, m: nat)
    requires m > 0 && x > 0
    ensures BitAnd(x, 2 * m - 1) == 2 * BitAnd(x / 2, m - 1) + x % 2
  {
    var y := 2 * m - 1;
    assert y / 2 == m - 1 && y % 2 == 1;
  }

  lemma HalfMod(x: nat, m: nat)
    requires m > 0
    ensures x % (2 * m) == 2 * ((x / 2) % m) + x % 2
  {
    var h := x / 2;
    var q := h / m;
    assert h == m * q + h % m;
    assert x == (2 * m) * q + (2 * (h % m) + x % 2) by {
      assert 2 * (m * q) == (2 * m) * q;
    }
    ModIs(x, 2 * m, q, 2 * (h % m) + x % 2);
  }
}
