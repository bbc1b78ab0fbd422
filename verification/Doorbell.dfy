/**
  Engines that go to sleep, and those who must wake them: producers and unparkers ringing the doorbell, and
  other engines whose retirements satisfy a WAIT_FENCE. Each step is one atomic access.
*/
module Doorbell {
  import opened Base
  import Runs

  datatype Command = Work | Wait(channel: nat, value: nat)

  /** `engine` serves the channel; `seen` is the PUT its last scan loaded. */
  datatype Channel = Channel(engine: nat, cmds: seq<Command>, get: nat, parked: bool, seen: nat)

  /** Where an engine stands. `LoadCount`, `Visit` and `Ring` are wake_blocked_sleepers after a retirement;
      the rest is the way into sleep and out of it. */
  datatype Phase =
    | Run
    | LoadCount
    | Visit(i: nat)
    | Ring(i: nat)
    | Arm
    | Flag
    | Count
    | Recheck(c: nat)
    | RecheckPut(c: nat)
    | RecheckHead(c: nat)
    | Asleep
    | Disarm
    | Unflag
    | Uncount

  /** `bell` is the sequence of the doorbell event, `bellSeen` the value sampled before arming. */
  datatype Engine = Engine(phase: Phase, bell: nat, bellSeen: nat, pending: bool, asleep: bool, asleepBlocked: bool)

  /** A producer or unparker of channel `c`, after its store: it loads `asleep`, and then may ring. */
  datatype Agent = Agent(c: nat, ringing: bool)

  datatype State = State(engines: seq<Engine>, chans: seq<Channel>, agents: map<nat, Agent>, numAsleepBlocked: nat)

  datatype Action =
    | Publish(p: nat, c: nat, cmd: Command)
    | Unpark(p: nat, c: nat)
    | LoadAsleep(p: nat)
    | RingBell(p: nat)
    | Scan(c: nat)
    | Park(c: nat)
    | Retire(c: nat)
    | Wake(e: nat)
    | GoIdle(e: nat)
    | Sleep(e: nat)
    | Timeout(e: nat)

  ghost predicate Passed(s: State, channel: nat, value: nat) {
    channel < |s.chans| && value <= s.chans[channel].get
  }

  ghost predicate Ready(s: State, cmd: Command) {
    cmd.Wait? ==> Passed(s, cmd.channel, cmd.value)
  }

  ghost predicate Ch(s: State, c: nat) {
    c < |s.chans| && s.chans[c].engine < |s.engines| && s.chans[c].get <= |s.chans[c].cmds|
  }

  function Put(s: State, c: nat): (r: nat)
    requires c < |s.chans|
  {
    |s.chans[c].cmds|
  }

  /** A PUT has come in that the engine has not seen. */
  ghost predicate NewPut(s: State, c: nat)
    requires Ch(s, c)
  {
    !s.chans[c].parked && Put(s, c) != s.chans[c].seen
  }

  /** A command that the engine has seen and could not run can run now. */
  ghost predicate ReadyHead(s: State, c: nat)
    requires Ch(s, c)
  {
    var k := s.chans[c];
    !k.parked && Put(s, c) == k.seen && k.get < k.seen && Ready(s, k.cmds[k.get])
  }

  function SetChan(s: State, c: nat, k: Channel): (r: State)
    requires c < |s.chans|
  {
    s.(chans := s.chans[c := k])
  }

  function SetEngine(s: State, e: nat, x: Engine): (r: State)
    requires e < |s.engines|
  {
    s.(engines := s.engines[e := x])
  }

  function SetPhase(s: State, e: nat, phase: Phase): (r: State)
    requires e < |s.engines|
  {
    SetEngine(s, e, s.engines[e].(phase := phase))
  }

  function Rung(s: State, e: nat): (r: State)
    requires e < |s.engines|
  {
    SetEngine(s, e, s.engines[e].(bell := s.engines[e].bell + 1))
  }

  ghost predicate Running(s: State, c: nat) {
    Ch(s, c) && s.engines[s.chans[c].engine].phase == Run
  }

  /** wake_blocked_sleepers: where an engine on its round goes next. */
  ghost function NextVisit(s: State, e: nat): (r: Phase)
    requires e < |s.engines|
  {
    match s.engines[e].phase
    case LoadCount => if s.numAsleepBlocked == 0 then Run else Visit(0)
    case Visit(i) =>
      if i >= |s.engines| then Run else if i != e && s.engines[i].asleepBlocked then Ring(i)
      else Visit(i + 1)
    case Ring(i) => Visit(i + 1)
    case other => other
  }

  /** One access of wake_blocked_sleepers. */
  ghost predicate DoesWake(s: State, s': State, e: nat) {
    && e < |s.engines|
    && var p := s.engines[e].phase;
       && (p.LoadCount? || p.Visit? || (p.Ring? && p.i < |s.engines|))
       && s' == SetPhase(if p.Ring? then Rung(s, p.i) else s, e, NextVisit(s, e))
  }

  ghost predicate Owned(s: State, e: nat, c: nat) {
    Ch(s, c) && s.chans[c].engine == e
  }

  /** The next state of an engine on its way into sleep or out of it. The futex sleeps only if the sequence
      is still the sampled one; a sleeper gets up for a signal, or for the timeout of 1 ms, which is an action
      of its own. */
  ghost function NextSleeper(s: State, e: nat): (r: Engine)
    requires e < |s.engines|
  {
    var x := s.engines[e];
    match x.phase
    case Arm => x.(asleep := true, phase := if x.pending then Flag else Recheck(0))
    case Flag => x.(asleepBlocked := true, phase := Count)
    case Count => x.(phase := Recheck(0))
    case Recheck(c) =>
      x.(phase := if c >= |s.chans| then (if x.bell == x.bellSeen then Asleep else Disarm)
                  else if !Owned(s, e, c) || s.chans[c].parked then Recheck(c + 1)
                  else RecheckPut(c))
    case RecheckPut(c) =>
      x.(phase := if !Owned(s, e, c) || Put(s, c) != s.chans[c].seen then Disarm
                  else if Put(s, c) == s.chans[c].get then Recheck(c + 1)
                  else RecheckHead(c))
    case RecheckHead(c) =>
      x.(phase := if !Owned(s, e, c) || s.chans[c].get >= Put(s, c) || Ready(s, s.chans[c].cmds[s.chans[c].get])
          then Disarm else Recheck(c + 1))
    case Asleep => x.(phase := Disarm)
    case Disarm => x.(asleep := false, phase := if x.pending then Unflag else Run)
    case Unflag => x.(asleepBlocked := false, phase := Uncount)
    case Uncount => x.(phase := Run)
    case _ => x
  }

  /** One access on the way into sleep and out of it. */
  ghost predicate DoesSleep(s: State, s': State, e: nat) {
    && e < |s.engines| && InSleepCode(s.engines[e].phase)
    && (s.engines[e].phase == Uncount ==> s.numAsleepBlocked > 0)
    && (s.engines[e].phase == Asleep ==> s.engines[e].bell != s.engines[e].bellSeen)
    && s' == SetEngine(s, e, NextSleeper(s, e)).(numAsleepBlocked :=
               if s.engines[e].phase == Count then s.numAsleepBlocked + 1
               else if s.engines[e].phase == Uncount then s.numAsleepBlocked - 1
               else s.numAsleepBlocked)
  }

  ghost predicate InSleepCode(p: Phase) {
    GoesToSleep(p) || p == Disarm || p == Unflag || p == Uncount
  }

  ghost predicate Does(s: State, s': State, a: Action) {
    match a
    case Publish(p, c, cmd) =>
      p !in s.agents && Ch(s, c)
      && s' == SetChan(s, c, s.chans[c].(cmds := s.chans[c].cmds + [cmd])).(agents := s.agents[p := Agent(c, false)])
    case Unpark(p, c) =>
      && p !in s.agents && Ch(s, c)
      && s' == SetChan(s, c, s.chans[c].(parked := false)).(agents := s.agents[p := Agent(c, false)])
    case LoadAsleep(p) =>
      && p in s.agents && !s.agents[p].ringing && Ch(s, s.agents[p].c)
      && s' == s.(agents := if s.engines[s.chans[s.agents[p].c].engine].asleep
          then s.agents[p := s.agents[p].(ringing := true)] else s.agents - {p})
    case RingBell(p) =>
      && p in s.agents && s.agents[p].ringing && Ch(s, s.agents[p].c)
      && s' == Rung(s, s.chans[s.agents[p].c].engine).(agents := s.agents - {p})
    case Scan(c) => Running(s, c) && s' == SetChan(s, c, s.chans[c].(seen := Put(s, c)))
    case Park(c) => Running(s, c) && s' == SetChan(s, c, s.chans[c].(parked := true))
    case Retire(c) =>
      && Running(s, c) && !s.chans[c].parked && s.chans[c].get < Put(s, c) && Ready(s, s.chans[c].cmds[s.chans[c].get])
      && s' == SetPhase(SetChan(s, c, s.chans[c].(get := s.chans[c].get + 1)), s.chans[c].engine, LoadCount)
    case Wake(e) => DoesWake(s, s', e)
    // `pending`: some channel has commands that the engine could not run.
    case GoIdle(e) =>
      && e < |s.engines| && s.engines[e].phase == Run
      && s' == SetEngine(s, e, s.engines[e].(phase := Arm, bellSeen := s.engines[e].bell,
                                             pending := exists c: nat ::
                                                 Owned(s, e, c) && s.chans[c].seen != s.chans[c].get))
    case Sleep(e) => DoesSleep(s, s', e)
    case Timeout(e) => e < |s.engines| && s.engines[e].phase == Asleep && s' == SetPhase(s, e, Disarm)
  }

  // ---------------------------------------------------------------------------------------------
  // Invariant
  // ---------------------------------------------------------------------------------------------

  /** Channel `c` has passed the re-check of engine `e`. */
  ghost predicate Checked(s: State, e: nat, c: nat)
    requires e < |s.engines|
  {
    match s.engines[e].phase
    case Recheck(i) => c < i
    case RecheckPut(i) => c < i
    case RecheckHead(i) => c < i
    case Asleep => true
    case _ => false
  }

  /** A producer or unparker of `c` is between its store and its ring. */
  ghost predicate AgentInWindow(s: State, c: nat) {
    exists p :: p in s.agents && s.agents[p].c == c
  }

  /** Engine `r` has retired a command and has yet to come to engine `e` in its wake-up round. */
  ghost predicate WillVisit(s: State, r: nat, e: nat) {
    && r < |s.engines| && r != e
    && match s.engines[r].phase
       case LoadCount => true
       case Visit(i) => i <= e
       case Ring(i) => i <= e
       case _ => false
  }

  ghost predicate ToBeVisited(s: State, e: nat) {
    exists r :: WillVisit(s, r, e)
  }

  ghost predicate BellRung(s: State, e: nat)
    requires e < |s.engines|
  {
    s.engines[e].bell != s.engines[e].bellSeen
  }

  ghost predicate Covered(s: State, e: nat, c: nat)
    requires e < |s.engines|
  {
    Owned(s, e, c) && !BellRung(s, e) && !AgentInWindow(s, c) ==>
      !NewPut(s, c) && (ReadyHead(s, c) ==> ToBeVisited(s, e))
  }

  ghost predicate Sleepy(p: Phase) {
    p.Recheck? || p.RecheckPut? || p.RecheckHead? || p.Asleep?
  }

  ghost predicate Counted(x: Engine) {
    x.pending && (Sleepy(x.phase) || x.phase == Disarm || x.phase == Unflag || x.phase == Uncount)
  }

  ghost predicate EngineOk(x: Engine) {
    && (x.asleep <==> x.phase == Flag || x.phase == Count || Sleepy(x.phase) || x.phase == Disarm)
    && (x.asleepBlocked <==>
        x.phase == Count || (x.pending && (Sleepy(x.phase) || x.phase == Disarm || x.phase == Unflag)))
    && (x.phase == Flag || x.phase == Count || x.phase == Unflag || x.phase == Uncount ==> x.pending)
    && x.bellSeen <= x.bell
  }

  ghost predicate GoesToSleep(p: Phase) {
    p == Arm || p == Flag || p == Count || Sleepy(p)
  }

  ghost predicate ChannelOk(s: State, c: nat)
    requires c < |s.chans|
  {
    && Ch(s, c) && s.chans[c].seen <= Put(s, c)
    && (GoesToSleep(s.engines[s.chans[c].engine].phase) && s.chans[c].seen != s.chans[c].get ==>
        s.engines[s.chans[c].engine].pending)
  }

  /** In RecheckHead the PUT has been compared: if it has moved on since, its producer is in the window. */
  ghost predicate HalfChecked(s: State, e: nat)
    requires e < |s.engines|
  {
    s.engines[e].phase.RecheckHead? ==>
      var c := s.engines[e].phase.c;
      Owned(s, e, c) ==> Put(s, c) == s.chans[c].seen || AgentInWindow(s, c) || BellRung(s, e)
  }

  ghost function CountedSet(s: State): (r: set<nat>) {
    set e | 0 <= e < |s.engines| && Counted(s.engines[e])
  }

  ghost predicate Inv(s: State) {
    && (forall c :: 0 <= c < |s.chans| ==> ChannelOk(s, c))
    && (forall e :: 0 <= e < |s.engines| ==> EngineOk(s.engines[e]) && HalfChecked(s, e))
    && (forall e, c :: 0 <= e < |s.engines| && 0 <= c < |s.chans| && Checked(s, e, c) ==> Covered(s, e, c))
    && (forall p :: p in s.agents ==> Ch(s, s.agents[p].c))
    && s.numAsleepBlocked == |CountedSet(s)|
  }

  ghost predicate Init(s: State) {
    && (forall c :: 0 <= c < |s.chans| ==> Ch(s, c) && s.chans[c] == Channel(s.chans[c].engine, [], 0, false, 0))
    && (forall e :: 0 <= e < |s.engines| ==> s.engines[e] == Engine(Run, 0, 0, false, false, false))
    && s.agents == map[] && s.numAsleepBlocked == 0
  }

  // ---------------------------------------------------------------------------------------------
  // Each step
  // ---------------------------------------------------------------------------------------------

  lemma SameCounted(s: State, s': State)
    requires |s'.engines| == |s.engines|
             && forall e :: 0 <= e < |s.engines| ==> (Counted(s'.engines[e]) <==> Counted(s.engines[e]))
    ensures CountedSet(s') == CountedSet(s)
  {
  }

  /** A producer, an unparker or another engine's scan: engines other than the owner notice nothing. */
  lemma WindowStays(s: State, s': State, p: nat, c: nat)
    requires p !in s.agents && s'.agents == s.agents[p := Agent(c, false)]
    ensures AgentInWindow(s', c) && forall d :: AgentInWindow(s, d) ==> AgentInWindow(s', d)
  {
    assert p in s'.agents && s'.agents[p].c == c;
    forall d | AgentInWindow(s, d)
      ensures AgentInWindow(s', d)
    {
      var q :| q in s.agents && s.agents[q].c == d;
      assert q in s'.agents && s'.agents[q].c == d;
    }
  }

  lemma VisitsStay(s: State, s': State)
    requires |s'.engines| == |s.engines|
             && forall e :: 0 <= e < |s.engines| ==> s'.engines[e].phase == s.engines[e].phase
    ensures forall e: nat :: ToBeVisited(s, e) ==> ToBeVisited(s', e)
  {
    forall e: nat | ToBeVisited(s, e)
      ensures ToBeVisited(s', e)
    {
      var r :| WillVisit(s, r, e);
      assert WillVisit(s', r, e);
    }
  }

  lemma StoreKeeps(s: State, s': State, a: Action)
    requires Inv(s) && Does(s, s', a) && (a.Publish? || a.Unpark?)
    ensures Inv(s')
  {
    WindowStays(s, s', a.p, a.c);
    VisitsStay(s, s');
    SameCounted(s, s');
    forall c | 0 <= c < |s'.chans|
      ensures ChannelOk(s', c)
    {
      assert ChannelOk(s, c);
    }
    forall e | 0 <= e < |s'.engines|
      ensures EngineOk(s'.engines[e]) && HalfChecked(s', e)
    {
      assert EngineOk(s.engines[e]) && HalfChecked(s, e);
    }
    forall e, c | 0 <= e < |s'.engines| && 0 <= c < |s'.chans| && Checked(s', e, c)
      ensures Covered(s', e, c)
    {
      assert Checked(s, e, c) && Covered(s, e, c) && ChannelOk(s, c);
    }
  }

  lemma LoadAsleepKeeps(s: State, s': State, p: nat)
    requires Inv(s) && Does(s, s', LoadAsleep(p))
    ensures Inv(s')
  {
    var d := s.agents[p].c;
    var owner := s.chans[d].engine;
    assert EngineOk(s.engines[owner]);
    VisitsStay(s, s');
    SameCounted(s, s');
    forall c | AgentInWindow(s, c) && (c != d || s.engines[owner].asleep)
      ensures AgentInWindow(s', c)
    {
      var q :| q in s.agents && s.agents[q].c == c;
      assert q in s'.agents && s'.agents[q].c == c;
    }
    forall c | 0 <= c < |s'.chans|
      ensures ChannelOk(s', c)
    {
      assert ChannelOk(s, c);
    }
    forall e | 0 <= e < |s'.engines|
      ensures EngineOk(s'.engines[e]) && HalfChecked(s', e)
    {
      assert EngineOk(s.engines[e]) && HalfChecked(s, e);
    }
    forall e, c | 0 <= e < |s'.engines| && 0 <= c < |s'.chans| && Checked(s', e, c)
      ensures Covered(s', e, c)
    {
      assert Checked(s, e, c) && Covered(s, e, c) && EngineOk(s.engines[e]);
    }
  }

  lemma RingBellCovered(s: State, s': State, p: nat, e: nat, c: nat)
    requires Inv(s) && Does(s, s', RingBell(p)) && e < |s.engines| && c < |s.chans| && Checked(s, e, c)
    ensures Covered(s', e, c)
  {
    assert Covered(s, e, c) && EngineOk(s.engines[e]);
    VisitsStay(s, s');
    if AgentInWindow(s, c) && c != s.agents[p].c {
      var q :| q in s.agents && s.agents[q].c == c;
      assert q in s'.agents && s'.agents[q].c == c;
    }
  }

  lemma RingBellKeeps(s: State, s': State, p: nat)
    requires Inv(s) && Does(s, s', RingBell(p))
    ensures Inv(s')
  {
    var d := s.agents[p].c;
    SameCounted(s, s');
    forall c | AgentInWindow(s, c) && c != d
      ensures AgentInWindow(s', c)
    {
      var q :| q in s.agents && s.agents[q].c == c;
      assert q in s'.agents && s'.agents[q].c == c;
    }
    forall c | 0 <= c < |s'.chans|
      ensures ChannelOk(s', c)
    {
      assert ChannelOk(s, c);
    }
    forall e | 0 <= e < |s'.engines|
      ensures EngineOk(s'.engines[e]) && HalfChecked(s', e)
    {
      assert EngineOk(s.engines[e]) && HalfChecked(s, e);
    }
    forall e, c | 0 <= e < |s'.engines| && 0 <= c < |s'.chans| && Checked(s', e, c)
      ensures Covered(s', e, c)
    {
      RingBellCovered(s, s', p, e, c);
    }
  }

  lemma RunningStepCovered(s: State, s': State, a: Action, e: nat, d: nat)
    requires Inv(s) && Does(s, s', a) && (a.Scan? || a.Park?)
    requires e < |s.engines| && d < |s.chans| && Checked(s, e, d)
    ensures Covered(s', e, d)
  {
    assert Covered(s, e, d) && ChannelOk(s, d);
    assert d == a.c ==> !Owned(s, e, d);
    assert AgentInWindow(s, d) ==> AgentInWindow(s', d);
    VisitsStay(s, s');
  }

  lemma RunningStepKeeps(s: State, s': State, a: Action)
    requires Inv(s) && Does(s, s', a) && (a.Scan? || a.Park?)
    ensures Inv(s')
  {
    SameCounted(s, s');
    forall c | 0 <= c < |s'.chans|
      ensures ChannelOk(s', c)
    {
      assert ChannelOk(s, c);
    }
    forall e | 0 <= e < |s'.engines|
      ensures EngineOk(s'.engines[e]) && HalfChecked(s', e)
    {
      assert EngineOk(s.engines[e]) && HalfChecked(s, e);
      assert forall d :: AgentInWindow(s, d) ==> AgentInWindow(s', d);
    }
    forall e, c | 0 <= e < |s'.engines| && 0 <= c < |s'.chans| && Checked(s', e, c)
      ensures Covered(s', e, c)
    {
      RunningStepCovered(s, s', a, e, c);
    }
  }

  /** A retirement may satisfy heads of other engines; its own engine now has to visit them all. */
  lemma RetireKeeps(s: State, s': State, c: nat)
    requires Inv(s) && Does(s, s', Retire(c))
    ensures Inv(s')
  {
    var owner := s.chans[c].engine;
    SameCounted(s, s');
    forall d | AgentInWindow(s, d)
      ensures AgentInWindow(s', d)
    {
    }
    forall d | 0 <= d < |s'.chans|
      ensures ChannelOk(s', d)
    {
      assert ChannelOk(s, d);
    }
    forall e | 0 <= e < |s'.engines|
      ensures EngineOk(s'.engines[e]) && HalfChecked(s', e)
    {
      assert EngineOk(s.engines[e]) && HalfChecked(s, e);
    }
    forall e, d | 0 <= e < |s'.engines| && 0 <= d < |s'.chans| && Checked(s', e, d)
      ensures Covered(s', e, d)
    {
      assert e != owner;
      assert Checked(s, e, d) && Covered(s, e, d);
      assert WillVisit(s', owner, e);
    }
  }

  lemma GoIdleVisits(s: State, s': State, e: nat, x: nat)
    requires Does(s, s', GoIdle(e))
    ensures ToBeVisited(s, x) ==> ToBeVisited(s', x)
  {
    if ToBeVisited(s, x) {
      var r :| WillVisit(s, r, x);
      assert WillVisit(s', r, x);
    }
  }

  lemma GoIdleEngines(s: State, s': State, e: nat)
    requires Inv(s) && Does(s, s', GoIdle(e))
    ensures forall x :: 0 <= x < |s'.engines| ==> EngineOk(s'.engines[x]) && HalfChecked(s', x)
  {
    forall x | 0 <= x < |s'.engines|
      ensures EngineOk(s'.engines[x]) && HalfChecked(s', x)
    {
      assert EngineOk(s.engines[x]) && HalfChecked(s, x);
      assert forall d :: AgentInWindow(s, d) ==> AgentInWindow(s', d);
    }
  }

  lemma GoIdleChannels(s: State, s': State, e: nat)
    requires Inv(s) && Does(s, s', GoIdle(e))
    ensures forall d :: 0 <= d < |s'.chans| ==> ChannelOk(s', d)
  {
    forall d | 0 <= d < |s'.chans|
      ensures ChannelOk(s', d)
    {
      assert ChannelOk(s, d);
      assert s.chans[d].engine == e ==> Owned(s, e, d);
    }
  }

  lemma GoIdleKeeps(s: State, s': State, e: nat)
    requires Inv(s) && Does(s, s', GoIdle(e))
    ensures Inv(s')
  {
    SameCounted(s, s');
    GoIdleChannels(s, s', e);
    GoIdleEngines(s, s', e);
    forall x, d | 0 <= x < |s'.engines| && 0 <= d < |s'.chans| && Checked(s', x, d)
      ensures Covered(s', x, d)
    {
      assert Checked(s, x, d) && Covered(s, x, d);
      assert AgentInWindow(s, d) ==> AgentInWindow(s', d);
      GoIdleVisits(s, s', e, x);
    }
  }

  /** An engine that nobody counts, or whose flag is not set, has seen every channel empty. */
  lemma UnflaggedHasNoHead(s: State, e: nat, c: nat)
    requires Inv(s) && e < |s.engines| && c < |s.chans| && Checked(s, e, c) && Owned(s, e, c)
    requires !s.engines[e].asleepBlocked || s.numAsleepBlocked == 0
    ensures !ReadyHead(s, c)
  {
    assert EngineOk(s.engines[e]) && ChannelOk(s, c);
    assert s.engines[e].pending ==> e in CountedSet(s);
  }

  /** Only engine `e` moves; bells may have been rung. */
  ghost predicate OnlyMoves(s: State, s': State, e: nat) {
    && e < |s.engines| == |s'.engines| && s'.chans == s.chans && s'.agents == s.agents
    && (forall x :: 0 <= x < |s.engines| ==>
        s'.engines[x].bell >= s.engines[x].bell && s'.engines[x].bellSeen == s.engines[x].bellSeen)
    && (forall x :: 0 <= x < |s.engines| && x != e ==> s'.engines[x] == s.engines[x].(bell := s'.engines[x].bell))
  }

  /** The other engines' part of the invariant. */
  lemma OthersStay(s: State, s': State, e: nat)
    requires Inv(s) && OnlyMoves(s, s', e) && s'.engines[e].pending == s.engines[e].pending
    ensures forall x :: 0 <= x < |s'.engines| && x != e ==> EngineOk(s'.engines[x]) && HalfChecked(s', x)
  {
    forall x | 0 <= x < |s'.engines| && x != e
      ensures EngineOk(s'.engines[x]) && HalfChecked(s', x)
    {
      assert EngineOk(s.engines[x]) && HalfChecked(s, x);
      assert forall d :: AgentInWindow(s, d) ==> AgentInWindow(s', d);
    }
  }

  lemma ChannelsStay(s: State, s': State, e: nat)
    requires Inv(s) && OnlyMoves(s, s', e) && s'.engines[e].pending == s.engines[e].pending
    requires GoesToSleep(s'.engines[e].phase) ==> GoesToSleep(s.engines[e].phase)
    ensures forall c :: 0 <= c < |s'.chans| ==> ChannelOk(s', c)
  {
    forall c | 0 <= c < |s'.chans|
      ensures ChannelOk(s', c)
    {
      assert ChannelOk(s, c);
    }
  }

  lemma RoundGoesOn(s: State, s': State, r: nat, e: nat)
    requires WillVisit(s, r, e) && e < |s.engines| && Does(s, s', Wake(r)) && s.engines[e].bellSeen <= s.engines[e].bell
    ensures |s'.engines| == |s.engines|
    ensures WillVisit(s', r, e) || BellRung(s', e) || !s.engines[e].asleepBlocked || s.numAsleepBlocked == 0
  {
  }

  lemma WakeCovered(s: State, s': State, r: nat, e: nat, c: nat)
    requires Inv(s) && Does(s, s', Wake(r)) && e < |s.engines| && c < |s.chans| && Checked(s, e, c)
    ensures Covered(s', e, c)
  {
    WakeMoves(s, s', r);
    assert Covered(s, e, c) && EngineOk(s.engines[e]) && e != r;
    assert AgentInWindow(s, c) ==> AgentInWindow(s', c);
    if Owned(s, e, c) && ToBeVisited(s, e) {
      var q :| WillVisit(s, q, e);
      if q != r {
        assert WillVisit(s', q, e);
      } else {
        RoundGoesOn(s, s', r, e);
        if !s.engines[e].asleepBlocked || s.numAsleepBlocked == 0 {
          UnflaggedHasNoHead(s, e, c);
        }
      }
    }
  }

  lemma WakeMoves(s: State, s': State, r: nat)
    requires Does(s, s', Wake(r))
    ensures OnlyMoves(s, s', r)
            && s'.engines[r] == s.engines[r].(phase := s'.engines[r].phase, bell := s'.engines[r].bell)
    ensures s'.numAsleepBlocked == s.numAsleepBlocked && !GoesToSleep(s.engines[r].phase)
            && !GoesToSleep(s'.engines[r].phase)
    ensures !Counted(s.engines[r]) && !Counted(s'.engines[r])
  {
  }

  lemma WakeKeeps(s: State, s': State, r: nat)
    requires Inv(s) && Does(s, s', Wake(r))
    ensures Inv(s')
  {
    WakeMoves(s, s', r);
    assert EngineOk(s.engines[r]);
    SameCounted(s, s');
    ChannelsStay(s, s', r);
    OthersStay(s, s', r);
    forall e, c | 0 <= e < |s'.engines| && 0 <= c < |s'.chans| && Checked(s', e, c)
      ensures Covered(s', e, c)
    {
      assert e != r && Checked(s, e, c);
      WakeCovered(s, s', r, e, c);
    }
  }

  lemma SleepMoves(s: State, s': State, e: nat)
    requires Does(s, s', Sleep(e))
    ensures OnlyMoves(s, s', e) && s'.engines[e].pending == s.engines[e].pending
            && s'.engines[e].bell == s.engines[e].bell
    ensures GoesToSleep(s'.engines[e].phase) ==> GoesToSleep(s.engines[e].phase)
  {
  }

  lemma OtherCovered(s: State, s': State, e: nat, x: nat, c: nat)
    requires OnlyMoves(s, s', e) && x < |s.engines| && s'.engines[x].bell == s.engines[x].bell && Covered(s, x, c)
    requires forall y :: !WillVisit(s, e, y)
    ensures Covered(s', x, c)
  {
    assert AgentInWindow(s, c) ==> AgentInWindow(s', c);
    if ToBeVisited(s, x) {
      var r :| WillVisit(s, r, x);
      assert WillVisit(s', r, x);
    }
  }

  /** The re-check establishes what it is there for, one channel at a time. */
  lemma RecheckEstablishes(s: State, s': State, e: nat, c: nat)
    requires Inv(s) && Does(s, s', Sleep(e)) && c < |s.chans| && Checked(s', e, c) && !Checked(s, e, c)
    ensures Covered(s, e, c)
  {
    assert ChannelOk(s, c) && HalfChecked(s, e);
  }

  lemma SleepCovered(s: State, s': State, e: nat, x: nat, c: nat)
    requires Inv(s) && Does(s, s', Sleep(e)) && x < |s.engines| && c < |s.chans| && Checked(s', x, c)
    ensures Covered(s', x, c)
  {
    SleepMoves(s, s', e);
    if x == e && !Checked(s, e, c) {
      RecheckEstablishes(s, s', e, c);
    } else {
      assert Checked(s, x, c) && Covered(s, x, c);
    }
    NotVisiting(s, s', e);
    OtherCovered(s, s', e, x, c);
  }

  lemma NotVisiting(s: State, s': State, e: nat)
    requires Does(s, s', Sleep(e))
    ensures forall y :: !WillVisit(s, e, y)
  {
  }

  lemma SleepCount(s: State, s': State, e: nat)
    requires Inv(s) && Does(s, s', Sleep(e))
    ensures s'.numAsleepBlocked == |CountedSet(s')|
  {
    SleepMoves(s, s', e);
    assert EngineOk(s.engines[e]);
    var x, x' := s.engines[e], s'.engines[e];
    if x.phase == Count {
      CountOne(s, s', e);
    } else if x.phase == Uncount {
      CountOne(s', s, e);
    } else {
      SameCounted(s, s');
    }
  }

  lemma CountOne(s: State, s': State, e: nat)
    requires |s.engines| == |s'.engines| && e < |s.engines| && !Counted(s.engines[e]) && Counted(s'.engines[e])
    requires forall x :: 0 <= x < |s.engines| && x != e ==> (Counted(s'.engines[x]) <==> Counted(s.engines[x]))
    ensures |CountedSet(s')| == |CountedSet(s)| + 1
  {
    assert CountedSet(s') == CountedSet(s) + {e};
  }

  lemma SleeperOk(s: State, s': State, e: nat)
    requires Inv(s) && Does(s, s', Sleep(e))
    ensures EngineOk(s'.engines[e]) && HalfChecked(s', e)
  {
    assert EngineOk(s.engines[e]) && HalfChecked(s, e);
  }

  lemma SleepKeeps(s: State, s': State, e: nat)
    requires Inv(s) && Does(s, s', Sleep(e))
    ensures Inv(s')
  {
    SleepMoves(s, s', e);
    SleepCount(s, s', e);
    ChannelsStay(s, s', e);
    OthersStay(s, s', e);
    SleeperOk(s, s', e);
    forall x, c | 0 <= x < |s'.engines| && 0 <= c < |s'.chans| && Checked(s', x, c)
      ensures Covered(s', x, c)
    {
      SleepCovered(s, s', e, x, c);
    }
  }

  lemma TimeoutKeeps(s: State, s': State, e: nat)
    requires Inv(s) && Does(s, s', Timeout(e))
    ensures Inv(s')
  {
    assert EngineOk(s.engines[e]);
    SameCounted(s, s');
    ChannelsStay(s, s', e);
    OthersStay(s, s', e);
    forall x, c | 0 <= x < |s'.engines| && 0 <= c < |s'.chans| && Checked(s', x, c)
      ensures Covered(s', x, c)
    {
      assert Checked(s, x, c) && Covered(s, x, c);
      assert forall y :: !WillVisit(s, e, y);
      OtherCovered(s, s', e, x, c);
    }
  }

  lemma StepKeepsInv(s: State, s': State, a: Action)
    requires Inv(s) && Does(s, s', a)
    ensures Inv(s')
  {
    match a
    case Publish(_, _, _) => StoreKeeps(s, s', a);
    case Unpark(_, _) => StoreKeeps(s, s', a);
    case LoadAsleep(p) => LoadAsleepKeeps(s, s', p);
    case RingBell(p) => RingBellKeeps(s, s', p);
    case Scan(_) => RunningStepKeeps(s, s', a);
    case Park(_) => RunningStepKeeps(s, s', a);
    case Retire(c) => RetireKeeps(s, s', c);
    case Wake(r) => WakeKeeps(s, s', r);
    case GoIdle(e) => GoIdleKeeps(s, s', e);
    case Sleep(e) => SleepKeeps(s, s', e);
    case Timeout(e) => TimeoutKeeps(s, s', e);
  }

  // ---------------------------------------------------------------------------------------------
  // Whole runs
  // ---------------------------------------------------------------------------------------------

  ghost predicate IsRun(run: seq<State>, acts: seq<Action>) {
    Runs.IsRun(run, acts, Init, Does)
  }

  lemma RunKeepsInv(run: seq<State>, acts: seq<Action>, k: nat)
    requires IsRun(run, acts) && k < |run|
    ensures Inv(run[k])
  {
    forall s, s', a | Inv(s) && Does(s, s', a)
      ensures Inv(s')
    {
      StepKeepsInv(s, s', a);
    }
    forall s | Init(s)
      ensures Inv(s)
    {
      assert CountedSet(s) == {};
    }
    Runs.KeepInvariant(run, acts, Init, Does, Inv, k);
  }

  /**
    No lost doorbell. While an engine is asleep and its doorbell has not been rung since it sampled it,
    an unparked channel whose PUT has moved has a producer or unparker still between its store and its
    ring; and a blocked head whose fence has passed has one of those, or an engine on its wake-up round
    that has yet to come to the sleeper.
  */
  lemma NoLostDoorbell(run: seq<State>, acts: seq<Action>, k: nat, e: nat, c: nat)
    requires IsRun(run, acts) && k < |run| && e < |run[k].engines| && c < |run[k].chans|
    requires run[k].engines[e].phase == Asleep && Owned(run[k], e, c) && !BellRung(run[k], e)
    ensures NewPut(run[k], c) ==> AgentInWindow(run[k], c)
    ensures ReadyHead(run[k], c) ==> AgentInWindow(run[k], c) || ToBeVisited(run[k], e)
  {
    RunKeepsInv(run, acts, k);
    assert Checked(run[k], e, c);
  }

  /** And whoever is in the window does ring: a producer or unparker of a sleeper's channel finds it asleep,
      and then its ring counts. */
  lemma AgentRings(s: State, s': State, e: nat, p: nat)
    requires Inv(s) && e < |s.engines| && s.engines[e].phase == Asleep && p in s.agents && Owned(s, e, s.agents[p].c)
    ensures Does(s, s', LoadAsleep(p)) ==> p in s'.agents && s'.agents[p].ringing
    ensures Does(s, s', RingBell(p)) ==> |s'.engines| == |s.engines| && BellRung(s', e)
  {
    assert EngineOk(s.engines[e]);
  }

  /** An engine on its wake-up round rings a blocked sleeper when it comes to it, and not after passing it. */
  lemma VisitRings(s: State, s': State, r: nat, e: nat)
    requires Inv(s) && e < |s.engines| && s.engines[e].phase == Asleep && s.engines[e].pending
    requires WillVisit(s, r, e) && Does(s, s', Wake(r))
    ensures |s'.engines| == |s.engines| && (WillVisit(s', r, e) || BellRung(s', e))
  {
    assert EngineOk(s.engines[e]);
    assert e in CountedSet(s);
  }
}
