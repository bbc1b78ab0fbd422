/**
  All channels of all engines: commands behind fences of other channels, and the pipeline that serves the
  page faults of parked ones. Publishing a command is one step here; module Ring opens it up.
*/
module Channels {
  import opened Base
  import Runs

  /** WAIT_FENCE names a channel and how many of its commands must have retired. `id` is all there is to the others. */
  datatype Command = Work(id: nat) | Wait(channel: nat, value: nat)

  /** `time` orders all publications; it is not part of the program. */
  datatype Entry = Entry(cmd: Command, time: nat)

  /**
    How far its engine is with a channel. For each channel in turn a scan loads PUT, takes fault_fail, and then looks
    at the head. `Ahead`: not looked at, or passed over; `Taken`: fault_fail was not set; `Ready`: can be chosen;
    `Running`: chosen; `Publishing`: it faulted and is parked, and the fault is not queued yet.
  */
  datatype Stage = Ahead | Loaded(put: nat) | Taken(put: nat) | Ready | Running | Publishing

  /** Rings are numbered across engines. `fail` is fault_fail. */
  datatype Channel = Channel(engine: nat, cmds: seq<Entry>, get: nat, parked: bool, fail: bool, stage: Stage)

  datatype State = State(chans: seq<Channel>, clock: nat, queue: seq<nat>, servicing: Option<nat>)

  datatype Action =
    | Append(c: nat, cmd: Command)
    | NewScan(engine: nat)
    | Load(c: nat)
    | TakeFail(c: nat)
    | Admit(c: nat)
    | Choose(c: nat)
    | Retire(c: nat)
    | Fault(c: nat)
    | Push(c: nat)
    | Pop
    | MarkFailed
    | Unpark

  ghost predicate Passed(s: State, channel: nat, value: nat) {
    channel < |s.chans| && value <= s.chans[channel].get
  }

  /** The channel has a command that has not retired. */
  ghost predicate Unretired(s: State, c: nat) {
    c < |s.chans| && s.chans[c].get < |s.chans[c].cmds|
  }

  /** The head command may run: it is no WAIT, or a WAIT whose fence has passed. */
  ghost predicate HeadReady(s: State, c: nat) {
    && Unretired(s, c)
    && var cmd := s.chans[c].cmds[s.chans[c].get].cmd;
       cmd.Wait? ==> Passed(s, cmd.channel, cmd.value)
  }

  /** The driver accepts a WAIT only for commands that are published already. */
  ghost predicate Accepted(s: State, cmd: Command) {
    cmd.Wait? ==> cmd.channel < |s.chans| && cmd.value <= |s.chans[cmd.channel].cmds|
  }

  function With(s: State, c: nat, ch: Channel): (r: State)
    requires c < |s.chans|
  {
    s.(chans := s.chans[c := ch])
  }

  function Appended(s: State, c: nat, cmd: Command): (r: State)
    requires c < |s.chans|
  {
    With(s, c, s.chans[c].(cmds := s.chans[c].cmds + [Entry(cmd, s.clock)])).(clock := s.clock + 1)
  }

  /** The engine looks at its channels anew. */
  function Rescanned(s: State, engine: nat): (r: State)
    ensures |r.chans| == |s.chans|
  {
    s.(chans := seq(|s.chans|, i requires 0 <= i < |s.chans| =>
         if s.chans[i].engine == engine then s.chans[i].(stage := Ahead) else s.chans[i]))
  }

  /** The engine is not between two accesses to channel `d`. */
  ghost predicate Rests(s: State, engine: nat, d: nat) {
    d < |s.chans| && s.chans[d].engine == engine ==> s.chans[d].stage in {Ahead, Ready, Running}
  }

  ghost predicate Rested(s: State, engine: nat) {
    forall d: nat :: Rests(s, engine, d)
  }

  /** No channel of the engine is running, and the engine is between two channels. */
  ghost predicate Between(s: State, engine: nat) {
    Rested(s, engine) && forall d :: 0 <= d < |s.chans| && s.chans[d].engine == engine ==> s.chans[d].stage != Running
  }

  /** What fault_fail does: the head retires unexecuted, if PUT was past it when the scan loaded it. */
  function FailTaken(ch: Channel): (r: Channel)
    requires ch.stage.Loaded?
  {
    ch.(fail := false, stage := Ahead, get := if ch.stage.put != ch.get then ch.get + 1 else ch.get)
  }

  /** An engine may look anew whenever it is not between two accesses to one channel; it may choose any channel that
      is ready. */
  ghost predicate Does(s: State, s': State, a: Action) {
    match a
    case Append(c, cmd) => c < |s.chans| && Accepted(s, cmd) && s' == Appended(s, c, cmd)
    case NewScan(e) => Rested(s, e) && s' == Rescanned(s, e)
    case Load(c) =>
      && c < |s.chans| && Between(s, s.chans[c].engine) && s.chans[c].stage == Ahead
      && s' == With(s, c, s.chans[c].(stage := Loaded(|s.chans[c].cmds|)))
    case TakeFail(c) =>
      && c < |s.chans| && s.chans[c].stage.Loaded?
      && s' == With(s, c, if s.chans[c].fail then FailTaken(s.chans[c])
          else s.chans[c].(stage := Taken(s.chans[c].stage.put)))
    case Admit(c) =>
      && c < |s.chans| && s.chans[c].stage.Taken?
      && s' == With(s, c, s.chans[c].(stage := if Admissible(s, c) then Ready else Ahead))
    case Choose(c) =>
      && c < |s.chans| && Between(s, s.chans[c].engine) && s.chans[c].stage == Ready
      && s' == With(Rescanned(s, s.chans[c].engine), c, s.chans[c].(stage := Running))
    case Retire(c) =>
      HeadReady(s, c) && s.chans[c].stage == Running && s' == With(s, c, s.chans[c].(get := s.chans[c].get + 1))
    // Parked first, queued later.
    case Fault(c) =>
      && HeadReady(s, c) && s.chans[c].stage == Running && s.chans[c].cmds[s.chans[c].get].cmd.Work?
      && s' == With(s, c, s.chans[c].(parked := true, stage := Publishing))
    case Push(c) =>
      && c < |s.chans| && s.chans[c].stage == Publishing
      && s' == With(s, c, s.chans[c].(stage := Ahead)).(queue := s.queue + [c])
    case Pop => s.servicing == None && s.queue != [] && s' == s.(servicing := Some(s.queue[0]), queue := s.queue[1..])
    case MarkFailed =>
      && s.servicing.Some? && s.servicing.value < |s.chans|
      && s' == With(s, s.servicing.value, s.chans[s.servicing.value].(fail := true))
    case Unpark =>
      && s.servicing.Some? && s.servicing.value < |s.chans|
      && s' == With(s, s.servicing.value, s.chans[s.servicing.value].(parked := false)).(servicing := None)
  }

  /** What the scan asks of a channel after it has taken fault_fail. */
  ghost predicate Admissible(s: State, c: nat)
    requires c < |s.chans| && s.chans[c].stage.Taken?
  {
    !s.chans[c].parked && s.chans[c].stage.put != s.chans[c].get && HeadReady(s, c)
  }

  // ---------------------------------------------------------------------------------------------
  // Invariant
  // ---------------------------------------------------------------------------------------------

  /** Faults that are queued or serviced. */
  ghost function Pipeline(s: State): (m: multiset<nat>) {
    PipelineOf(s.queue, s.servicing)
  }

  ghost function PipelineOf(queue: seq<nat>, servicing: Option<nat>): (m: multiset<nat>) {
    multiset(queue) + if servicing.Some? then multiset{servicing.value} else multiset{}
  }

  ghost predicate EntryOk(s: State, c: nat, i: nat) {
    c < |s.chans| && i < |s.chans[c].cmds| ==>
      var x := s.chans[c].cmds[i];
      && x.time < s.clock
      && (i > 0 ==> s.chans[c].cmds[i - 1].time < x.time)
      && (x.cmd.Wait? ==>
          && x.cmd.channel < |s.chans|
          && x.cmd.value <= |s.chans[x.cmd.channel].cmds|
          && (x.cmd.value > 0 ==> s.chans[x.cmd.channel].cmds[x.cmd.value - 1].time < x.time))
  }

  /** A parked channel has exactly one fault: being published, queued, or serviced. No other channel has any. */
  ghost predicate FaultOk(s: State, c: nat) {
    c < |s.chans| ==>
      && Pipeline(s)[c] == (if s.chans[c].parked && s.chans[c].stage != Publishing then 1 else 0)
      && (s.chans[c].stage == Publishing ==> s.chans[c].parked)
  }

  ghost predicate StageOk(ch: Channel) {
    && ch.get <= |ch.cmds|
    && (ch.stage.Loaded? || ch.stage.Taken? ==> ch.get <= ch.stage.put <= |ch.cmds|)
    && (ch.stage in {Ready, Running} ==> !ch.parked)
  }

  ghost predicate ChannelOk(s: State, c: nat) {
    FaultOk(s, c) && (c < |s.chans| ==> StageOk(s.chans[c]))
  }

  /** An engine is at one channel at a time, and while it runs one, or has parked it, none is ready. */
  ghost predicate TurnsOk(s: State, c: nat, d: nat) {
    c < |s.chans| && d < |s.chans| && c != d && s.chans[c].engine == s.chans[d].engine
        && s.chans[c].stage !in {Ahead, Ready} ==>
      s.chans[d].stage == Ahead || (s.chans[d].stage == Ready && s.chans[c].stage !in {Running, Publishing})
  }

  ghost predicate Inv(s: State) {
    && (forall c, i :: EntryOk(s, c, i))
    && (forall c :: ChannelOk(s, c))
    && (forall c, d :: TurnsOk(s, c, d))
    && (forall c :: c in Pipeline(s) ==> c < |s.chans|)
  }

  ghost predicate Init(s: State) {
    && s.queue == [] && s.servicing == None
    && forall c :: 0 <= c < |s.chans| ==> s.chans[c] == Idle(s.chans[c].engine)
  }

  function Idle(engine: nat): (c: Channel) {
    Channel(engine, [], 0, false, false, Ahead)
  }

  lemma EntriesStay(s: State, s': State)
    requires forall c, i :: EntryOk(s, c, i)
    requires |s'.chans| == |s.chans| && s'.clock == s.clock
    requires forall c :: 0 <= c < |s.chans| ==> s'.chans[c].cmds == s.chans[c].cmds
    ensures forall c, i :: EntryOk(s', c, i)
  {
    forall c, i
      ensures EntryOk(s', c, i)
    {
      assert EntryOk(s, c, i);
    }
  }

  lemma AppendKeepsEntry(s: State, s': State, c: nat, cmd: Command, d: nat, i: nat)
    requires Does(s, s', Append(c, cmd)) && forall e, j :: EntryOk(s, e, j)
    ensures EntryOk(s', d, i)
  {
    assert EntryOk(s, d, i);
    assert i > 0 ==> EntryOk(s, d, i - 1);
    assert cmd.Wait? && cmd.value > 0 ==> EntryOk(s, cmd.channel, cmd.value - 1);
  }

  lemma EntriesKeep(s: State, s': State, a: Action)
    requires Inv(s) && Does(s, s', a)
    ensures forall c, i :: EntryOk(s', c, i)
  {
    if a.Append? {
      forall d: nat, i: nat
        ensures EntryOk(s', d, i)
      {
        AppendKeepsEntry(s, s', a.c, a.cmd, d, i);
      }
    } else {
      EntriesStay(s, s');
    }
  }

  lemma QueueAfter(s: State, s': State, a: Action)
    requires Does(s, s', a)
    ensures a.Push? || a == Pop || a == Unpark || (s'.queue == s.queue && s'.servicing == s.servicing)
    ensures a.Push? ==> s'.queue == s.queue + [a.c] && s'.servicing == s.servicing
    ensures a == Pop ==> s.queue == [s'.servicing.value] + s'.queue && s'.servicing.Some? && s.servicing == None
    ensures a == Unpark ==> s'.queue == s.queue && s.servicing.Some? && s'.servicing == None
  {
  }

  /** Faults come from Push and go with Unpark. */
  lemma PipelineAfter(s: State, s': State, a: Action)
    requires Does(s, s', a)
    ensures a.Push? ==> Pipeline(s') == Pipeline(s) + multiset{a.c}
    ensures a == Unpark ==> s.servicing.Some? && Pipeline(s) == Pipeline(s') + multiset{s.servicing.value}
    ensures !a.Push? && a != Unpark ==> Pipeline(s') == Pipeline(s)
  {
    QueueAfter(s, s', a);
    PipelineMoves(s.queue, s.servicing, s'.queue, s'.servicing);
  }

  lemma PipelineMoves(q: seq<nat>, v: Option<nat>, q': seq<nat>, v': Option<nat>)
    ensures v' == v && |q'| == |q| + 1 && q' == q + [q'[|q|]] ==>
            PipelineOf(q', v') == PipelineOf(q, v) + multiset{q'[|q|]}
    ensures v == None && v'.Some? && q == [v'.value] + q' ==> PipelineOf(q', v') == PipelineOf(q, v)
    ensures v.Some? && v' == None && q' == q ==> PipelineOf(q, v) == PipelineOf(q', v') + multiset{v.value}
  {
  }

  /** Where the fault of channel `c` may have gone. */
  lemma FaultMoves(s: State, s': State, a: Action, c: nat)
    requires Inv(s) && Does(s, s', a) && c < |s.chans|
    ensures |s'.chans| == |s.chans|
    ensures a == Push(c) ==> s.chans[c].stage == Publishing && s'.chans[c] == s.chans[c].(stage := Ahead)
    ensures a == Unpark && s.servicing == Some(c) ==> s'.chans[c] == s.chans[c].(parked := false)
    ensures a == Fault(c) ==> !s.chans[c].parked && s'.chans[c].parked && s'.chans[c].stage == Publishing
    ensures a != Push(c) && a != Fault(c) && !(a == Unpark && s.servicing == Some(c)) ==>
              s'.chans[c].parked == s.chans[c].parked
                  && (s'.chans[c].stage == Publishing <==> s.chans[c].stage == Publishing)
  {
    assert ChannelOk(s, c);
    assert a.NewScan? ==> Rests(s, a.engine, c);
    assert a.Choose? ==> Rests(s, s.chans[a.c].engine, c);
  }

  lemma FaultKeeps(s: State, s': State, a: Action, c: nat)
    requires Inv(s) && Does(s, s', a)
    ensures FaultOk(s', c)
  {
    PipelineAfter(s, s', a);
    assert ChannelOk(s, c);
    if c < |s.chans| {
      FaultMoves(s, s', a, c);
    }
  }

  lemma StageKeeps(s: State, s': State, a: Action, c: nat)
    requires Inv(s) && Does(s, s', a) && c < |s.chans|
    ensures StageOk(s'.chans[c])
  {
    assert ChannelOk(s, c);
  }

  lemma ChannelKeeps(s: State, s': State, a: Action, c: nat)
    requires Inv(s) && Does(s, s', a)
    ensures ChannelOk(s', c)
  {
    FaultKeeps(s, s', a, c);
    if c < |s.chans| {
      StageKeeps(s, s', a, c);
    }
  }

  lemma TurnsKeep(s: State, s': State, a: Action, c: nat, d: nat)
    requires Inv(s) && Does(s, s', a)
    ensures TurnsOk(s', c, d)
  {
    assert TurnsOk(s, c, d) && TurnsOk(s, d, c);
    assert a.Load? ==> Rests(s, s.chans[a.c].engine, c) && Rests(s, s.chans[a.c].engine, d);
    assert a.NewScan? ==> Rests(s, a.engine, c) && Rests(s, a.engine, d);
  }

  lemma StepKeepsInv(s: State, s': State, a: Action)
    requires Inv(s) && Does(s, s', a)
    ensures Inv(s')
  {
    EntriesKeep(s, s', a);
    forall c
      ensures ChannelOk(s', c)
    {
      ChannelKeeps(s, s', a, c);
    }
    forall c, d
      ensures TurnsOk(s', c, d)
    {
      TurnsKeep(s, s', a, c, d);
    }
    PipelineAfter(s, s', a);
  }

  // ---------------------------------------------------------------------------------------------
  // Progress
  // ---------------------------------------------------------------------------------------------

  ghost function HeadTime(s: State, c: nat): (t: nat)
    requires Unretired(s, c)
  {
    s.chans[c].cmds[s.chans[c].get].time
  }

  ghost predicate Earliest(s: State, c: nat, n: nat) {
    Unretired(s, c) && forall d :: 0 <= d < n && Unretired(s, d) ==> HeadTime(s, c) <= HeadTime(s, d)
  }

  lemma {:induction false} EarliestExists(s: State, n: nat, some: nat) returns (c: nat)
    requires n <= |s.chans| && Unretired(s, some) && some < n
    ensures Earliest(s, c, n)
  {
    if n == some + 1 && forall d :: 0 <= d < some ==> !Unretired(s, d) {
      c := some;
    } else {
      var other := some;
      if some == n - 1 {
        other :| 0 <= other < some && Unretired(s, other);
      }
      c := EarliestExists(s, n - 1, other);
      if Unretired(s, n - 1) && HeadTime(s, n - 1) < HeadTime(s, c) {
        c := n - 1;
      }
    }
  }

  lemma {:induction false} TimesGrow(s: State, c: nat, i: nat, j: nat)
    requires Inv(s) && c < |s.chans| && i <= j < |s.chans[c].cmds|
    ensures s.chans[c].cmds[i].time <= s.chans[c].cmds[j].time
  {
    if i < j {
      TimesGrow(s, c, i, j - 1);
      assert EntryOk(s, c, j);
    }
  }

  /** The command published first among those that have not retired is never blocked: what it waits for
      was published before it. */
  lemma EarliestIsReady(s: State, c: nat)
    requires Inv(s) && Earliest(s, c, |s.chans|)
    ensures HeadReady(s, c)
  {
    var i := s.chans[c].get;
    var x := s.chans[c].cmds[i];
    assert EntryOk(s, c, i);
    if x.cmd.Wait? && !Passed(s, x.cmd.channel, x.cmd.value) {
      var d := x.cmd.channel;
      assert Unretired(s, d);
      TimesGrow(s, d, s.chans[d].get, x.cmd.value - 1);
    }
  }

  /** The engine of `c` is at channel `d`. */
  ghost predicate BusyAt(s: State, c: nat, d: nat) {
    c < |s.chans| && d < |s.chans| && s.chans[d].engine == s.chans[c].engine && s.chans[d].stage !in {Ahead, Ready}
  }

  /** The next step of the engine of `c`, if it wants to run `c`. */
  ghost function EngineDue(s: State, c: nat): (a: Action)
    requires c < |s.chans|
  {
    if d: nat :| BusyAt(s, c, d) then StageDue(s, c, d)
    else if s.chans[c].stage == Ready then Choose(c)
    else Load(c)
  }

  ghost predicate Enabled(s: State, a: Action) {
    exists s' :: Does(s, s', a)
  }

  /**
    No deadlock. While a published command has not retired, there is a head that may run, and the step that is due
    can be taken: if its channel is parked, the next one of the fault pipeline, in which it has exactly one place;
    else the next one of its engine. HeadRetires shows that these steps lead to its retirement.
  */
  lemma NoDeadlock(s: State, some: nat) returns (c: nat, a: Action)
    requires Inv(s) && Unretired(s, some)
    ensures HeadReady(s, c) && Enabled(s, a)
    ensures if s.chans[c].parked then a == PipelineDue(s, c) else a == EngineDue(s, c)
    ensures Pipeline(s)[c] + (if s.chans[c].stage == Publishing then 1 else 0) == (if s.chans[c].parked then 1 else 0)
  {
    c := EarliestExists(s, |s.chans|, some);
    EarliestIsReady(s, c);
    assert ChannelOk(s, c);
    var s';
    if s.chans[c].parked {
      a, s' := PipelineStep(s, c);
    } else {
      a, s' := EngineStep(s, c);
    }
  }

  /** Nothing is published, and no migration fails. */
  ghost predicate Onwards(s: State, s': State, a: Action) {
    Does(s, s', a) && !a.Append? && a != MarkFailed
  }

  ghost predicate SameRings(s: State, t: State) {
    |t.chans| == |s.chans|
        && forall d :: 0 <= d < |s.chans| ==>
        t.chans[d].cmds == s.chans[d].cmds && t.chans[d].engine == s.chans[d].engine
  }

  /** Steps to go until the fault of `c` has been serviced. */
  ghost function PipelineAhead(s: State, c: nat): (n: nat)
    requires c < |s.chans|
  {
    2 * |s.queue| + (if s.servicing.Some? then 1 else 0) + if s.chans[c].stage == Publishing then 3 else 0
  }

  ghost function PipelineDue(s: State, c: nat): (a: Action)
    requires c < |s.chans|
  {
    if s.chans[c].stage == Publishing then Push(c) else if s.servicing.Some? then Unpark else Pop
  }

  lemma PipelineStep(s: State, c: nat) returns (a: Action, s': State)
    requires Inv(s) && c < |s.chans| && s.chans[c].parked
    ensures a == PipelineDue(s, c) && Onwards(s, s', a) && SameRings(s, s')
            && PipelineAhead(s', c) < PipelineAhead(s, c)
    ensures forall d :: 0 <= d < |s.chans| ==> s'.chans[d].get == s.chans[d].get && s'.chans[d].fail == s.chans[d].fail
    ensures s'.chans[c].stage == if s.chans[c].stage == Publishing then Ahead else s.chans[c].stage
  {
    assert ChannelOk(s, c);
    a := PipelineDue(s, c);
    if s.chans[c].stage == Publishing {
      s' := With(s, c, s.chans[c].(stage := Ahead)).(queue := s.queue + [c]);
    } else if s.servicing.Some? {
      var d := s.servicing.value;
      assert d in Pipeline(s);
      s' := With(s, d, s.chans[d].(parked := false)).(servicing := None);
    } else {
      assert c in multiset(s.queue);
      s' := s.(servicing := Some(s.queue[0]), queue := s.queue[1..]);
    }
  }

  /** A parked channel is unparked by the pipeline alone. */
  lemma {:induction false} Unparks(s: State, c: nat) returns (t: State)
    requires Inv(s) && c < |s.chans|
    ensures Runs.Reaches(s, t, Onwards) && Inv(t) && SameRings(s, t) && !t.chans[c].parked
    ensures forall d :: 0 <= d < |s.chans| ==> t.chans[d].get == s.chans[d].get && t.chans[d].fail == s.chans[d].fail
    ensures s.chans[c].stage != Publishing ==> t.chans[c].stage == s.chans[c].stage
    decreases PipelineAhead(s, c)
  {
    if !s.chans[c].parked {
      t := s;
      Runs.ReachesItself(t, Onwards);
    } else {
      var a, s' := PipelineStep(s, c);
      StepKeepsInv(s, s', a);
      t := Unparks(s', c);
      Runs.StepReaches(s, a, s', t, Onwards);
    }
  }

  /** Steps to go until the engine of `c` has retired its head: first what it is busy with, then `c`. */
  ghost function EngineAhead(s: State, c: nat): (n: nat)
    requires c < |s.chans|
  {
    ChannelAhead(s.chans[c]) + (if OthersLoaded(s, c) then 2 else if OthersBusy(s, c) then 1 else 0)
  }

  ghost predicate OthersBusy(s: State, c: nat) {
    exists d: nat :: d != c && BusyAt(s, c, d)
  }

  ghost predicate OthersLoaded(s: State, c: nat) {
    exists d: nat :: d != c && BusyAt(s, c, d) && s.chans[d].stage.Loaded?
  }

  /** A PUT loaded before the head was published takes one more scan. */
  function ChannelAhead(ch: Channel): (n: nat) {
    match ch.stage
    case Loaded(put) => if put == ch.get then 8 else 5
    case Taken(put) => if put == ch.get then 7 else 4
    case Ahead => 6
    case Publishing => 7
    case Ready => 2
    case Running => 1
  }

  lemma OnlyBusy(s: State, c: nat, d: nat, e: nat)
    requires Inv(s) && BusyAt(s, c, d) && BusyAt(s, c, e)
    ensures d == e
  {
    assert TurnsOk(s, d, e);
  }

  lemma NotBusyBetween(s: State, c: nat)
    requires c < |s.chans| && forall d: nat :: !BusyAt(s, c, d)
    ensures Between(s, s.chans[c].engine)
  {
    forall d: nat
      ensures Rests(s, s.chans[c].engine, d)
    {
      assert !BusyAt(s, c, d);
    }
    forall d | 0 <= d < |s.chans| && s.chans[d].engine == s.chans[c].engine
      ensures s.chans[d].stage != Running
    {
      assert !BusyAt(s, c, d);
    }
  }

  /** The engine's next step takes it closer to retiring the head of `c`, or retires it. */
  lemma EngineStep(s: State, c: nat) returns (a: Action, s': State)
    requires Inv(s) && HeadReady(s, c) && !s.chans[c].parked
    ensures a == EngineDue(s, c) && Onwards(s, s', a) && Closer(s, s', c)
  {
    a := EngineDue(s, c);
    if d: nat :| BusyAt(s, c, d) {
      forall e: nat | BusyAt(s, c, e)
        ensures e == d
      {
        OnlyBusy(s, c, d, e);
      }
      if d == c {
        s' := OwnStep(s, c);
      } else if s.chans[d].stage == Running {
        s' := LeaveStep(s, c, d);
      } else {
        s' := OtherStep(s, c, d);
      }
    } else {
      s' := FirstStep(s, c);
    }
  }

  ghost predicate Closer(s: State, s': State, c: nat) {
    && SameRings(s, s') && c < |s.chans| && !s'.chans[c].parked
    && (s'.chans[c].get == s.chans[c].get + 1
        || (s'.chans[c].get == s.chans[c].get && EngineAhead(s', c) < EngineAhead(s, c)))
    && forall d :: 0 <= d < |s.chans| ==> s.chans[d].get <= s'.chans[d].get
  }

  /** What the engine does next with the channel it is busy with. */
  ghost function StageDue(s: State, c: nat, d: nat): (a: Action)
    requires BusyAt(s, c, d)
  {
    var x := s.chans[d];
    if x.stage.Loaded? then TakeFail(d)
    else if x.stage.Taken? then Admit(d)
    else if x.stage == Publishing then Push(d)
    else if d == c then Retire(c)
    else NewScan(x.engine)
  }

  lemma OwnStep(s: State, c: nat) returns (s': State)
    requires Inv(s) && HeadReady(s, c) && !s.chans[c].parked && BusyAt(s, c, c)
    requires forall e: nat :: BusyAt(s, c, e) ==> e == c
    ensures Onwards(s, s', StageDue(s, c, c)) && Closer(s, s', c)
  {
    assert ChannelOk(s, c);
    var x := s.chans[c];
    match x.stage {
      case Loaded(put) => s' := With(s, c, if x.fail then FailTaken(x) else x.(stage := Taken(put)));
      case Taken(put) => s' := With(s, c, x.(stage := if Admissible(s, c) then Ready else Ahead));
      case Running => s' := With(s, c, x.(get := x.get + 1));
    }
    assert forall e: nat :: e != c && BusyAt(s', c, e) ==> BusyAt(s, c, e);
  }

  lemma OtherStep(s: State, c: nat, d: nat) returns (s': State)
    requires Inv(s) && c < |s.chans| && !s.chans[c].parked && BusyAt(s, c, d) && d != c && s.chans[d].stage != Running
    requires forall e: nat :: BusyAt(s, c, e) ==> e == d
    ensures Onwards(s, s', StageDue(s, c, d)) && Closer(s, s', c)
  {
    assert ChannelOk(s, c) && ChannelOk(s, d);
    assert TurnsOk(s, d, c) && !BusyAt(s, c, c);
    assert OthersBusy(s, c) && (s.chans[d].stage.Loaded? ==> OthersLoaded(s, c));
    var x := s.chans[d];
    match x.stage {
      case Loaded(put) => s' := With(s, d, if x.fail then FailTaken(x) else x.(stage := Taken(put)));
      case Taken(put) => s' := With(s, d, x.(stage := if Admissible(s, d) then Ready else Ahead));
      case Publishing => s' := With(s, d, x.(stage := Ahead)).(queue := s.queue + [d]);
    }
    assert forall e: nat :: e != d && BusyAt(s', c, e) ==> BusyAt(s, c, e);
    assert !OthersLoaded(s', c);
    assert !x.stage.Loaded? ==> !OthersBusy(s', c);
  }

  lemma LeaveStep(s: State, c: nat, d: nat) returns (s': State)
    requires Inv(s) && c < |s.chans| && !s.chans[c].parked && BusyAt(s, c, d) && d != c && s.chans[d].stage == Running
    ensures Onwards(s, s', NewScan(s.chans[d].engine)) && Closer(s, s', c)
  {
    RunningRests(s, d);
    s' := Rescanned(s, s.chans[d].engine);
    assert TurnsOk(s, d, c);
    assert OthersBusy(s, c);
    assert forall e: nat :: !BusyAt(s', c, e);
  }

  lemma FirstStep(s: State, c: nat) returns (s': State)
    requires Inv(s) && HeadReady(s, c) && !s.chans[c].parked && forall e: nat :: !BusyAt(s, c, e)
    ensures Onwards(s, s', if s.chans[c].stage == Ready then Choose(c) else Load(c)) && Closer(s, s', c)
  {
    assert !BusyAt(s, c, c);
    NotBusyBetween(s, c);
    if s.chans[c].stage == Ready {
      s' := With(Rescanned(s, s.chans[c].engine), c, s.chans[c].(stage := Running));
    } else {
      s' := With(s, c, s.chans[c].(stage := Loaded(|s.chans[c].cmds|)));
    }
    assert forall e: nat :: e != c && BusyAt(s', c, e) ==> BusyAt(s, c, e);
  }

  lemma RunningRests(s: State, d: nat)
    requires Inv(s) && d < |s.chans| && s.chans[d].stage == Running
    ensures Rested(s, s.chans[d].engine)
  {
    forall e: nat
      ensures Rests(s, s.chans[d].engine, e)
    {
      assert TurnsOk(s, d, e);
    }
  }

  /** A head that may run retires by steps of its engine and of the fault pipeline alone. */
  lemma {:induction false} HeadRetires(s: State, c: nat) returns (t: State)
    requires Inv(s) && HeadReady(s, c) && !s.chans[c].parked
    ensures Runs.Reaches(s, t, Onwards) && Inv(t) && SameRings(s, t) && t.chans[c].get == s.chans[c].get + 1
    ensures forall d :: 0 <= d < |s.chans| ==> s.chans[d].get <= t.chans[d].get
    decreases EngineAhead(s, c)
  {
    var a, s' := EngineStep(s, c);
    StepKeepsInv(s, s', a);
    if s'.chans[c].get == s.chans[c].get + 1 {
      t := s';
      Runs.ReachesItself(t, Onwards);
    } else {
      t := HeadRetires(s', c);
    }
    Runs.StepReaches(s, a, s', t, Onwards);
  }

  /** Published minus retired. */
  ghost function Pending(chans: seq<Channel>): (n: int) {
    if chans == [] then 0 else |chans[0].cmds| - chans[0].get + Pending(chans[1..])
  }

  lemma {:induction false} PendingBy(chans: seq<Channel>, chans': seq<Channel>, c: nat, more: int)
    requires |chans'| == |chans| && c < |chans|
             && (|chans'[c].cmds| - chans'[c].get) - (|chans[c].cmds| - chans[c].get) == more
    requires forall d :: 0 <= d < |chans| && d != c ==> chans'[d].cmds == chans[d].cmds && chans'[d].get == chans[d].get
    ensures Pending(chans') == Pending(chans) + more
  {
    if c > 0 {
      PendingBy(chans[1..], chans'[1..], c - 1, more);
    } else {
      PendingSame(chans[1..], chans'[1..]);
    }
  }

  lemma {:induction false} PendingSame(chans: seq<Channel>, chans': seq<Channel>)
    requires |chans'| == |chans|
    requires forall d :: 0 <= d < |chans| ==> chans'[d].cmds == chans[d].cmds && chans'[d].get == chans[d].get
    ensures Pending(chans') == Pending(chans)
  {
    if chans != [] {
      PendingSame(chans[1..], chans'[1..]);
    }
  }

  lemma {:induction false} PendingLess(chans: seq<Channel>, chans': seq<Channel>, c: nat)
    requires |chans'| == |chans| && c < |chans| && chans[c].get < chans'[c].get
    requires forall d ::
             0 <= d < |chans| ==> chans'[d].cmds == chans[d].cmds && chans[d].get <= chans'[d].get <= |chans'[d].cmds|
    ensures 0 <= Pending(chans') < Pending(chans)
  {
    if c > 0 {
      PendingLess(chans[1..], chans'[1..], c - 1);
    } else {
      PendingAtMost(chans[1..], chans'[1..]);
    }
  }

  lemma {:induction false} PendingAtMost(chans: seq<Channel>, chans': seq<Channel>)
    requires |chans'| == |chans|
    requires forall d ::
             0 <= d < |chans| ==> chans'[d].cmds == chans[d].cmds && chans[d].get <= chans'[d].get <= |chans'[d].cmds|
    ensures 0 <= Pending(chans') <= Pending(chans)
  {
    if chans != [] {
      PendingAtMost(chans[1..], chans'[1..]);
    }
  }

  /** The step retires the head of a channel, executed or not. */
  ghost predicate Retires(s: State, a: Action) {
    a.Retire? || (a.TakeFail? && a.c < |s.chans| && s.chans[a.c].fail && s.chans[a.c].stage.Loaded?
        && s.chans[a.c].stage.put != s.chans[a.c].get)
  }

  /** Commands are conserved: publishing adds one, each retirement takes one, and nothing else changes the count. */
  lemma StepCounts(s: State, s': State, a: Action)
    requires Inv(s) && Does(s, s', a)
    ensures Pending(s'.chans) == Pending(s.chans) + (if a.Append? then 1 else if Retires(s, a) then -1 else 0)
  {
    if a.Append? {
      PendingBy(s.chans, s'.chans, a.c, 1);
    } else if Retires(s, a) {
      PendingBy(s.chans, s'.chans, a.c, -1);
    } else {
      PendingSame(s.chans, s'.chans);
    }
  }

  ghost predicate Drained(s: State) {
    forall c :: !Unretired(s, c)
  }

  /** From every state engines and fault pipeline can go on until every command has retired: no set of waits, parked
      channels and outstanding failures can block itself. */
  lemma {:induction false} Drains(s: State) returns (t: State)
    requires Inv(s)
    ensures Runs.Reaches(s, t, Onwards) && Inv(t) && SameRings(s, t) && Drained(t)
    decreases var n := Pending(s.chans); if n < 0 then 0 else n
  {
    if Drained(s) {
      t := s;
      Runs.ReachesItself(t, Onwards);
    } else {
      var some :| Unretired(s, some);
      var c, _ := NoDeadlock(s, some);
      var u := Unparks(s, c);
      var v := HeadRetires(u, c);
      forall d | 0 <= d < |s.chans|
        ensures v.chans[d].get <= |v.chans[d].cmds|
      {
        assert ChannelOk(v, d);
      }
      PendingLess(s.chans, v.chans, c);
      t := Drains(v);
      Runs.ReachesOn(u, v, t, Onwards);
      Runs.ReachesOn(s, u, t, Onwards);
    }
  }

  // ---------------------------------------------------------------------------------------------
  // What a retired WAIT means
  // ---------------------------------------------------------------------------------------------

  ghost predicate WaitHolds(s: State, c: nat, i: nat) {
    c < |s.chans| && i < s.chans[c].get && i < |s.chans[c].cmds| && s.chans[c].cmds[i].cmd.Wait? ==>
      Passed(s, s.chans[c].cmds[i].cmd.channel, s.chans[c].cmds[i].cmd.value)
  }

  /** Every WAIT that has retired, retired after its fence. */
  ghost predicate WaitsHold(s: State) {
    forall c, i :: WaitHolds(s, c, i)
  }

  /** A failed migration retires the channel's head unexecuted, and it is a WAIT whose fence has not passed. */
  ghost predicate SkipsWait(s: State, a: Action) {
    a.TakeFail? && Retires(s, a) && !HeadReady(s, a.c)
  }

  /** A WAIT at the head never waits for its own channel in vain. */
  lemma OwnWaitPassed(s: State, c: nat)
    requires Inv(s) && Unretired(s, c)
    ensures var cmd := s.chans[c].cmds[s.chans[c].get].cmd;
            cmd.Wait? && cmd.channel == c ==> Passed(s, c, cmd.value)
  {
    var i := s.chans[c].get;
    var x := s.chans[c].cmds[i];
    assert EntryOk(s, c, i);
    if x.cmd.Wait? && x.cmd.channel == c && x.cmd.value > i {
      TimesGrow(s, c, i, x.cmd.value - 1);
    }
  }

  /** A step keeps the meaning of fences unless it is a failed migration that retires a WAIT in place of
      the command that faulted. */
  lemma WaitsHoldIff(s: State, s': State, a: Action)
    requires Inv(s) && WaitsHold(s) && Does(s, s', a)
    ensures WaitsHold(s') <==> !SkipsWait(s, a)
  {
    if SkipsWait(s, a) {
      assert ChannelOk(s, a.c);
      OwnWaitPassed(s, a.c);
      assert !WaitHolds(s', a.c, s.chans[a.c].get);
    } else {
      forall c: nat, i: nat
        ensures WaitHolds(s', c, i)
      {
        KeepsWait(s, s', a, c, i);
      }
    }
  }

  lemma KeepsWait(s: State, s': State, a: Action, c: nat, i: nat)
    requires Inv(s) && WaitsHold(s) && Does(s, s', a) && !SkipsWait(s, a)
    ensures WaitHolds(s', c, i)
  {
    assert WaitHolds(s, c, i);
    assert ChannelOk(s, c);
    GetsGrow(s, s', a);
  }

  lemma GetsGrow(s: State, s': State, a: Action)
    requires Inv(s) && Does(s, s', a)
    ensures |s'.chans| == |s.chans|
            && forall d :: 0 <= d < |s.chans| ==>
            s.chans[d].get <= s'.chans[d].get && s.chans[d].cmds <= s'.chans[d].cmds
  {
  }

  // ---------------------------------------------------------------------------------------------
  // Whole runs
  // ---------------------------------------------------------------------------------------------

  ghost predicate IsRun(run: seq<State>, acts: seq<Action>) {
    Runs.IsRun(run, acts, Init, Does)
  }

  lemma RunKeepsInv(run: seq<State>, acts: seq<Action>, k: nat)
    requires IsRun(run, acts) && k < |run|
    ensures Inv(run[k])
  {
    forall s, s', a | Inv(s) && Does(s, s', a)
      ensures Inv(s')
    {
      StepKeepsInv(s, s', a);
    }
    Runs.KeepInvariant(run, acts, Init, Does, Inv, k);
  }

  /** No reachable state is a deadlock. */
  lemma RunNeverDeadlocks(run: seq<State>, acts: seq<Action>, k: nat, some: nat)
    requires IsRun(run, acts) && k < |run| && Unretired(run[k], some)
    ensures exists c: nat ::
            HeadReady(run[k], c)
            && Enabled(run[k], if run[k].chans[c].parked then PipelineDue(run[k], c) else EngineDue(run[k], c))
  {
    RunKeepsInv(run, acts, k);
    var c, a := NoDeadlock(run[k], some);
  }

  /** No channel has a failed migration outstanding. */
  ghost predicate NoFail(s: State) {
    forall c :: 0 <= c < |s.chans| ==> !s.chans[c].fail
  }

  /** A step other than the failure of a migration. */
  ghost predicate Unfailing(s: State, s': State, a: Action) {
    Does(s, s', a) && a != MarkFailed
  }

  ghost predicate Healthy(s: State) {
    Inv(s) && NoFail(s) && WaitsHold(s)
  }

  lemma UnfailingKeeps(s: State, s': State, a: Action)
    requires Healthy(s) && Unfailing(s, s', a)
    ensures Healthy(s')
  {
    StepKeepsInv(s, s', a);
    WaitsHoldIff(s, s', a);
  }

  /** In every run in which no migration fails, fences mean what they say. */
  lemma {:induction false} RunKeepsWaits(run: seq<State>, acts: seq<Action>, k: nat)
    requires IsRun(run, acts) && k < |run| && forall i :: 0 <= i < k ==> acts[i] != MarkFailed
    ensures Healthy(run[k])
  {
    if k > 0 {
      RunKeepsWaits(run, acts, k - 1);
      assert Runs.StepAt(run, acts, Does, k - 1);
      UnfailingKeeps(run[k - 1], run[k], acts[k - 1]);
    }
  }

  // ---------------------------------------------------------------------------------------------
  // When a failed migration is harmless
  // ---------------------------------------------------------------------------------------------

  /** The engine has come to channel `x`, and the fault_fail it finds there will retire the head. */
  ghost predicate WillFail(s: State, x: nat) {
    x < |s.chans| && s.chans[x].fail && s.chans[x].stage.Loaded? && s.chans[x].stage.put != s.chans[x].get
  }

  /** The head may run, or may by the time its engine comes to the channel: it waits for the command that the engine
      is about to retire on another channel. */
  ghost predicate HeadDue(s: State, c: nat) {
    && Unretired(s, c)
    && var cmd := s.chans[c].cmds[s.chans[c].get].cmd;
       cmd.Wait? && !Passed(s, cmd.channel, cmd.value) ==>
         WillFail(s, cmd.channel) && s.chans[cmd.channel].engine == s.chans[c].engine
             && cmd.value == s.chans[cmd.channel].get + 1
  }

  /** A fault_fail that can do no harm: the current scan has not passed it by and will not run the channel before it
      takes it, and it will then find no head, or one that may run. */
  ghost predicate FailOk(s: State, c: nat) {
    c < |s.chans| && s.chans[c].fail ==>
      match s.chans[c].stage
      case Ahead => HeadDue(s, c)
      case Publishing => HeadDue(s, c)
      case Loaded(put) => put == s.chans[c].get || HeadReady(s, c)
      case Taken(put) => put == s.chans[c].get && HeadReady(s, c)
      case Ready => false
      case Running => false
  }

  ghost predicate FailsOk(s: State) {
    forall c: nat :: FailOk(s, c)
  }

  ghost predicate Trusted(s: State) {
    Inv(s) && WaitsHold(s) && FailsOk(s)
  }

  lemma HeadDueStays(s: State, s': State, a: Action, c: nat)
    requires Trusted(s) && Unfailing(s, s', a) && HeadDue(s, c) && s'.chans[c].get == s.chans[c].get
    ensures HeadDue(s', c)
  {
    GetsGrow(s, s', a);
    var cmd := s.chans[c].cmds[s.chans[c].get].cmd;
    if cmd.Wait? && !Passed(s, cmd.channel, cmd.value) {
      var x := cmd.channel;
      assert ChannelOk(s, x) && FailOk(s, x) && TurnsOk(s, x, c);
      assert a.NewScan? ==> Rests(s, a.engine, x);
      assert a.Choose? ==> Rests(s, s.chans[a.c].engine, x);
    }
  }

  lemma HeadReadyStays(s: State, s': State, a: Action, c: nat)
    requires Inv(s) && Does(s, s', a) && HeadReady(s, c) && s'.chans[c].get == s.chans[c].get
    ensures HeadReady(s', c)
  {
    GetsGrow(s, s', a);
  }

  /** Between two channels of its engine a head that is due may run. */
  lemma DueIsReady(s: State, c: nat)
    requires Inv(s) && HeadDue(s, c) && Rested(s, s.chans[c].engine)
    ensures HeadReady(s, c)
  {
    var cmd := s.chans[c].cmds[s.chans[c].get].cmd;
    assert cmd.Wait? ==> Rests(s, s.chans[c].engine, cmd.channel);
  }

  lemma FailStaysOk(s: State, s': State, a: Action, c: nat)
    requires Trusted(s) && Unfailing(s, s', a)
    ensures FailOk(s', c)
  {
    GetsGrow(s, s', a);
    assert FailOk(s, c) && ChannelOk(s, c);
    assert a.NewScan? ==> Rests(s, a.engine, c);
    assert a.Choose? ==> Rests(s, s.chans[a.c].engine, c);
    if c < |s.chans| && s'.chans[c].fail && s'.chans[c].get == s.chans[c].get {
      if HeadReady(s, c) {
        HeadReadyStays(s, s', a, c);
      }
      if HeadDue(s, c) {
        HeadDueStays(s, s', a, c);
        if a == Load(c) {
          DueIsReady(s, c);
        }
      }
    }
  }

  lemma TrustedKeeps(s: State, s': State, a: Action)
    requires Trusted(s) && Unfailing(s, s', a)
    ensures Trusted(s')
  {
    StepKeepsInv(s, s', a);
    assert a.TakeFail? ==> FailOk(s, a.c);
    WaitsHoldIff(s, s', a);
    forall c: nat
      ensures FailOk(s', c)
    {
      FailStaysOk(s, s', a, c);
    }
  }

  // ---------------------------------------------------------------------------------------------
  // When it is not
  // ---------------------------------------------------------------------------------------------

  /** A fault_fail is set where its engine has run past it, or will find a head that it must not retire. */
  ghost predicate Doomed(s: State, c: nat) {
    && Inv(s) && c < |s.chans| && s.chans[c].fail && Rested(s, s.chans[c].engine)
    && (s.chans[c].stage in {Ready, Running} || !HeadReady(s, c))
  }

  /** The engine's next scan takes it and retires a WAIT whose fence has not passed. */
  lemma Strikes(s: State, c: nat) returns (t: State)
    requires Doomed(s, c) && Unretired(s, c) && !HeadReady(s, c)
    ensures Runs.Reaches(s, t, Unfailing) && !WaitsHold(t)
  {
    var e := s.chans[c].engine;
    var s1 := Rescanned(s, e);
    StepKeepsInv(s, s1, NewScan(e));
    assert forall d: nat :: Rests(s1, e, d);
    var s2 := With(s1, c, s1.chans[c].(stage := Loaded(|s1.chans[c].cmds|)));
    assert Does(s1, s2, Load(c));
    t := With(s2, c, FailTaken(s2.chans[c]));
    assert Does(s2, t, TakeFail(c));
    OwnWaitPassed(s, c);
    assert !WaitHolds(t, c, s.chans[c].get);
    Runs.ReachesItself(t, Unfailing);
    Runs.StepReaches(s2, TakeFail(c), t, t, Unfailing);
    Runs.StepReaches(s1, Load(c), s2, t, Unfailing);
    Runs.StepReaches(s, NewScan(e), s1, t, Unfailing);
  }

  /** If there is no head yet, the next one may be such a WAIT. */
  lemma WaitComes(s: State, c: nat, d: nat) returns (t: State)
    requires Doomed(s, c) && !Unretired(s, c) && d < |s.chans| && d != c
    ensures Runs.Reaches(s, t, Unfailing) && Doomed(t, c) && Unretired(t, c) && !HeadReady(t, c)
  {
    assert ChannelOk(s, c) && ChannelOk(s, d);
    var wait := Wait(d, |s.chans[d].cmds| + 1);
    var s1 := Appended(s, d, Work(0));
    StepKeepsInv(s, s1, Append(d, Work(0)));
    t := Appended(s1, c, wait);
    StepKeepsInv(s1, t, Append(c, wait));
    forall x: nat
      ensures Rests(t, t.chans[c].engine, x)
    {
      assert Rests(s, s.chans[c].engine, x);
    }
    Runs.ReachesItself(t, Unfailing);
    Runs.StepReaches(s1, Append(c, wait), t, t, Unfailing);
    Runs.StepReaches(s, Append(d, Work(0)), s1, t, Unfailing);
  }

  /** A channel that runs with fault_fail set runs until it is empty or blocked. */
  lemma {:induction false} RunsOut(s: State, c: nat) returns (t: State)
    requires Doomed(s, c) && s.chans[c].stage == Running
    ensures Runs.Reaches(s, t, Unfailing) && Doomed(t, c) && !HeadReady(t, c) && |t.chans| == |s.chans|
    decreases |s.chans[c].cmds| - s.chans[c].get
  {
    if !HeadReady(s, c) {
      t := s;
      Runs.ReachesItself(t, Unfailing);
    } else {
      var s' := With(s, c, s.chans[c].(get := s.chans[c].get + 1));
      StepKeepsInv(s, s', Retire(c));
      RunningRests(s', c);
      t := RunsOut(s', c);
      Runs.StepReaches(s, Retire(c), s', t, Unfailing);
    }
  }

  lemma DoomedFalls(s: State, c: nat) returns (t: State)
    requires Doomed(s, c) && |s.chans| >= 2
    ensures Runs.Reaches(s, t, Unfailing) && !WaitsHold(t)
    decreases if HeadReady(s, c) then 1 else 0
  {
    if Unretired(s, c) && !HeadReady(s, c) {
      t := Strikes(s, c);
    } else if !HeadReady(s, c) {
      var u := WaitComes(s, c, if c == 0 then 1 else 0);
      t := Strikes(u, c);
      Runs.ReachesOn(s, u, t, Unfailing);
    } else {
      var u := GetsToRun(s, c);
      var v := RunsOut(u, c);
      t := DoomedFalls(v, c);
      Runs.ReachesOn(u, v, t, Unfailing);
      Runs.ReachesOn(s, u, t, Unfailing);
    }
  }

  lemma GetsToRun(s: State, c: nat) returns (t: State)
    requires Doomed(s, c) && s.chans[c].stage in {Ready, Running}
    ensures Runs.Reaches(s, t, Unfailing) && Doomed(t, c) && t.chans[c].stage == Running && |t.chans| == |s.chans|
  {
    if s.chans[c].stage == Running {
      t := s;
    } else {
      var e := s.chans[c].engine;
      forall d | 0 <= d < |s.chans| && s.chans[d].engine == e
        ensures s.chans[d].stage != Running
      {
        assert TurnsOk(s, d, c);
      }
      t := With(Rescanned(s, e), c, s.chans[c].(stage := Running));
      assert Does(s, t, Choose(c));
      StepKeepsInv(s, t, Choose(c));
      RunningRests(t, c);
    }
    Runs.ReachesItself(t, Unfailing);
    if t != s {
      Runs.StepReaches(s, Choose(c), t, t, Unfailing);
    }
  }

  /** What the engine does with channel `d` it is at, if it does not run it. */
  lemma FinishStep(s: State, c: nat, d: nat) returns (a: Action, s': State)
    requires Inv(s) && BusyAt(s, c, d) && s.chans[d].stage != Running
    ensures Unfailing(s, s', a) && |s'.chans| == |s.chans| && Inv(s')
    ensures d != c ==> s'.chans[c] == s.chans[c]
    ensures a == TakeFail(d) || a == Admit(d) || a == Push(d)
    ensures s'.chans[d].stage.Taken? ==> s.chans[d].stage.Loaded?
    ensures !s'.chans[d].stage.Taken? ==> s'.chans[d].stage in {Ahead, Ready}
    ensures forall e: nat :: e != d && e < |s.chans| ==> s'.chans[e] == s.chans[e]
  {
    var x := s.chans[d];
    match x.stage {
      case Loaded(put) => a, s' := TakeFail(d), With(s, d, if x.fail then FailTaken(x) else x.(stage := Taken(put)));
      case Taken(put) => a, s' := Admit(d), With(s, d, x.(stage := if Admissible(s, d) then Ready else Ahead));
      case Publishing => a, s' := Push(d), With(s, d, x.(stage := Ahead)).(queue := s.queue + [d]);
    }
    StepKeepsInv(s, s', a);
  }

  /** A head that is not due does not become ready by what the engine does at another channel. */
  lemma StaysUndue(s: State, s': State, a: Action, c: nat, d: nat)
    requires Inv(s) && Does(s, s', a) && BusyAt(s, c, d) && s.chans[d].stage != Running && d != c && !HeadDue(s, c)
    requires a == TakeFail(d) || a == Admit(d) || a == Push(d)
    ensures !HeadDue(s', c)
  {
    assert ChannelOk(s, c) && ChannelOk(s, d);
    if Unretired(s, c) {
      var cmd := s.chans[c].cmds[s.chans[c].get].cmd;
      var x := cmd.channel;
      if x < |s.chans| && x != d {
        assert TurnsOk(s, d, x);
      }
    }
  }

  /** The engine finishes with the channel it is at. */
  lemma {:induction false} Settles(s: State, c: nat) returns (t: State)
    requires Inv(s) && c < |s.chans| && s.chans[c].stage in {Ahead, Ready}
    ensures Runs.Reaches(s, t, Unfailing) && Inv(t) && |t.chans| == |s.chans| && t.chans[c] == s.chans[c]
    ensures Rested(t, t.chans[c].engine) && (!HeadDue(s, c) ==> !HeadDue(t, c))
    decreases if OthersLoaded(s, c) then 2 else if OthersBusy(s, c) then 1 else 0
  {
    if d: nat :| BusyAt(s, c, d) && s.chans[d].stage != Running {
      var a, s' := FinishStep(s, c, d);
      if !HeadDue(s, c) {
        StaysUndue(s, s', a, c, d);
      }
      SettlesCloser(s, s', c, d);
      t := Settles(s', c);
      Runs.StepReaches(s, a, s', t, Unfailing);
    } else {
      t := s;
      Runs.ReachesItself(t, Unfailing);
      forall d: nat
        ensures Rests(s, s.chans[c].engine, d)
      {
        assert !BusyAt(s, c, d) || s.chans[d].stage == Running;
      }
    }
  }

  lemma SettlesCloser(s: State, s': State, c: nat, d: nat)
    requires Inv(s) && BusyAt(s, c, d) && d != c && |s'.chans| == |s.chans| && s'.chans[c] == s.chans[c]
    requires s'.chans[d].stage.Taken? ==> s.chans[d].stage.Loaded?
    requires !s'.chans[d].stage.Taken? ==> s'.chans[d].stage in {Ahead, Ready}
    requires forall e: nat :: e != d && e < |s.chans| ==> s'.chans[e] == s.chans[e]
    ensures OthersBusy(s, c) && !OthersLoaded(s', c) && (OthersBusy(s', c) ==> OthersLoaded(s, c))
  {
    forall e: nat | e != c && BusyAt(s', c, e)
      ensures e == d
    {
      if e != d {
        assert BusyAt(s, c, e);
        OnlyBusy(s, c, d, e);
      }
    }
  }

  /** Every way to violate FailsOk leads there, or harms at once. */
  lemma Harms(s: State, c: nat) returns (t: State)
    requires Inv(s) && WaitsHold(s) && |s.chans| >= 2 && !FailOk(s, c)
    ensures Runs.Reaches(s, t, Unfailing) && !WaitsHold(t)
  {
    var u: State;
    match s.chans[c].stage {
      case Ahead => u := Settles(s, c);
      case Ready => u := Settles(s, c);
      case Running =>
        u := s;
        RunningRests(s, c);
        Runs.ReachesItself(u, Unfailing);
      case Publishing => u := AfterPush(s, c);
      case Loaded(_) => t := AfterLoad(s, c);
      case Taken(_) => u := AfterTaken(s, c);
    }
    if !s.chans[c].stage.Loaded? {
      t := DoomedFalls(u, c);
      Runs.ReachesOn(s, u, t, Unfailing);
    }
  }

  lemma AfterPush(s: State, c: nat) returns (u: State)
    requires Inv(s) && c < |s.chans| && s.chans[c].fail && s.chans[c].stage == Publishing && !HeadDue(s, c)
    ensures Runs.Reaches(s, u, Unfailing) && Doomed(u, c) && |u.chans| == |s.chans|
  {
    var a;
    a, u := FinishStep(s, c, c);
    forall d: nat
      ensures Rests(u, u.chans[c].engine, d)
    {
      assert TurnsOk(s, c, d);
    }
    Runs.ReachesItself(u, Unfailing);
    Runs.StepReaches(s, a, u, u, Unfailing);
  }

  lemma AfterLoad(s: State, c: nat) returns (t: State)
    requires Inv(s) && WaitsHold(s) && c < |s.chans| && s.chans[c].stage.Loaded? && !FailOk(s, c)
    ensures Runs.Reaches(s, t, Unfailing) && !WaitsHold(t)
  {
    t := With(s, c, FailTaken(s.chans[c]));
    assert Does(s, t, TakeFail(c));
    WaitsHoldIff(s, t, TakeFail(c));
    Runs.ReachesItself(t, Unfailing);
    Runs.StepReaches(s, TakeFail(c), t, t, Unfailing);
  }

  lemma AfterTaken(s: State, c: nat) returns (u: State)
    requires Inv(s) && c < |s.chans| && s.chans[c].stage.Taken? && !FailOk(s, c)
    ensures Runs.Reaches(s, u, Unfailing) && Doomed(u, c) && |u.chans| == |s.chans|
  {
    var v := s;
    if HeadReady(s, c) {
      v := Unparks(s, c);
      OnwardsIsUnfailing(s, v);
    } else {
      Runs.ReachesItself(s, Unfailing);
    }
    var a;
    a, u := FinishStep(v, c, c);
    forall d: nat
      ensures Rests(u, u.chans[c].engine, d)
    {
      assert TurnsOk(v, c, d);
    }
    Runs.ReachesItself(u, Unfailing);
    Runs.StepReaches(v, a, u, u, Unfailing);
    Runs.ReachesOn(s, v, u, Unfailing);
  }

  lemma OnwardsIsUnfailing(s: State, t: State)
    requires Runs.Reaches(s, t, Onwards)
    ensures Runs.Reaches(s, t, Unfailing)
  {
    var run, acts :| Runs.IsPath(run, acts, Onwards) && run[0] == s && run[|run| - 1] == t;
    forall k: nat | k < |acts|
      ensures Runs.StepAt(run, acts, Unfailing, k)
    {
      assert Runs.StepAt(run, acts, Onwards, k);
    }
    assert Runs.IsPath(run, acts, Unfailing);
  }

  /** Exactly when fences can be trusted from a state on, as long as no further migration fails: when every
      fault_fail that is set is harmless where it is. */
  lemma FencesTrustedIff(s: State)
    requires Inv(s) && WaitsHold(s) && |s.chans| >= 2
    ensures FailsOk(s) <==> forall t :: Runs.Reaches(s, t, Unfailing) ==> WaitsHold(t)
  {
    if FailsOk(s) {
      forall t | Runs.Reaches(s, t, Unfailing)
        ensures WaitsHold(t)
      {
        forall x, x', a | Trusted(x) && Unfailing(x, x', a)
          ensures Trusted(x')
        {
          TrustedKeeps(x, x', a);
        }
        Runs.KeepReaching(s, t, Unfailing, Trusted);
      }
    } else {
      var c: nat :| !FailOk(s, c);
      var t := Harms(s, c);
    }
  }

  /** A migration that fails only while its channel's fault_fail is harmless. */
  ghost predicate FailsSafely(s: State, s': State, a: Action) {
    Does(s, s', a) && (a == MarkFailed ==> FailOk(s', s.servicing.value))
  }

  /** Failed migrations do no harm, any number of them, if none is marked where it can: after its engine has taken the
      flag and before it has looked at the channel, or when the command that faulted is not at the head any more. */
  lemma RunKeepsTrust(run: seq<State>, acts: seq<Action>, k: nat)
    requires Runs.IsRun(run, acts, Init, FailsSafely) && k < |run|
    ensures Trusted(run[k])
  {
    forall s, s', a | Trusted(s) && FailsSafely(s, s', a)
      ensures Trusted(s')
    {
      if a == MarkFailed {
        MarkKeeps(s, s');
      } else {
        TrustedKeeps(s, s', a);
      }
    }
    Runs.KeepInvariant(run, acts, Init, FailsSafely, Trusted, k);
  }

  lemma MarkKeeps(s: State, s': State)
    requires Trusted(s) && FailsSafely(s, s', MarkFailed)
    ensures Trusted(s')
  {
    StepKeepsInv(s, s', MarkFailed);
    WaitsHoldIff(s, s', MarkFailed);
    forall c: nat
      ensures FailOk(s', c)
    {
      assert FailOk(s, c);
    }
  }

  /** Two channels: 0 has two commands, a WAIT for channel 1 the second; 1 has one. */
  function Snapshot(get: nat, stage: Stage, parked: bool, fail: bool, queue: seq<nat>,
                    servicing: Option<nat>): (s: State) {
    State([Channel(0, [Entry(Work(0), 1), Entry(Wait(1, 1), 2)], get, parked, fail, stage),
        Idle(1).(cmds := [Entry(Work(0), 0)])],
          3, queue, servicing)
  }

  const UNLUCKY: seq<Action> :=
    [Append(1, Work(0)), Append(0, Work(0)), Append(0, Wait(1, 1)), Load(0), TakeFail(0), Admit(0), Choose(0), Fault(0),
     Push(0), Pop, Load(0), TakeFail(0), MarkFailed, Unpark, Admit(0), Choose(0), Fault(0), Push(0), Load(0),
     TakeFail(0), Pop, MarkFailed, Load(0), TakeFail(0)]

  const UNLUCKY_RUN: seq<State> :=
    [State([Idle(0), Idle(1)], 0, [], None),
     State([Idle(0), Idle(1).(cmds := [Entry(Work(0), 0)])], 1, [], None),
     State([Idle(0).(cmds := [Entry(Work(0), 1)]), Idle(1).(cmds := [Entry(Work(0), 0)])], 2, [], None),
     Snapshot(0, Ahead, false, false, [], None),
     Snapshot(0, Loaded(2), false, false, [], None),
     Snapshot(0, Taken(2), false, false, [], None),
     Snapshot(0, Ready, false, false, [], None),
     Snapshot(0, Running, false, false, [], None),
     Snapshot(0, Publishing, true, false, [], None),
     Snapshot(0, Ahead, true, false, [0], None),
     Snapshot(0, Ahead, true, false, [], Some(0)),
     Snapshot(0, Loaded(2), true, false, [], Some(0)),
     Snapshot(0, Taken(2), true, false, [], Some(0)),
     Snapshot(0, Taken(2), true, true, [], Some(0)),
     Snapshot(0, Taken(2), false, true, [], None),
     Snapshot(0, Ready, false, true, [], None),
     Snapshot(0, Running, false, true, [], None),
     Snapshot(0, Publishing, true, true, [], None),
     Snapshot(0, Ahead, true, true, [0], None),
     Snapshot(0, Loaded(2), true, true, [0], None),
     Snapshot(1, Ahead, true, false, [0], None),
     Snapshot(1, Ahead, true, false, [], Some(0)),
     Snapshot(1, Ahead, true, true, [], Some(0)),
     Snapshot(1, Loaded(2), true, true, [], Some(0)),
     Snapshot(2, Ahead, true, false, [], Some(0))]

  lemma UnluckyStart(k: nat)
    requires k < 3
    ensures Does(UNLUCKY_RUN[k], UNLUCKY_RUN[k + 1], UNLUCKY[k])
  {
    var s, s' := UNLUCKY_RUN[k], UNLUCKY_RUN[k + 1];
    var c := UNLUCKY[k].c;
    assert s'.chans[c].cmds == s.chans[c].cmds + [Entry(UNLUCKY[k].cmd, s.clock)];
    assert s.chans[c := s'.chans[c]] == s'.chans;
  }

  lemma UnluckyFault(k: nat)
    requires 3 <= k < 10 && k != 6
    ensures Does(UNLUCKY_RUN[k], UNLUCKY_RUN[k + 1], UNLUCKY[k])
  {
    var s, s' := UNLUCKY_RUN[k], UNLUCKY_RUN[k + 1];
    assert s.chans[0 := s'.chans[0]] == s'.chans;
  }

  lemma UnluckyFirstFailure(k: nat)
    requires 10 <= k < 17 && k != 15
    ensures Does(UNLUCKY_RUN[k], UNLUCKY_RUN[k + 1], UNLUCKY[k])
  {
    var s, s' := UNLUCKY_RUN[k], UNLUCKY_RUN[k + 1];
    assert s.chans[0 := s'.chans[0]] == s'.chans;
  }

  lemma UnluckySecondFailure(k: nat)
    requires 17 <= k < 24
    ensures Does(UNLUCKY_RUN[k], UNLUCKY_RUN[k + 1], UNLUCKY[k])
  {
    var s, s' := UNLUCKY_RUN[k], UNLUCKY_RUN[k + 1];
    assert s.chans[0 := s'.chans[0]] == s'.chans;
  }

  lemma UnluckyChoice(k: nat)
    requires k == 6 || k == 15
    ensures Does(UNLUCKY_RUN[k], UNLUCKY_RUN[k + 1], UNLUCKY[k])
  {
    var s, s' := UNLUCKY_RUN[k], UNLUCKY_RUN[k + 1];
    assert Rescanned(s, 0).chans[0 := s'.chans[0]] == s'.chans;
  }

  /** And that can happen: a migration fails twice for one command, the first failure retires it, the
      second retires the WAIT behind it, whose fence has not passed. */
  lemma FailureCanSkipWait()
    ensures |UNLUCKY_RUN| == |UNLUCKY| + 1 && Init(UNLUCKY_RUN[0])
    ensures forall k :: 0 <= k < |UNLUCKY| ==> Does(UNLUCKY_RUN[k], UNLUCKY_RUN[k + 1], UNLUCKY[k])
    ensures SkipsWait(UNLUCKY_RUN[23], UNLUCKY[23])
  {
    forall k | 0 <= k < |UNLUCKY|
      ensures Does(UNLUCKY_RUN[k], UNLUCKY_RUN[k + 1], UNLUCKY[k])
    {
      if k < 3 {
        UnluckyStart(k);
      } else if k == 6 || k == 15 {
        UnluckyChoice(k);
      } else if k < 10 {
        UnluckyFault(k);
      } else if k < 17 {
        UnluckyFirstFailure(k);
      } else {
        UnluckySecondFailure(k);
      }
    }
  }
}
