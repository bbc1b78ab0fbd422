/**
  Streams and events of the runtime (`stream_submit`, sgEventRecord, sgStreamWaitEvent). A stream spreads
  its commands over rings of several engines and keeps them in order with WAIT_FENCE commands.
*/
module Streams {
  import opened Base
  import Runs
  import C = Channels

  /** `value` commands of ring `channel`. */
  datatype Fence = Fence(channel: nat, value: nat)

  /** What the caller asked for. A copy through staging is several commands in its ring. */
  datatype Job = Job(id: nat, chunks: nat)

  /** A command of a stream: its chunks lie in ring `ring` at positions `at`, from `first` on, below `fence`. */
  datatype Issued = Issued(ring: nat, first: nat, fence: nat, job: Job, at: seq<nat>)

  /** Position `i` of the chunks holds what was asked for, and they are in order. */
  ghost predicate ChunkAt(s: C.State, ring: nat, job: Job, at: seq<nat>, fence: nat, i: nat) {
    && ring < |s.chans| && i < |at| && at[i] < fence && at[i] < |s.chans[ring].cmds|
    && s.chans[ring].cmds[at[i]].cmd == C.Work(job.id) && (i > 0 ==> at[i - 1] < at[i])
  }

  ghost predicate ChunksAt(s: C.State, ring: nat, job: Job, at: seq<nat>, fence: nat) {
    forall i: nat :: i < |at| ==> ChunkAt(s, ring, job, at, fence, i)
  }

  /** The whole command is in its ring, below its fence. */
  ghost predicate InRing(s: C.State, x: Issued) {
    |x.at| == x.job.chunks > 0 && x.at[0] == x.first && ChunksAt(s, x.ring, x.job, x.at, x.fence)
  }

  lemma ChunksStay(s: C.State, s': C.State, ring: nat, job: Job, at: seq<nat>, fence: nat, fence': nat)
    requires Later(s, s') && ChunksAt(s, ring, job, at, fence) && fence <= fence'
    ensures ChunksAt(s', ring, job, at, fence')
  {
    forall i: nat | i < |at|
      ensures ChunkAt(s', ring, job, at, fence', i)
    {
      assert ChunkAt(s, ring, job, at, fence, i);
    }
  }

  /** One more chunk. */
  lemma ChunksGrow(s: C.State, s': C.State, ring: nat, job: Job, at: seq<nat>, fence: nat, k: nat)
    requires Later(s, s') && ChunksAt(s, ring, job, at, fence) && fence <= k && ring < |s'.chans|
    requires k < |s'.chans[ring].cmds| && s'.chans[ring].cmds[k].cmd == C.Work(job.id)
    ensures ChunksAt(s', ring, job, at + [k], k + 1)
  {
    ChunksStay(s, s', ring, job, at, fence, k + 1);
    var more, fence' := at + [k], k + 1;
    forall i: nat | i < |more|
      ensures ChunkAt(s', ring, job, more, fence', i)
    {
      assert i < |at| ==> ChunkAt(s', ring, job, at, fence', i);
      assert i > 0 ==> ChunkAt(s, ring, job, at, fence, i - 1);
    }
  }

  /** What other threads and the engines do meanwhile: publish, execute and retire commands. */
  ghost predicate Later(s: C.State, s': C.State) {
    && |s'.chans| == |s.chans|
    && (forall c :: 0 <= c < |s.chans| ==> s.chans[c].cmds <= s'.chans[c].cmds && s.chans[c].get <= s'.chans[c].get)
  }

  ghost predicate DeviceOk(s: C.State) {
    C.Inv(s) && C.WaitsHold(s)
  }

  /** Every step of the device leads to a later state, unless a failed migration skips a WAIT. */
  lemma StepIsLater(s: C.State, s': C.State, a: C.Action)
    requires DeviceOk(s) && C.Does(s, s', a) && !C.SkipsWait(s, a)
    ensures DeviceOk(s') && Later(s, s')
  {
    C.StepKeepsInv(s, s', a);
    C.WaitsHoldIff(s, s', a);
  }

  lemma LaterTransitive(s: C.State, t: C.State, u: C.State)
    requires Later(s, t) && Later(t, u)
    ensures Later(s, u)
  {
  }

  ghost predicate Published(s: C.State, f: Fence) {
    f.channel < |s.chans| && f.value <= |s.chans[f.channel].cmds|
  }

  ghost predicate WaitAt(s: C.State, ring: nat, i: nat, f: Fence) {
    ring < |s.chans| && i < |s.chans[ring].cmds| && s.chans[ring].cmds[i].cmd == C.Wait(f.channel, f.value)
  }

  /** The fence is in the same ring in front of position `first`, or a WAIT for it is. */
  ghost predicate Ordered(s: C.State, ring: nat, first: nat, f: Fence) {
    if f.channel == ring then f.value <= first else exists i: nat :: i < first && WaitAt(s, ring, i, f)
  }

  lemma OrderedStays(s: C.State, s': C.State, ring: nat, first: nat, f: Fence)
    requires Later(s, s') && Ordered(s, ring, first, f)
    ensures Ordered(s', ring, first, f)
  {
    if f.channel != ring {
      var i: nat :| i < first && WaitAt(s, ring, i, f);
      assert WaitAt(s', ring, i, f);
    }
  }

  /** The ring has come to the command: its first chunk is the head, executing or retired. */
  ghost predicate Started(s: C.State, x: Issued) {
    x.ring < |s.chans| && s.chans[x.ring].get >= x.first
  }

  ghost predicate Finished(s: C.State, x: Issued) {
    C.Passed(s, x.ring, x.fence)
  }

  /** Fences mean what they say: a ring gets to a command only after the fences it is ordered behind. */
  lemma OrderedPasses(s: C.State, x: Issued, f: Fence)
    requires DeviceOk(s) && Ordered(s, x.ring, x.first, f) && Started(s, x)
    ensures C.Passed(s, f.channel, f.value)
  {
    if f.channel != x.ring {
      var i: nat :| i < x.first && WaitAt(s, x.ring, i, f);
      assert C.WaitHolds(s, x.ring, i);
    }
  }

  ghost predicate LinkOk(s: C.State, history: seq<Issued>, k: nat)
    requires k < |history|
  {
    && history[k].first < history[k].fence && InRing(s, history[k])
    && Published(s, Fence(history[k].ring, history[k].fence))
    && (k > 0 ==> Ordered(s, history[k].ring, history[k].first, Fence(history[k - 1].ring, history[k - 1].fence)))
  }

  ghost predicate HistoryOk(s: C.State, history: seq<Issued>) {
    forall k: nat :: k < |history| ==> LinkOk(s, history, k)
  }

  lemma HistoryStays(s: C.State, s': C.State, history: seq<Issued>)
    requires HistoryOk(s, history) && Later(s, s')
    ensures HistoryOk(s', history)
  {
    forall k: nat | k < |history|
      ensures LinkOk(s', history, k)
    {
      assert LinkOk(s, history, k);
      ChunksStay(s, s', history[k].ring, history[k].job, history[k].at, history[k].fence, history[k].fence);
      if k > 0 {
        OrderedStays(s, s', history[k].ring, history[k].first, Fence(history[k - 1].ring, history[k - 1].fence));
      }
    }
  }

  /** Stream order: when a ring gets to a stream's k-th command, everything the stream issued before has
      retired, whichever rings it went to. */
  lemma {:induction false} StreamOrder(s: C.State, history: seq<Issued>, j: nat, k: nat)
    requires DeviceOk(s) && HistoryOk(s, history) && j < k < |history| && Started(s, history[k])
    ensures Finished(s, history[j])
  {
    assert LinkOk(s, history, k) && LinkOk(s, history, k - 1);
    OrderedPasses(s, history[k], Fence(history[k - 1].ring, history[k - 1].fence));
    if j < k - 1 {
      StreamOrder(s, history, j, k - 1);
    }
  }

  /** Once the tail's fence has passed, the whole stream up to it has retired. */
  lemma TailMeansAll(s: C.State, history: seq<Issued>, j: nat, k: nat)
    requires DeviceOk(s) && HistoryOk(s, history) && j <= k < |history| && Finished(s, history[k])
    ensures Finished(s, history[j])
  {
    assert LinkOk(s, history, k);
    if j < k {
      StreamOrder(s, history, j, k);
    }
  }

  /** Event order: a command that is ordered behind an event starts only after everything the other stream
      issued up to the record. `history[k]` is the recorded command. */
  lemma EventOrder(s: C.State, history: seq<Issued>, j: nat, k: nat, x: Issued)
    requires DeviceOk(s) && HistoryOk(s, history) && j <= k < |history|
    requires Ordered(s, x.ring, x.first, Fence(history[k].ring, history[k].fence)) && Started(s, x)
    ensures Finished(s, history[j])
  {
    OrderedPasses(s, x, Fence(history[k].ring, history[k].fence));
    TailMeansAll(s, history, j, k);
  }

  /** The rest of the system, between two ioctls of one thread. */
  ghost predicate Environment(env: (nat, C.State) -> C.State) {
    forall i, s :: DeviceOk(s) ==> DeviceOk(env(i, s)) && Later(s, env(i, s))
  }

  class Stream {
    var dev: C.State
    var env: (nat, C.State) -> C.State
    var now: nat
    var tail: Option<Fence>
    var extraWaits: seq<Fence>
    /** Every command the stream has issued. */
    ghost var history: seq<Issued>

    ghost predicate Valid()
      reads this
    {
      && DeviceOk(dev) && Environment(env)
      && HistoryOk(dev, history)
      && (if history == [] then tail == None
          else tail == Some(Fence(history[|history| - 1].ring, history[|history| - 1].fence)))
      && (forall i :: 0 <= i < |extraWaits| ==> Published(dev, extraWaits[i]))
    }

    /** The device moves on, with nothing of this stream changed. */
    ghost predicate Holds(s0: C.State)
      reads this
    {
      DeviceOk(dev) && Environment(env) && Later(s0, dev)
    }

    /** One SUBMIT ioctl for one ring slot. A WAIT for a fence that is not published is refused. */
    method RawSubmit(ring: nat, cmd: C.Command, ghost s0: C.State) returns (r: Option<nat>)
      requires Holds(s0) && ring < |dev.chans|
      modifies this`dev, this`now
      ensures Holds(s0) && Later(old(dev), dev)
      ensures r.None? <==> !C.Accepted(old(dev), cmd)
      ensures r.Some? ==> 0 < r.value <= |dev.chans[ring].cmds| && dev.chans[ring].cmds[r.value - 1].cmd == cmd
      ensures r.Some? ==> r.value > |old(dev).chans[ring].cmds|
    {
      if cmd.Wait? && (cmd.channel >= |dev.chans| || cmd.value > |dev.chans[cmd.channel].cmds|) {
        return None;
      }
      var s := dev;
      dev := C.Appended(s, ring, cmd);
      StepIsLater(s, dev, C.Append(ring, cmd));
      r := Some(|dev.chans[ring].cmds|);
      ghost var t := dev;
      dev, now := env(now, dev), now + 1;
      LaterTransitive(s, t, dev);
      LaterTransitive(s0, s, dev);
    }

    /** Puts the ring behind a fence, unless the fence is its own. */
    method WaitOn(ring: nat, f: Fence, ghost s0: C.State)
      requires Holds(s0) && ring < |dev.chans| && Published(dev, f)
      modifies this`dev, this`now
      ensures Holds(s0) && Later(old(dev), dev) && ring < |dev.chans| && Ordered(dev, ring, |dev.chans[ring].cmds|, f)
    {
      if f.channel == ring {
        return;
      }
      var r := RawSubmit(ring, C.Wait(f.channel, f.value), s0);
      assert WaitAt(dev, ring, r.value - 1, f);
    }

    /** The waits first, in order, and then the command's chunks. */
    method SubmitWaits(ring: nat)
      requires Valid() && ring < |dev.chans|
      modifies this`dev, this`now
      ensures Holds(old(dev)) && ring < |dev.chans|
      ensures forall j :: 0 <= j < |extraWaits| ==> Ordered(dev, ring, |dev.chans[ring].cmds|, extraWaits[j])
      ensures tail.Some? ==> Ordered(dev, ring, |dev.chans[ring].cmds|, tail.value)
    {
      TailPublished();
      for i := 0 to |extraWaits|
        invariant Holds(old(dev)) && ring < |dev.chans|
        invariant forall j :: 0 <= j < i ==> Ordered(dev, ring, |dev.chans[ring].cmds|, extraWaits[j])
      {
        ghost var s := dev;
        WaitOn(ring, extraWaits[i], old(dev));
        AllOrderedLater(s, dev, ring, |s.chans[ring].cmds|, |dev.chans[ring].cmds|, extraWaits[..i]);
        assert forall j :: 0 <= j < i ==> Ordered(dev, ring, |dev.chans[ring].cmds|, extraWaits[..i][j]);
      }
      if tail.Some? {
        ghost var s := dev;
        WaitOn(ring, tail.value, old(dev));
        AllOrderedLater(s, dev, ring, |s.chans[ring].cmds|, |dev.chans[ring].cmds|, extraWaits);
      }
    }

    lemma TailPublished()
      requires Valid()
      ensures tail.Some? ==> Published(dev, tail.value)
    {
      if history != [] {
        assert LinkOk(dev, history, |history| - 1);
      }
    }

    /** The commands of a job go to its ring one by one. */
    method SubmitChunks(ring: nat, job: Job, ghost s0: C.State) returns (fence: nat, ghost at: seq<nat>)
      requires Holds(s0) && ring < |dev.chans| && job.chunks > 0
      modifies this`dev, this`now
      ensures Holds(s0) && Later(old(dev), dev)
      ensures |at| == job.chunks && ChunksAt(dev, ring, job, at, fence)
      ensures |old(dev).chans[ring].cmds| <= at[0] && at[job.chunks - 1] + 1 == fence <= |dev.chans[ring].cmds|
    {
      at, fence := [], 0;
      for i := 0 to job.chunks
        invariant Holds(s0) && Later(old(dev), dev) && |at| == i && ChunksAt(dev, ring, job, at, fence)
        invariant fence <= |dev.chans[ring].cmds|
        invariant i > 0 ==> |old(dev).chans[ring].cmds| <= at[0] && at[i - 1] + 1 == fence
      {
        ghost var s, before := dev, fence;
        var r := RawSubmit(ring, C.Work(job.id), s0);
        fence := r.value;
        LaterTransitive(old(dev), s, dev);
        ChunksGrow(s, dev, ring, job, at, before, fence - 1);
        at := at + [fence - 1];
      }
    }

    /** stream_submit. No WAIT is refused, the command is in its ring, and it is ordered behind the stream's last one
        and behind every event the stream was told to wait for. */
    method Submit(ring: nat, job: Job) returns (fence: nat)
      requires Valid() && ring < |dev.chans| && job.chunks > 0
      modifies this`dev, this`now, this`tail, this`extraWaits, this`history
      ensures Valid() && Later(old(dev), dev) && extraWaits == []
      ensures |history| == |old(history)| + 1 && history[..|old(history)|] == old(history)
      ensures var x := history[|old(history)|];
              && x.ring == ring && x.fence == fence && x.job == job && InRing(dev, x)
              && x.at[job.chunks - 1] + 1 == fence && |old(dev).chans[ring].cmds| <= x.first
              && forall j :: 0 <= j < |old(extraWaits)| ==> Ordered(dev, x.ring, x.first, old(extraWaits)[j])
    {
      ghost var s0, waits := dev, extraWaits;
      SubmitWaits(ring);
      ghost var s1 := dev;
      ghost var n := |s1.chans[ring].cmds|;
      assert waits == extraWaits;
      forall j | 0 <= j < |waits|
        ensures Ordered(s1, ring, n, waits[j])
      {
        assert Ordered(dev, ring, |dev.chans[ring].cmds|, extraWaits[j]);
      }
      ghost var at;
      fence, at := SubmitChunks(ring, job, s0);
      ghost var x := Issued(ring, at[0], fence, job, at);
      AllOrderedLater(s1, dev, ring, n, x.first, waits);
      if tail.Some? {
        OrderedStays(s1, dev, ring, n, tail.value);
      }
      HistoryStays(s0, dev, history);
      assert ChunkAt(dev, ring, job, at, fence, 0);
      HistoryGrows(dev, history, x);
      history := history + [x];
      extraWaits, tail := [], Some(Fence(ring, fence));
    }

    /** sgEventRecord: a NOP in the stream, on the ring of its last command if it has one. */
    method Record(first: nat, nop: nat) returns (at: Fence)
      requires Valid() && first < |dev.chans|
      modifies this`dev, this`now, this`tail, this`extraWaits, this`history
      ensures Valid() && Later(old(dev), dev) && Published(dev, at)
      ensures |history| == |old(history)| + 1 && history[..|old(history)|] == old(history)
      ensures at == Fence(history[|old(history)|].ring, history[|old(history)|].fence)
      ensures history[|old(history)|].job == Job(nop, 1) && InRing(dev, history[|old(history)|])
    {
      TailPublished();
      var ring := if tail.Some? then tail.value.channel else first;
      var fence := Submit(ring, Job(nop, 1));
      at := Fence(ring, fence);
      assert LinkOk(dev, history, |history| - 1);
    }

    /** sgStreamWaitEvent: the next command of the stream waits for the fence. */
    method WaitEvent(at: Fence)
      requires Valid() && Published(dev, at)
      modifies this`extraWaits
      ensures Valid() && extraWaits == old(extraWaits) + [at]
    {
      extraWaits := extraWaits + [at];
    }
  }

  lemma AllOrderedLater(s: C.State, s': C.State, ring: nat, first: nat, first': nat, fences: seq<Fence>)
    requires Later(s, s') && first <= first' && forall j :: 0 <= j < |fences| ==> Ordered(s, ring, first, fences[j])
    ensures forall j :: 0 <= j < |fences| ==> Ordered(s', ring, first', fences[j])
  {
    forall j | 0 <= j < |fences|
      ensures Ordered(s', ring, first', fences[j])
    {
      OrderedStays(s, s', ring, first, fences[j]);
    }
  }

  lemma HistoryGrows(s: C.State, history: seq<Issued>, x: Issued)
    requires HistoryOk(s, history) && x.first < x.fence && InRing(s, x) && Published(s, Fence(x.ring, x.fence))
    requires history != [] ==> var last := history[|history| - 1];
             Ordered(s, x.ring, x.first, Fence(last.ring, last.fence))
    ensures HistoryOk(s, history + [x])
  {
    forall k: nat | k < |history + [x]|
      ensures LinkOk(s, history + [x], k)
    {
      if k < |history| {
        assert LinkOk(s, history, k);
      }
    }
  }

  // ---------------------------------------------------------------------------------------------
  // Whole runs
  // ---------------------------------------------------------------------------------------------

  /** Command `index` of a stream, with its fence: what an event records. */
  datatype Dep = Dep(stream: nat, index: nat, fence: Fence)

  /** A stream's mutex is free, or a submit holds it: `todo` are the fences it still has to wait for, `done`
      those it has put the ring behind, `at` the positions of its chunks so far. */
  datatype Pc =
    | Idle
    | Busy(ring: nat, job: Job, deps: seq<Dep>, todo: seq<Fence>, done: seq<Fence>, at: seq<nat>, fence: nat)

  /** An event whose waits were made for a command that the driver then refused, and the ring they were made on. */
  datatype Drop = Drop(dep: Dep, ring: nat)

  /** `behind[k]` are the events that command k waits for, `extra` those for the next command. `dropped` are events
      that were dropped with a refused command since the last accepted one, `lost[k]` those dropped before command k. */
  datatype Thread =
    Thread(history: seq<Issued>, behind: seq<seq<Dep>>, extra: seq<Dep>, pc: Pc,
           dropped: seq<Drop>, lost: seq<seq<Drop>>)

  datatype System = System(dev: C.State, streams: seq<Thread>, events: map<nat, Dep>)

  /** An ioctl of a submit is one step, and so is every step of the device and of other producers. Recording
      an event is a submit and, some time after it, the store of its fence. */
  datatype Action =
    | Device(a: C.Action)
    | Begin(i: nat, ring: nat, job: Job)
    | PutWait(i: nat)
    | PutChunk(i: nat)
    | End(i: nat, fence: nat)
    | Reject(i: nat)
    | StoreEvent(event: nat, i: nat, k: nat)
    | WaitForEvent(i: nat, event: nat)

  function FenceOf(x: Issued): (f: Fence) {
    Fence(x.ring, x.fence)
  }

  function Tail(history: seq<Issued>): (r: seq<Fence>) {
    if history == [] then [] else [FenceOf(history[|history| - 1])]
  }

  function Fences(deps: seq<Dep>): (r: seq<Fence>)
    ensures |r| == |deps| && forall i :: 0 <= i < |r| ==> r[i] == deps[i].fence
  {
    seq(|deps|, i requires 0 <= i < |deps| => deps[i].fence)
  }

  function Drops(deps: seq<Dep>, ring: nat): (r: seq<Drop>)
    ensures |r| == |deps| && forall i :: 0 <= i < |r| ==> r[i] == Drop(deps[i], ring)
  {
    seq(|deps|, i requires 0 <= i < |deps| => Drop(deps[i], ring))
  }

  function Put(s: System, i: nat, x: Thread): (r: System)
    requires i < |s.streams|
  {
    s.(streams := s.streams[i := x])
  }

  ghost predicate Working(s: System, i: nat) {
    i < |s.streams| && s.streams[i].pc.Busy? && s.streams[i].pc.ring < |s.dev.chans|
  }

  ghost predicate Does(s: System, s': System, a: Action) {
    match a
    case Device(d) => C.Unfailing(s.dev, s'.dev, d) && s' == s.(dev := s'.dev)
    case Begin(i, ring, job) =>
      && i < |s.streams| && s.streams[i].pc.Idle? && ring < |s.dev.chans| && job.chunks > 0
      && var x := s.streams[i];
         s' == Put(s, i, x.(extra := [],
             pc := Busy(ring, job, x.extra, Fences(x.extra) + Tail(x.history), [], [], 0)))
    case PutWait(i) =>
      && Working(s, i) && s.streams[i].pc.todo != []
      && var pc := s.streams[i].pc;
         && s' == Put(s, i,
             s.streams[i].(pc := pc.(todo := pc.todo[1..], done := pc.done + [pc.todo[0]]))).(dev := s'.dev)
         && if pc.todo[0].channel == pc.ring then s'.dev == s.dev
            else C.Does(s.dev, s'.dev, C.Append(pc.ring, C.Wait(pc.todo[0].channel, pc.todo[0].value)))
    case PutChunk(i) =>
      && Working(s, i) && s.streams[i].pc.todo == [] && |s.streams[i].pc.at| < s.streams[i].pc.job.chunks
      && C.Does(s.dev, s'.dev, C.Append(s.streams[i].pc.ring, C.Work(s.streams[i].pc.job.id)))
      && var pc, n := s.streams[i].pc, |s.dev.chans[s.streams[i].pc.ring].cmds|;
         s' == Put(s, i, s.streams[i].(pc := pc.(at := pc.at + [n], fence := n + 1))).(dev := s'.dev)
    // A pageable D2H copy reports the ring's PUT, which may be past its own last chunk.
    case End(i, fence) =>
      && Working(s, i) && s.streams[i].pc.todo == [] && s.streams[i].pc.at != []
          && |s.streams[i].pc.at| == s.streams[i].pc.job.chunks
      && s.streams[i].pc.fence <= fence <= |s.dev.chans[s.streams[i].pc.ring].cmds|
      && var x := s.streams[i];
         s' == Put(s, i, x.(history := x.history + [Issued(x.pc.ring, x.pc.at[0], fence, x.pc.job, x.pc.at)],
             behind := x.behind + [x.pc.deps],
                            pc := Idle, dropped := [], lost := x.lost + [x.dropped]))
    // The driver refuses the command itself; the waits made for it are not made again for the next one.
    case Reject(i) =>
      && Working(s, i) && s.streams[i].pc.todo == [] && s.streams[i].pc.at == []
      && var x := s.streams[i];
         s' == Put(s, i, x.(pc := Idle, dropped := x.dropped + Drops(x.pc.deps, x.pc.ring)))
    case StoreEvent(event, i, k) =>
      && i < |s.streams| && k < |s.streams[i].history|
      && s' == s.(events := s.events[event := Dep(i, k, FenceOf(s.streams[i].history[k]))])
    case WaitForEvent(i, event) =>
      && i < |s.streams| && s.streams[i].pc.Idle? && event in s.events
      && s' == Put(s, i, s.streams[i].(extra := s.streams[i].extra + [s.events[event]]))
  }

  ghost predicate DepOk(s: System, d: Dep) {
    && d.stream < |s.streams| && d.index < |s.streams[d.stream].history|
    && d.fence == FenceOf(s.streams[d.stream].history[d.index]) && Published(s.dev, d.fence)
  }

  ghost predicate DepsOk(s: System, deps: seq<Dep>) {
    forall j :: 0 <= j < |deps| ==> DepOk(s, deps[j])
  }

  ghost predicate AllOrdered(dev: C.State, ring: nat, first: nat, fences: seq<Fence>) {
    forall j :: 0 <= j < |fences| ==> Ordered(dev, ring, first, fences[j])
  }

  ghost predicate AllPublished(dev: C.State, fences: seq<Fence>) {
    forall j :: 0 <= j < |fences| ==> Published(dev, fences[j])
  }

  /** A submit half-way: the ring is behind everything done; done and todo are all it has to wait for. */
  ghost predicate BusyOk(s: System, x: Thread) {
    x.pc.Busy? ==>
      && x.pc.ring < |s.dev.chans| && DepsOk(s, x.pc.deps)
      && x.pc.done + x.pc.todo == Fences(x.pc.deps) + Tail(x.history)
      && AllPublished(s.dev, x.pc.todo)
      && (x.pc.at == [] ==>
          AllOrdered(s.dev, x.pc.ring, |s.dev.chans[x.pc.ring].cmds|, x.pc.done))
      && x.pc.job.chunks > 0 && |x.pc.at| <= x.pc.job.chunks
          && ChunksAt(s.dev, x.pc.ring, x.pc.job, x.pc.at, x.pc.fence)
      && (x.pc.at == [] ==> x.pc.fence == 0)
      && (x.pc.at != [] ==>
          x.pc.todo == [] && x.pc.at[0] < x.pc.fence <= |s.dev.chans[x.pc.ring].cmds|
              && AllOrdered(s.dev, x.pc.ring, x.pc.at[0], x.pc.done))
  }

  ghost predicate BehindOk(s: System, x: Thread, k: nat) {
    k < |x.history| && k < |x.behind| ==>
      DepsOk(s, x.behind[k]) && AllOrdered(s.dev, x.history[k].ring, x.history[k].first, Fences(x.behind[k]))
  }

  /** The event still counts for a command on `ring`: its waits were made there, or its own command is there. */
  predicate Counts(y: Drop, ring: nat) {
    y.ring == ring || y.dep.fence.channel == ring
  }

  /** Where the event still counts, the ring is behind it at position `first`. */
  ghost predicate DropsOk(s: System, drops: seq<Drop>, ring: nat, first: nat) {
    forall j :: 0 <= j < |drops| ==>
        DepOk(s, drops[j].dep) && (Counts(drops[j], ring) ==> Ordered(s.dev, ring, first, drops[j].dep.fence))
  }

  ghost predicate DroppedOk(s: System, drops: seq<Drop>, ring: nat) {
    ring < |s.dev.chans| ==> DropsOk(s, drops, ring, |s.dev.chans[ring].cmds|)
  }

  ghost predicate LostOk(s: System, history: seq<Issued>, lost: seq<seq<Drop>>, k: nat) {
    k < |history| && k < |lost| ==> DropsOk(s, lost[k], history[k].ring, history[k].first)
  }

  ghost predicate LossesOk(s: System, x: Thread) {
    && |x.lost| == |x.history|
    && (forall ring: nat :: DroppedOk(s, x.dropped, ring))
    && (forall k: nat :: LostOk(s, x.history, x.lost, k))
    && (x.pc.Busy? && x.pc.at != [] ==> DropsOk(s, x.dropped, x.pc.ring, x.pc.at[0]))
  }

  ghost predicate ThreadOk(s: System, x: Thread) {
    && |x.behind| == |x.history| && HistoryOk(s.dev, x.history) && DepsOk(s, x.extra) && BusyOk(s, x)
    && forall k: nat :: BehindOk(s, x, k)
  }

  ghost predicate SystemOk(s: System) {
    && C.Healthy(s.dev)
    && (forall i :: 0 <= i < |s.streams| ==> ThreadOk(s, s.streams[i]) && LossesOk(s, s.streams[i]))
    && (forall e :: e in s.events ==> DepOk(s, s.events[e]))
  }

  const NEW: Thread := Thread([], [], [], Idle, [], [])

  ghost predicate Init(s: System) {
    && C.Init(s.dev) && s.events == map[]
    && forall i :: 0 <= i < |s.streams| ==> s.streams[i] == NEW
  }

  /** Rings and fences advance, and streams only get longer. */
  ghost predicate Onward(s: System, s': System) {
    && Later(s.dev, s'.dev) && |s'.streams| == |s.streams|
    && forall i :: 0 <= i < |s.streams| ==> s.streams[i].history <= s'.streams[i].history
  }

  lemma DepsStay(s: System, s': System, deps: seq<Dep>)
    requires Onward(s, s') && DepsOk(s, deps)
    ensures DepsOk(s', deps)
  {
    forall j | 0 <= j < |deps|
      ensures DepOk(s', deps[j])
    {
      assert DepOk(s, deps[j]);
    }
  }

  lemma BehindStays(s: System, s': System, x: Thread, k: nat)
    requires Onward(s, s') && BehindOk(s, x, k)
    ensures BehindOk(s', x, k)
  {
    if k < |x.history| && k < |x.behind| {
      DepsStay(s, s', x.behind[k]);
      AllOrderedLater(s.dev, s'.dev, x.history[k].ring, x.history[k].first, x.history[k].first, Fences(x.behind[k]));
    }
  }

  lemma BusyStays(s: System, s': System, x: Thread)
    requires Onward(s, s') && BusyOk(s, x)
    ensures BusyOk(s', x)
  {
    if x.pc.Busy? {
      var ring := x.pc.ring;
      DepsStay(s, s', x.pc.deps);
      ChunksStay(s.dev, s'.dev, ring, x.pc.job, x.pc.at, x.pc.fence, x.pc.fence);
      if x.pc.at == [] {
        AllOrderedLater(s.dev, s'.dev, ring, |s.dev.chans[ring].cmds|, |s'.dev.chans[ring].cmds|, x.pc.done);
      } else {
        AllOrderedLater(s.dev, s'.dev, ring, x.pc.at[0], x.pc.at[0], x.pc.done);
      }
    }
  }

  lemma DropsStay(s: System, s': System, drops: seq<Drop>, ring: nat, first: nat, first': nat)
    requires Onward(s, s') && DropsOk(s, drops, ring, first) && first <= first'
    ensures DropsOk(s', drops, ring, first')
  {
    forall j | 0 <= j < |drops|
      ensures DepOk(s', drops[j].dep) && (Counts(drops[j], ring) ==> Ordered(s'.dev, ring, first', drops[j].dep.fence))
    {
      DepsStay(s, s', [drops[j].dep]);
      assert DepOk(s', [drops[j].dep][0]);
      if Counts(drops[j], ring) {
        OrderedStays(s.dev, s'.dev, ring, first, drops[j].dep.fence);
      }
    }
  }

  lemma LossesStay(s: System, s': System, x: Thread)
    requires Onward(s, s') && LossesOk(s, x)
    ensures LossesOk(s', x)
  {
    forall ring: nat
      ensures DroppedOk(s', x.dropped, ring)
    {
      assert DroppedOk(s, x.dropped, ring);
      if ring < |s.dev.chans| {
        DropsStay(s, s', x.dropped, ring, |s.dev.chans[ring].cmds|, |s'.dev.chans[ring].cmds|);
      }
    }
    forall k: nat
      ensures LostOk(s', x.history, x.lost, k)
    {
      assert LostOk(s, x.history, x.lost, k);
      if k < |x.history| && k < |x.lost| {
        DropsStay(s, s', x.lost[k], x.history[k].ring, x.history[k].first, x.history[k].first);
      }
    }
    if x.pc.Busy? && x.pc.at != [] {
      DropsStay(s, s', x.dropped, x.pc.ring, x.pc.at[0], x.pc.at[0]);
    }
  }

  lemma FirstChunkLosses(s: System, s': System, i: nat)
    requires SystemOk(s) && Does(s, s', PutChunk(i)) && Onward(s, s')
    ensures LossesOk(s', s'.streams[i])
  {
    var x, ring := s.streams[i], s.streams[i].pc.ring;
    LossesStay(s, s', x);
    assert DroppedOk(s, x.dropped, ring);
    DropsStay(s, s', x.dropped, ring, |s.dev.chans[ring].cmds|, |s.dev.chans[ring].cmds|);
  }

  lemma RejectLosses(s: System, s': System, i: nat)
    requires SystemOk(s) && Does(s, s', Reject(i)) && Onward(s, s')
    ensures LossesOk(s', s'.streams[i])
  {
    var x, ring := s.streams[i], s.streams[i].pc.ring;
    var more := Drops(x.pc.deps, ring);
    LossesStay(s, s', x);
    assert x.pc.done == Fences(x.pc.deps) + Tail(x.history);
    forall r: nat
      ensures DroppedOk(s', x.dropped + more, r)
    {
      assert DroppedOk(s', x.dropped, r);
      assert DroppedOk(s', more, r) by {
        forall j | 0 <= j < |more| && r < |s.dev.chans|
          ensures DepOk(s', more[j].dep)
                  && (Counts(more[j], r) ==> Ordered(s'.dev, r, |s'.dev.chans[r].cmds|, more[j].dep.fence))
        {
          assert DepOk(s, x.pc.deps[j]) && x.pc.done[j] == x.pc.deps[j].fence;
        }
      }
    }
  }

  lemma EndLosses(s: System, s': System, i: nat, fence: nat)
    requires SystemOk(s) && Does(s, s', End(i, fence)) && Onward(s, s')
    ensures LossesOk(s', s'.streams[i])
  {
    var x, x' := s.streams[i], s'.streams[i];
    LossesStay(s, s', x);
    forall k: nat
      ensures LostOk(s', x'.history, x'.lost, k)
    {
      assert LostOk(s', x.history, x.lost, k);
    }
    assert forall ring: nat :: DroppedOk(s', [], ring);
  }

  lemma LossesKeep(s: System, s': System, a: Action, i: nat)
    requires SystemOk(s) && Does(s, s', a) && Onward(s, s') && i < |s.streams|
    ensures LossesOk(s', s'.streams[i])
  {
    LossesStay(s, s', s.streams[i]);
    if a == PutChunk(i) {
      FirstChunkLosses(s, s', i);
    } else if a == Reject(i) {
      RejectLosses(s, s', i);
    } else if a.End? && a.i == i {
      EndLosses(s, s', i, a.fence);
    }
  }

  /** A thread is not disturbed by what others do. */
  lemma ThreadStays(s: System, s': System, x: Thread)
    requires Onward(s, s') && ThreadOk(s, x)
    ensures ThreadOk(s', x)
  {
    HistoryStays(s.dev, s'.dev, x.history);
    DepsStay(s, s', x.extra);
    BusyStays(s, s', x);
    forall k: nat
      ensures BehindOk(s', x, k)
    {
      assert BehindOk(s, x, k);
      BehindStays(s, s', x, k);
    }
  }

  lemma DeviceIsLater(s: C.State, s': C.State, a: C.Action)
    requires C.Healthy(s) && C.Unfailing(s, s', a)
    ensures C.Healthy(s') && Later(s, s')
  {
    C.UnfailingKeeps(s, s', a);
    StepIsLater(s, s', a);
  }

  lemma StepIsOnward(s: System, s': System, a: Action)
    requires SystemOk(s) && Does(s, s', a)
    ensures Onward(s, s') && C.Healthy(s'.dev)
  {
    match a
    case Device(d) => DeviceIsLater(s.dev, s'.dev, d);
    case PutWait(i) =>
      var pc := s.streams[i].pc;
      if pc.todo[0].channel != pc.ring {
        DeviceIsLater(s.dev, s'.dev, C.Append(pc.ring, C.Wait(pc.todo[0].channel, pc.todo[0].value)));
      }
    case PutChunk(i) => DeviceIsLater(s.dev, s'.dev, C.Append(s.streams[i].pc.ring, C.Work(s.streams[i].pc.job.id)));
    case _ =>
  }

  /** The thread whose stream it is, after its own step. */
  lemma BeginOk(s: System, s': System, i: nat, ring: nat, job: Job)
    requires SystemOk(s) && Does(s, s', Begin(i, ring, job)) && Onward(s, s')
    ensures ThreadOk(s', s'.streams[i])
  {
    var x, x' := s.streams[i], s'.streams[i];
    ThreadStays(s, s', x);
    TailIsPublished(s.dev, x.history);
    assert forall k: nat :: BehindOk(s', x', k) <==> BehindOk(s', x, k);
  }

  lemma TailIsPublished(dev: C.State, history: seq<Issued>)
    requires HistoryOk(dev, history)
    ensures AllPublished(dev, Tail(history))
  {
    if history != [] {
      assert LinkOk(dev, history, |history| - 1);
    }
  }

  lemma PutWaitOk(s: System, s': System, i: nat)
    requires SystemOk(s) && Does(s, s', PutWait(i)) && Onward(s, s')
    ensures ThreadOk(s', s'.streams[i])
  {
    var x, x' := s.streams[i], s'.streams[i];
    var f, ring := x.pc.todo[0], x.pc.ring;
    ThreadStays(s, s', x);
    assert Ordered(s'.dev, ring, |s'.dev.chans[ring].cmds|, f) by {
      if f.channel != ring {
        assert WaitAt(s'.dev, ring, |s.dev.chans[ring].cmds|, f);
      } else {
        assert Published(s.dev, f);
      }
    }
    assert x'.pc.done + x'.pc.todo == x.pc.done + x.pc.todo by {
      assert x.pc.todo == [f] + x.pc.todo[1..];
    }
    assert forall k: nat :: BehindOk(s', x', k) <==> BehindOk(s', x, k);
  }

  lemma PutChunkOk(s: System, s': System, i: nat)
    requires SystemOk(s) && Does(s, s', PutChunk(i)) && Onward(s, s')
    ensures ThreadOk(s', s'.streams[i])
  {
    var x, x' := s.streams[i], s'.streams[i];
    var ring := x.pc.ring;
    ThreadStays(s, s', x);
    if x.pc.at == [] {
      AllOrderedLater(s.dev, s'.dev, ring, |s.dev.chans[ring].cmds|, |s.dev.chans[ring].cmds|, x.pc.done);
    }
    ChunksGrow(s.dev, s'.dev, ring, x.pc.job, x.pc.at, x.pc.fence, |s.dev.chans[ring].cmds|);
    assert forall k: nat :: BehindOk(s', x', k) <==> BehindOk(s', x, k);
  }

  lemma EndOk(s: System, s': System, i: nat, fence: nat)
    requires SystemOk(s) && Does(s, s', End(i, fence)) && Onward(s, s')
    ensures ThreadOk(s', s'.streams[i])
  {
    var x, x' := s.streams[i], s'.streams[i];
    var issued := Issued(x.pc.ring, x.pc.at[0], fence, x.pc.job, x.pc.at);
    ThreadStays(s, s', x);
    var n := |x.history|;
    assert x.pc.done == Fences(x.pc.deps) + Tail(x.history);
    assert AllOrdered(s'.dev, issued.ring, issued.first, Fences(x.pc.deps) + Tail(x.history));
    if x.history != [] {
      assert (Fences(x.pc.deps) + Tail(x.history))[|x.pc.deps|] == FenceOf(x.history[n - 1]);
    }
    ChunksStay(s.dev, s'.dev, x.pc.ring, x.pc.job, x.pc.at, x.pc.fence, fence);
    HistoryGrows(s'.dev, x.history, issued);
    forall k: nat
      ensures BehindOk(s', x', k)
    {
      if k == n {
        assert x'.behind[k] == x.pc.deps && x'.history[k] == issued;
        forall j | 0 <= j < |x.pc.deps|
          ensures Ordered(s'.dev, issued.ring, issued.first, Fences(x.pc.deps)[j])
        {
          assert (Fences(x.pc.deps) + Tail(x.history))[j] == Fences(x.pc.deps)[j];
        }
      } else {
        assert BehindOk(s', x, k);
      }
    }
  }

  lemma RejectOk(s: System, s': System, i: nat)
    requires SystemOk(s) && Does(s, s', Reject(i)) && Onward(s, s')
    ensures ThreadOk(s', s'.streams[i])
  {
    ThreadStays(s, s', s.streams[i]);
    assert forall k: nat :: BehindOk(s', s'.streams[i], k) <==> BehindOk(s', s.streams[i], k);
  }

  lemma WaitForEventOk(s: System, s': System, i: nat, event: nat)
    requires SystemOk(s) && Does(s, s', WaitForEvent(i, event)) && Onward(s, s')
    ensures ThreadOk(s', s'.streams[i])
  {
    var x, x' := s.streams[i], s'.streams[i];
    ThreadStays(s, s', x);
    assert DepOk(s, s.events[event]);
    DepsStay(s, s', [s.events[event]]);
    assert DepOk(s', [s.events[event]][0]);
    assert forall k: nat :: BehindOk(s', x', k) <==> BehindOk(s', x, k);
  }

  lemma OwnStepOk(s: System, s': System, a: Action, i: nat)
    requires SystemOk(s) && Does(s, s', a) && Onward(s, s') && i < |s.streams|
    ensures ThreadOk(s', s'.streams[i])
  {
    if s'.streams[i] == s.streams[i] {
      ThreadStays(s, s', s.streams[i]);
    } else {
      match a
      case Begin(_, ring, job) => BeginOk(s, s', i, ring, job);
      case PutWait(_) => PutWaitOk(s, s', i);
      case PutChunk(_) => PutChunkOk(s, s', i);
      case End(_, fence) => EndOk(s, s', i, fence);
      case Reject(_) => RejectOk(s, s', i);
      case WaitForEvent(_, event) => WaitForEventOk(s, s', i, event);
    }
  }

  lemma EventsStay(s: System, s': System, a: Action)
    requires SystemOk(s) && Does(s, s', a) && Onward(s, s')
    ensures forall e :: e in s'.events ==> DepOk(s', s'.events[e])
  {
    forall e | e in s'.events
      ensures DepOk(s', s'.events[e])
    {
      if a.StoreEvent? && e == a.event {
        assert LinkOk(s.dev, s.streams[a.i].history, a.k);
      } else {
        DepsStay(s, s', [s.events[e]]);
        assert DepOk(s', [s.events[e]][0]);
      }
    }
  }

  lemma StepKeepsSystem(s: System, s': System, a: Action)
    requires SystemOk(s) && Does(s, s', a)
    ensures SystemOk(s')
  {
    StepIsOnward(s, s', a);
    forall i | 0 <= i < |s'.streams|
      ensures ThreadOk(s', s'.streams[i]) && LossesOk(s', s'.streams[i])
    {
      OwnStepOk(s, s', a, i);
      LossesKeep(s, s', a, i);
    }
    EventsStay(s, s', a);
  }

  ghost predicate IsRun(run: seq<System>, acts: seq<Action>) {
    Runs.IsRun(run, acts, Init, Does)
  }

  lemma RunKeepsSystem(run: seq<System>, acts: seq<Action>, k: nat)
    requires IsRun(run, acts) && k < |run|
    ensures SystemOk(run[k])
  {
    forall s, s', a | SystemOk(s) && Does(s, s', a)
      ensures SystemOk(s')
    {
      StepKeepsSystem(s, s', a);
    }
    Runs.KeepInvariant(run, acts, Init, Does, SystemOk, k);
  }

  /** In every run of submits, events and device steps, whatever threads do meanwhile: when a ring comes to a
      stream's m-th command, the stream's earlier ones have retired, and so have, of every stream whose event
      that command was told to wait for, all commands up to the record. */
  lemma RunKeepsOrder(run: seq<System>, acts: seq<Action>, k: nat, i: nat, m: nat)
    requires IsRun(run, acts) && k < |run| && i < |run[k].streams| && m < |run[k].streams[i].history|
    requires Started(run[k].dev, run[k].streams[i].history[m])
    ensures forall j :: 0 <= j < m ==> Finished(run[k].dev, run[k].streams[i].history[j])
    ensures m < |run[k].streams[i].behind|
            && forall e :: 0 <= e < |run[k].streams[i].behind[m]| ==> Recorded(run[k], run[k].streams[i].behind[m][e])
  {
    var s, x := run[k], run[k].streams[i];
    RunKeepsSystem(run, acts, k);
    forall j | 0 <= j < m
      ensures Finished(s.dev, x.history[j])
    {
      StreamOrder(s.dev, x.history, j, m);
    }
    assert BehindOk(s, x, m);
    forall e | 0 <= e < |x.behind[m]|
      ensures Recorded(s, x.behind[m][e])
    {
      var d := x.behind[m][e];
      assert Fences(x.behind[m])[e] == d.fence && DepOk(s, d);
      forall j | 0 <= j <= d.index
        ensures Finished(s.dev, s.streams[d.stream].history[j])
      {
        EventOrder(s.dev, s.streams[d.stream].history, j, d.index, x.history[m]);
      }
    }
  }

  /** Everything the event's stream issued up to the record has retired. */
  ghost predicate Recorded(s: System, d: Dep) {
    d.stream < |s.streams| && d.index < |s.streams[d.stream].history|
        && forall j :: 0 <= j <= d.index ==> Finished(s.dev, s.streams[d.stream].history[j])
  }

  /** The same for a command whose submit has not returned: its chunks may already run. */
  lemma RunKeepsOrderEarly(run: seq<System>, acts: seq<Action>, k: nat, i: nat)
    requires IsRun(run, acts) && k < |run| && i < |run[k].streams| && run[k].streams[i].pc.Busy?
             && run[k].streams[i].pc.at != []
    requires var pc := run[k].streams[i].pc; Started(run[k].dev, Issued(pc.ring, pc.at[0], pc.fence, pc.job, pc.at))
    ensures forall j :: 0 <= j < |run[k].streams[i].history| ==> Finished(run[k].dev, run[k].streams[i].history[j])
    ensures forall e :: 0 <= e < |run[k].streams[i].pc.deps| ==> Recorded(run[k], run[k].streams[i].pc.deps[e])
  {
    var s, x := run[k], run[k].streams[i];
    RunKeepsSystem(run, acts, k);
    assert ThreadOk(s, x);
    var now := Issued(x.pc.ring, x.pc.at[0], x.pc.fence, x.pc.job, x.pc.at);
    var all := Fences(x.pc.deps) + Tail(x.history);
    assert x.pc.done == all;
    forall j | 0 <= j < |x.history|
      ensures Finished(s.dev, x.history[j])
    {
      var last := |x.history| - 1;
      assert all[|x.pc.deps|] == FenceOf(x.history[last]);
      EventOrder(s.dev, x.history, j, last, now);
    }
    forall e | 0 <= e < |x.pc.deps|
      ensures Recorded(s, x.pc.deps[e])
    {
      var d := x.pc.deps[e];
      assert all[e] == d.fence && DepOk(s, d);
      forall j | 0 <= j <= d.index
        ensures Finished(s.dev, s.streams[d.stream].history[j])
      {
        EventOrder(s.dev, s.streams[d.stream].history, j, d.index, now);
      }
    }
  }

  /** Synchronising on the tail waits for the whole stream. */
  lemma RunTailMeansAll(run: seq<System>, acts: seq<Action>, k: nat, i: nat, j: nat, m: nat)
    requires IsRun(run, acts) && k < |run| && i < |run[k].streams| && j <= m < |run[k].streams[i].history|
    requires Finished(run[k].dev, run[k].streams[i].history[m])
    ensures Finished(run[k].dev, run[k].streams[i].history[j])
  {
    RunKeepsSystem(run, acts, k);
    assert ThreadOk(run[k], run[k].streams[i]);
    TailMeansAll(run[k].dev, run[k].streams[i].history, j, m);
  }

  /** No WAIT that a submit has to make is refused. */
  lemma NeverRefused(run: seq<System>, acts: seq<Action>, k: nat, i: nat) returns (s': System)
    requires IsRun(run, acts) && k < |run| && Working(run[k], i) && run[k].streams[i].pc.todo != []
    ensures Does(run[k], s', PutWait(i))
  {
    var s := run[k];
    RunKeepsSystem(run, acts, k);
    assert ThreadOk(s, s.streams[i]);
    var pc := s.streams[i].pc;
    var f := pc.todo[0];
    assert Published(s.dev, f);
    var dev := s.dev;
    if f.channel != pc.ring {
      dev := C.Appended(dev, pc.ring, C.Wait(f.channel, f.value));
    }
    s' := Put(s, i, s.streams[i].(pc := pc.(todo := pc.todo[1..], done := pc.done + [f]))).(dev := dev);
  }

  /** A command that is in a stream's history is in its ring, chunk by chunk. */
  lemma RunKeepsCommands(run: seq<System>, acts: seq<Action>, k: nat, i: nat, m: nat)
    requires IsRun(run, acts) && k < |run| && i < |run[k].streams| && m < |run[k].streams[i].history|
    ensures InRing(run[k].dev, run[k].streams[i].history[m])
  {
    RunKeepsSystem(run, acts, k);
    assert ThreadOk(run[k], run[k].streams[i]) && LinkOk(run[k].dev, run[k].streams[i].history, m);
  }

  // ---------------------------------------------------------------------------------------------
  // Submits come to their ends
  // ---------------------------------------------------------------------------------------------

  /** The invariant. Stated so that the verifier looks inside only where `SystemOk` is mentioned. */
  ghost predicate Sound(s: System) {
    forall x {:trigger SystemOk(x)} :: x == s ==> SystemOk(x)
  }

  lemma Steps(s: System, s': System, a: Action)
    requires Sound(s) && Does(s, s', a)
    ensures Runs.Reaches(s, s', Does) && Sound(s')
  {
    assert SystemOk(s);
    StepKeepsSystem(s, s', a);
    Runs.ReachesItself(s', Does);
    Runs.StepReaches(s, a, s', s', Does);
  }

  /** Only stream `i` has moved on in its submit. */
  ghost predicate Furthers(s: System, t: System, i: nat) {
    && Working(s, i) && Working(t, i) && |t.dev.chans| == |s.dev.chans|
    && t == s.(dev := t.dev, streams := s.streams[i := s.streams[i].(pc := t.streams[i].pc)])
    && t.streams[i].pc.ring == s.streams[i].pc.ring && t.streams[i].pc.job == s.streams[i].pc.job
    && t.streams[i].pc.deps == s.streams[i].pc.deps
  }

  lemma {:induction false} WaitsEnd(s: System, i: nat) returns (t: System)
    requires Sound(s) && Working(s, i)
    ensures Runs.Reaches(s, t, Does) && Sound(t) && Furthers(s, t, i)
    ensures t.streams[i].pc.todo == [] && t.streams[i].pc.at == s.streams[i].pc.at
    decreases |s.streams[i].pc.todo|
  {
    if s.streams[i].pc.todo == [] {
      t := s;
      Runs.ReachesItself(t, Does);
    } else {
      var s' := PutsWait(s, i);
      Steps(s, s', PutWait(i));
      t := WaitsEnd(s', i);
      Runs.ReachesOn(s, s', t, Does);
    }
  }

  /** The next wait is made: it is never refused. */
  lemma PutsWait(s: System, i: nat) returns (s': System)
    requires Sound(s) && Working(s, i) && s.streams[i].pc.todo != []
    ensures Does(s, s', PutWait(i)) && Furthers(s, s', i)
    ensures s'.streams[i].pc.todo == s.streams[i].pc.todo[1..] && s'.streams[i].pc.at == s.streams[i].pc.at
  {
    var pc := s.streams[i].pc;
    var f := pc.todo[0];
    assert Published(s.dev, f) by {
      assert SystemOk(s) && ThreadOk(s, s.streams[i]);
    }
    var dev := s.dev;
    if f.channel != pc.ring {
      dev := C.Appended(dev, pc.ring, C.Wait(f.channel, f.value));
    }
    s' := Put(s, i, s.streams[i].(pc := pc.(todo := pc.todo[1..], done := pc.done + [f]))).(dev := dev);
  }

  lemma {:induction false} ChunksEnd(s: System, i: nat) returns (t: System)
    requires Sound(s) && Working(s, i) && s.streams[i].pc.todo == []
             && |s.streams[i].pc.at| <= s.streams[i].pc.job.chunks
    ensures Runs.Reaches(s, t, Does) && Sound(t) && Furthers(s, t, i)
    ensures t.streams[i].pc.todo == [] && |t.streams[i].pc.at| == t.streams[i].pc.job.chunks
    decreases s.streams[i].pc.job.chunks - |s.streams[i].pc.at|
  {
    var pc := s.streams[i].pc;
    if |pc.at| == pc.job.chunks {
      t := s;
      Runs.ReachesItself(t, Does);
    } else {
      var n := |s.dev.chans[pc.ring].cmds|;
      var s' := Put(s, i, s.streams[i].(pc := pc.(at := pc.at + [n], fence := n + 1)))
                .(dev := C.Appended(s.dev, pc.ring, C.Work(pc.job.id)));
      Steps(s, s', PutChunk(i));
      t := ChunksEnd(s', i);
      Runs.ReachesOn(s, s', t, Does);
    }
  }

  /** From every reachable state an idle stream can submit a command to any ring, and it becomes the stream's last:
      in its ring, and behind every event the stream was told to wait for. */
  lemma SubmitEnds(s: System, i: nat, ring: nat, job: Job) returns (t: System)
    requires Sound(s) && i < |s.streams| && s.streams[i].pc.Idle? && ring < |s.dev.chans| && job.chunks > 0
    ensures Runs.Reaches(s, t, Does) && Sound(t) && |t.streams| == |s.streams| && t.streams[i].pc.Idle?
    ensures var x, h := t.streams[i], s.streams[i].history;
            && |x.history| == |x.behind| == |h| + 1 && x.history[..|h|] == h && x.extra == []
            && x.history[|h|].ring == ring && x.history[|h|].job == job && InRing(t.dev, x.history[|h|])
            && x.behind[|h|] == s.streams[i].extra
  {
    var x := s.streams[i];
    var pc := Busy(ring, job, x.extra, Fences(x.extra) + Tail(x.history), [], [], 0);
    var s1 := Put(s, i, x.(extra := [], pc := pc));
    Steps(s, s1, Begin(i, ring, job));
    var s2 := WaitsEnd(s1, i);
    var s3 := ChunksEnd(s2, i);
    t := Submitted(s3, i);
    Runs.ReachesOn(s2, s3, t, Does);
    Runs.ReachesOn(s1, s2, t, Does);
    Runs.ReachesOn(s, s1, t, Does);
  }

  lemma Submitted(s: System, i: nat) returns (t: System)
    requires Sound(s) && Working(s, i) && s.streams[i].pc.todo == []
             && |s.streams[i].pc.at| == s.streams[i].pc.job.chunks
    ensures Runs.Reaches(s, t, Does) && Sound(t) && |t.streams| == |s.streams| && t.streams[i].pc.Idle?
    ensures var x, y := s.streams[i], t.streams[i];
            && |y.history| == |y.behind| == |x.history| + 1 && y.history[..|x.history|] == x.history
                && y.extra == x.extra
            && y.history[|x.history|].ring == x.pc.ring && y.history[|x.history|].job == x.pc.job
            && InRing(t.dev, y.history[|x.history|]) && y.behind[|x.history|] == x.pc.deps
  {
    var x := s.streams[i];
    assert |x.behind| == |x.history| && x.pc.at != [] && x.pc.fence <= |s.dev.chans[x.pc.ring].cmds| by {
      assert SystemOk(s) && ThreadOk(s, x);
    }
    var y := x.(history := x.history + [Issued(x.pc.ring, x.pc.at[0], x.pc.fence, x.pc.job, x.pc.at)],
                behind := x.behind + [x.pc.deps], pc := Idle, dropped := [], lost := x.lost + [x.dropped]);
    t := Put(s, i, y);
    Steps(s, t, End(i, x.pc.fence));
    assert InRing(t.dev, y.history[|x.history|]) by {
      assert SystemOk(t) && ThreadOk(t, t.streams[i]) && LinkOk(t.dev, t.streams[i].history, |x.history|);
    }
  }

  // ---------------------------------------------------------------------------------------------
  // Refused commands
  // ---------------------------------------------------------------------------------------------

  ghost predicate Reachable(s: System) {
    exists s0 :: Init(s0) && Runs.Reaches(s0, s, Does)
  }

  lemma ReachableOk(s: System)
    requires Reachable(s)
    ensures SystemOk(s)
  {
    var s0 :| Init(s0) && Runs.Reaches(s0, s, Does);
    forall x, x', a | SystemOk(x) && Does(x, x', a)
      ensures SystemOk(x')
    {
      StepKeepsSystem(x, x', a);
    }
    Runs.KeepReaching(s0, s, Does, SystemOk);
  }

  /** A ring comes to a command of stream `i` before which event `j` was dropped: the event is on ring `from`, its
      waits were made on ring `made`, and the command is on ring `ring`. */
  ghost predicate Meets(s: System, i: nat, m: nat, j: nat, from: nat, made: nat, ring: nat) {
    && i < |s.streams| && m < |s.streams[i].history| && m < |s.streams[i].lost| && j < |s.streams[i].lost[m]|
    && Started(s.dev, s.streams[i].history[m]) && s.streams[i].history[m].ring == ring
    && s.streams[i].lost[m][j].ring == made && s.streams[i].lost[m][j].dep.fence.channel == from
  }

  /** An event that still counts has been waited for. */
  lemma DroppedCounts(s: System, i: nat, m: nat, j: nat, from: nat, made: nat, ring: nat)
    requires Reachable(s) && Meets(s, i, m, j, from, made, ring) && (made == ring || from == ring)
    ensures Recorded(s, s.streams[i].lost[m][j].dep)
  {
    ReachableOk(s);
    var x := s.streams[i];
    var d := x.lost[m][j].dep;
    assert LostOk(s, x.history, x.lost, m) && Counts(x.lost[m][j], ring);
    assert DepOk(s, d);
    forall e | 0 <= e <= d.index
      ensures Finished(s.dev, s.streams[d.stream].history[e])
    {
      EventOrder(s.dev, s.streams[d.stream].history, e, d.index, x.history[m]);
    }
  }

  const ONE: Job := Job(0, 1)

  function First(ring: nat, n: nat): (x: Issued) {
    Issued(ring, n, n + 1, ONE, [n])
  }

  /** A new stream's first command, with nothing to wait for. */
  lemma FirstCommand(s: System, i: nat, ring: nat) returns (t: System)
    requires i < |s.streams| && ring < |s.dev.chans|
    requires s.streams[i] == NEW.(dropped := s.streams[i].dropped)
    ensures var n := |s.dev.chans[ring].cmds|;
            t == Put(s, i, NEW.(history := [First(ring, n)], behind := [[]], lost := [s.streams[i].dropped]))
                 .(dev := C.Appended(s.dev, ring, C.Work(0)))
    ensures Runs.Reaches(s, t, Does)
  {
    var n, x := |s.dev.chans[ring].cmds|, s.streams[i];
    var begun := x.(pc := Busy(ring, ONE, [], [], [], [], 0));
    var put := x.(pc := Busy(ring, ONE, [], [], [], [n], n + 1));
    var s1 := Put(s, i, begun);
    assert Does(s, s1, Begin(i, ring, ONE)) by {
      assert Fences([]) + Tail([]) == [];
    }
    var s2 := Put(s, i, put).(dev := C.Appended(s.dev, ring, C.Work(0)));
    assert s2 == Put(s1, i, put).(dev := s2.dev) && [] + [n] == [n];
    assert Does(s1, s2, PutChunk(i));
    t := Put(s, i, NEW.(history := [First(ring, n)], behind := [[]], lost := [x.dropped])).(dev := s2.dev);
    assert t == Put(s2, i, t.streams[i]);
    assert put.history + [First(ring, n)] == [First(ring, n)] && put.behind + [[]] == [[]]
        && put.lost + [x.dropped] == [x.dropped];
    assert Does(s2, t, End(i, n + 1));
    Runs.ReachesItself(t, Does);
    Runs.StepReaches(s2, End(i, n + 1), t, t, Does);
    Runs.StepReaches(s1, PutChunk(i), s2, t, Does);
    Runs.StepReaches(s, Begin(i, ring, ONE), s1, t, Does);
  }

  /** A new stream's first command, which waits for one event, is refused. */
  lemma FirstRefused(s: System, i: nat, ring: nat, d: Dep) returns (t: System)
    requires i < |s.streams| && ring < |s.dev.chans| && s.streams[i] == NEW.(extra := [d]) && Published(s.dev, d.fence)
    ensures t == Put(s, i, NEW.(dropped := [Drop(d, ring)])).(dev := t.dev)
    ensures t.dev == if d.fence.channel == ring then s.dev
            else C.Appended(s.dev, ring, C.Wait(d.fence.channel, d.fence.value))
    ensures Runs.Reaches(s, t, Does)
  {
    var dev := if d.fence.channel == ring then s.dev
        else C.Appended(s.dev, ring, C.Wait(d.fence.channel, d.fence.value));
    var begun := NEW.(pc := Busy(ring, ONE, [d], [d.fence], [], [], 0));
    var waited := NEW.(pc := Busy(ring, ONE, [d], [], [d.fence], [], 0));
    var s1 := Put(s, i, begun);
    assert Does(s, s1, Begin(i, ring, ONE)) by {
      assert Fences([d]) + Tail([]) == [d.fence];
    }
    var s2 := Put(s, i, waited).(dev := dev);
    assert s2 == Put(s1, i, waited).(dev := dev);
    assert [d.fence][1..] == [] && [] + [d.fence] == [d.fence];
    assert Does(s1, s2, PutWait(i));
    t := Put(s, i, NEW.(dropped := [Drop(d, ring)])).(dev := dev);
    assert t == Put(s2, i, t.streams[i]);
    assert [] + Drops([d], ring) == [Drop(d, ring)];
    assert Does(s2, t, Reject(i));
    Runs.ReachesItself(t, Does);
    Runs.StepReaches(s2, Reject(i), t, t, Does);
    Runs.StepReaches(s1, PutWait(i), s2, t, Does);
    Runs.StepReaches(s, Begin(i, ring, ONE), s1, t, Does);
  }

  /** Stream 1 submits to ring `from` and records an event, for which stream 0 is told to wait. */
  lemma EventWaits(from: nat, rings: nat) returns (s0: System, t: System)
    requires from < rings
    ensures Init(s0) && Runs.Reaches(s0, t, Does) && |t.streams| == 2 && |t.dev.chans| == rings
    ensures t.streams[0] == NEW.(extra := [Dep(1, 0, Fence(from, 1))]) && t.streams[1].history == [First(from, 0)]
    ensures forall c ::
            0 <= c < rings ==> t.dev.chans[c].get == 0 && |t.dev.chans[c].cmds| == if c == from then 1 else 0
  {
    s0 := System(C.State(seq(rings, _ => C.Idle(0)), 0, [], None), [NEW, NEW], map[]);
    var s1 := FirstCommand(s0, 1, from);
    var d := Dep(1, 0, Fence(from, 1));
    var s2 := s1.(events := map[0 := d]);
    assert Does(s1, s2, StoreEvent(0, 1, 0));
    t := Put(s2, 0, NEW.(extra := [d]));
    assert s2.streams[0].extra + [d] == [d];
    assert Does(s2, t, WaitForEvent(0, 0));
    Runs.ReachesItself(t, Does);
    Runs.StepReaches(s2, WaitForEvent(0, 0), t, t, Does);
    Runs.StepReaches(s1, StoreEvent(0, 1, 0), s2, t, Does);
    Runs.ReachesOn(s0, s1, t, Does);
  }

  /** A refused command on another ring loses the event: the next command starts before the event. */
  lemma RefusedLosesEvent(from: nat, made: nat, ring: nat) returns (t: System)
    requires made != ring && from != ring
    ensures Reachable(t) && Meets(t, 0, 0, 0, from, made, ring) && !Recorded(t, t.streams[0].lost[0][0].dep)
  {
    var d := Dep(1, 0, Fence(from, 1));
    var s0, s1 := EventWaits(from, from + made + ring + 1);
    var s2 := FirstRefused(s1, 0, made, d);
    t := FirstCommand(s2, 0, ring);
    Runs.ReachesOn(s1, s2, t, Does);
    Runs.ReachesOn(s0, s1, t, Does);
    assert t.streams[1].history[0] == First(from, 0) && !Finished(t.dev, t.streams[1].history[0]);
  }

  /** Exactly when an event that was dropped with a refused command still counts: in every reachable state a command
      starts only after it, if and only if the refused command or the event itself was on the command's ring. */
  lemma DroppedCountsIff(from: nat, made: nat, ring: nat)
    ensures made == ring || from == ring <==>
              forall s, i: nat, m: nat, j: nat ::
                  Reachable(s) && Meets(s, i, m, j, from, made, ring) ==> Recorded(s, s.streams[i].lost[m][j].dep)
  {
    if made == ring || from == ring {
      forall s, i: nat, m: nat, j: nat | Reachable(s) && Meets(s, i, m, j, from, made, ring)
        ensures Recorded(s, s.streams[i].lost[m][j].dep)
      {
        DroppedCounts(s, i, m, j, from, made, ring);
      }
    } else {
      var t := RefusedLosesEvent(from, made, ring);
    }
  }
}
