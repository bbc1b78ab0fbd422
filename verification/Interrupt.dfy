/**
  Host waits (`wait_until`, `arm_irq`) and the engines' interrupts: many waiters, one interrupt line, one
  armed target per channel. Each step is one atomic access.
*/
module Interrupt {
  import opened Base
  import Runs

  /** The engine after a retirement: it loads the target, and if its fence has passed clears it and then
      pulses the line. */
  datatype Phase = Idle | LoadTarget | Clear | Signal

  datatype Channel = Channel(get: nat, target: nat, phase: Phase)

  /** Where a waiter stands. `w` is the channel at which its predicate failed. After the futex it looks at the
      predicate again, and starts over if that fails. */
  datatype Stage =
    | Start
    | Arm(i: nat)
    | ArmLoad(i: nat)
    | ArmTry(i: nat, cur: nat)
    | Check(i: nat)
    | Wait(w: nat)
    | Blocked(w: nat)
    | Again(i: nat)
    | Done

  /** `fence` holds the value to wait for on each channel, 0 where there is none: one entry for a fence, a
      PUT snapshot for a wait on everything. */
  datatype Waiter = Waiter(fence: seq<nat>, stage: Stage, seen: nat)

  datatype State = State(chans: seq<Channel>, irq: nat, waiters: map<nat, Waiter>)

  datatype Action =
    | Enter(p: nat, fence: seq<nat>)
    | Leave(p: nat)
    | Step(p: nat)
    | Timeout(p: nat)
    | Skip(p: nat)
    | LoseRace(p: nat)
    | Retire(c: nat)
    | Engine(c: nat)

  function SetChan(s: State, c: nat, k: Channel): (r: State)
    requires c < |s.chans|
  {
    s.(chans := s.chans[c := k])
  }

  function Move(s: State, p: nat, stage: Stage): (r: State)
    requires p in s.waiters
  {
    s.(waiters := s.waiters[p := s.waiters[p].(stage := stage)])
  }

  ghost predicate Satisfied(s: State, w: Waiter, i: nat) {
    i < |s.chans| && i < |w.fence| && w.fence[i] <= s.chans[i].get
  }

  /** An armed target that is low enough for this waiter. */
  predicate LowEnough(cur: nat, fence: nat) {
    cur != 0 && cur <= fence
  }

  /** One access of a waiter. */
  ghost predicate DoesStep(s: State, s': State, p: nat) {
    && p in s.waiters && |s.waiters[p].fence| == |s.chans|
    && Able(s, s.waiters[p]) && s' == Stepped(s, p)
  }

  ghost predicate Able(s: State, x: Waiter) {
    match x.stage
    case ArmLoad(i) => i < |s.chans|
    case ArmTry(i, _) => i < |s.chans|
    // The futex wakes when the sequence has moved on.
    case Blocked(_) => s.irq != x.seen
    case Done => false
    case _ => true
  }

  ghost function Stepped(s: State, p: nat): (s': State)
    requires p in s.waiters && |s.waiters[p].fence| == |s.chans| && Able(s, s.waiters[p])
  {
    var x := s.waiters[p];
    match x.stage
    case Start => s.(waiters := s.waiters[p := x.(stage := Arm(0), seen := s.irq)])
    case Arm(i) =>
      Move(s, p, if i >= |s.chans| then Check(0) else if x.fence[i] == 0 then Arm(i + 1) else ArmLoad(i))
    case ArmLoad(i) => Move(s, p, ArmTry(i, s.chans[i].target))
    // compare-exchange; a failure returns the value that was there
    case ArmTry(i, cur) =>
      if LowEnough(cur, x.fence[i]) then Move(s, p, Arm(i + 1))
      else if s.chans[i].target == cur then
        SetChan(Move(s, p, Arm(i + 1)), i, s.chans[i].(target := x.fence[i]))
      else Move(s, p, ArmTry(i, s.chans[i].target))
    case Check(i) =>
      Move(s, p, if i >= |s.chans| then Done else if x.fence[i] <= s.chans[i].get then Check(i + 1) else Wait(i))
    // The futex sleeps only if the sequence is still the sampled one.
    case Wait(w) => Move(s, p, if s.irq == x.seen then Blocked(w) else Again(0))
    case Blocked(_) => Move(s, p, Again(0))
    case Again(i) =>
      Move(s, p, if i >= |s.chans| then Done else if x.fence[i] <= s.chans[i].get then Again(i + 1) else Start)
    case Done => s
  }

  ghost predicate Does(s: State, s': State, a: Action) {
    match a
    case Enter(p, fence) =>
      && p !in s.waiters && |fence| == |s.chans|
      && s' == s.(waiters := s.waiters[p := Waiter(fence, Start, 0)])
    case Leave(p) => p in s.waiters && s.waiters[p].stage == Done && s' == s.(waiters := s.waiters - {p})
    case Step(p) => DoesStep(s, s', p)
    case Timeout(p) => p in s.waiters && s.waiters[p].stage.Blocked? && s' == Move(s, p, Again(0))
    // A snapshot wait does not arm a channel that has retired enough.
    case Skip(p) =>
      p in s.waiters && s.waiters[p].stage.Arm? && Satisfied(s, s.waiters[p], s.waiters[p].stage.i)
          && s' == Move(s, p, Arm(s.waiters[p].stage.i + 1))
    // compare_exchange_weak may fail for no reason
    case LoseRace(p) =>
      p in s.waiters && s.waiters[p].stage.ArmTry? && s.waiters[p].stage.i < |s.chans|
      && s' == Move(s, p, ArmTry(s.waiters[p].stage.i, s.chans[s.waiters[p].stage.i].target))
    case Retire(c) =>
      && c < |s.chans| && s.chans[c].phase == Idle
      && s' == SetChan(s, c, s.chans[c].(get := s.chans[c].get + 1, phase := LoadTarget))
    case Engine(c) =>
      && c < |s.chans|
      && var k := s.chans[c];
         match k.phase
         case Idle => false
         case LoadTarget => s' == SetChan(s, c, k.(phase := if LowEnough(k.target, k.get) then Clear else Idle))
         case Clear => s' == SetChan(s, c, k.(target := 0, phase := Signal))
         case Signal => s' == SetChan(s, c, k.(phase := Idle)).(irq := s.irq + 1)
  }

  // ---------------------------------------------------------------------------------------------
  // Invariant
  // ---------------------------------------------------------------------------------------------

  ghost predicate Pulsed(s: State, x: Waiter) {
    s.irq != x.seen
  }

  /** A pulse for channel `i` is due: its target is armed low enough, or cleared and the pulse is coming. */
  ghost predicate Armed(s: State, x: Waiter, i: nat)
    requires i < |s.chans| && i < |x.fence|
  {
    Pulsed(s, x) || LowEnough(s.chans[i].target, x.fence[i]) || s.chans[i].phase == Signal
  }

  /** Channel `i` has been dealt with: enough has retired, or it is armed. */
  ghost predicate Handled(s: State, x: Waiter, i: nat) {
    i < |s.chans| && i < |x.fence| ==> x.fence[i] <= s.chans[i].get || Armed(s, x, i)
  }

  /** The predicate failed at channel `w` after arming. */
  ghost predicate Sleepable(s: State, x: Waiter, w: nat) {
    && w < |s.chans| && w < |x.fence| && Armed(s, x, w)
    && (x.fence[w] <= s.chans[w].get ==> Pulsed(s, x) || s.chans[w].phase != Idle)
  }

  ghost predicate HandledUpTo(s: State, x: Waiter, n: nat) {
    forall i :: 0 <= i < n ==> Handled(s, x, i)
  }

  ghost predicate WaiterOk(s: State, x: Waiter) {
    && |x.fence| == |s.chans| && x.seen <= s.irq
    && match x.stage
       case Start => true
       case Arm(i) => HandledUpTo(s, x, i)
       case ArmLoad(i) => HandledUpTo(s, x, i) && i < |s.chans| && x.fence[i] != 0
       case ArmTry(i, cur) =>
         && HandledUpTo(s, x, i) && i < |s.chans| && x.fence[i] != 0
         && (LowEnough(cur, x.fence[i]) ==> Armed(s, x, i))
       case Check(_) => HandledUpTo(s, x, |s.chans|)
       case Wait(w) => Sleepable(s, x, w)
       case Blocked(w) => Sleepable(s, x, w)
       case Again(_) => true
       case Done => true
  }

  /** Once the engine has decided to clear, the target it saw is still there or was lowered. */
  ghost predicate ChannelOk(k: Channel) {
    k.phase == Clear ==> LowEnough(k.target, k.get)
  }

  ghost predicate Inv(s: State) {
    && (forall p :: p in s.waiters ==> WaiterOk(s, s.waiters[p]))
    && (forall c :: 0 <= c < |s.chans| ==> ChannelOk(s.chans[c]))
  }

  ghost predicate Init(s: State) {
    s.waiters == map[] && forall c :: 0 <= c < |s.chans| ==> s.chans[c] == Channel(0, 0, Idle)
  }

  /** What the engines and the other waiters may do to a waiter's channels. */
  ghost predicate Benign(s: State, s': State) {
    && |s'.chans| == |s.chans| && s.irq <= s'.irq
    && forall i :: 0 <= i < |s.chans| ==> BenignAt(s.chans[i], s'.chans[i], s.irq < s'.irq)
  }

  /** GET grows; an armed target is only lowered, or cleared on the way to a pulse; a retirement starts the
      engine's look at the target, which ends in a pulse if the target is low enough. */
  ghost predicate BenignAt(k: Channel, k': Channel, pulsed: bool) {
    && k.get <= k'.get
    && (k.target != 0 ==> (k'.target != 0 && k'.target <= k.target) || k'.phase == Signal)
    && (k.phase == Signal ==> k'.phase == Signal || pulsed)
    && (k.get < k'.get ==> k'.phase != Idle)
    && (k.phase != Idle && k'.phase == Idle ==> pulsed || (k.phase == LoadTarget && !LowEnough(k.target, k.get)))
  }

  lemma ArmedStays(s: State, s': State, x: Waiter, i: nat)
    requires Benign(s, s') && i < |s.chans| && i < |x.fence| && x.seen <= s.irq && Armed(s, x, i)
    ensures Armed(s', x, i)
  {
    assert BenignAt(s.chans[i], s'.chans[i], s.irq < s'.irq);
  }

  lemma HandledStays(s: State, s': State, x: Waiter, n: nat)
    requires Benign(s, s') && x.seen <= s.irq && HandledUpTo(s, x, n)
    ensures HandledUpTo(s', x, n)
  {
    forall i | 0 <= i < n
      ensures Handled(s', x, i)
    {
      assert Handled(s, x, i);
      if i < |s.chans| && i < |x.fence| {
        assert BenignAt(s.chans[i], s'.chans[i], s.irq < s'.irq);
      }
    }
  }

  lemma SleepableStays(s: State, s': State, x: Waiter, w: nat)
    requires Benign(s, s') && x.seen <= s.irq && Sleepable(s, x, w)
    ensures Sleepable(s', x, w)
  {
    ArmedStays(s, s', x, w);
    assert BenignAt(s.chans[w], s'.chans[w], s.irq < s'.irq);
  }

  lemma WaiterStays(s: State, s': State, x: Waiter)
    requires Benign(s, s') && WaiterOk(s, x)
    ensures WaiterOk(s', x)
  {
    match x.stage
    case Arm(i) => HandledStays(s, s', x, i);
    case ArmLoad(i) => HandledStays(s, s', x, i);
    case ArmTry(i, cur) =>
      HandledStays(s, s', x, i);
      if i < |s.chans| && LowEnough(cur, x.fence[i]) {
        ArmedStays(s, s', x, i);
      }
    case Check(_) => HandledStays(s, s', x, |s.chans|);
    case Wait(w) => SleepableStays(s, s', x, w);
    case Blocked(w) => SleepableStays(s, s', x, w);
    case _ =>
  }

  lemma EngineBenign(s: State, s': State, a: Action)
    requires Inv(s) && Does(s, s', a) && (a.Retire? || a.Engine?)
    ensures Benign(s, s')
  {
    forall i | 0 <= i < |s.chans|
      ensures BenignAt(s.chans[i], s'.chans[i], s.irq < s'.irq)
    {
      assert ChannelOk(s.chans[i]);
    }
  }

  lemma StepBenign(s: State, s': State, p: nat)
    requires Inv(s) && Does(s, s', Step(p))
    ensures Benign(s, s')
  {
    forall i | 0 <= i < |s.chans|
      ensures BenignAt(s.chans[i], s'.chans[i], s.irq < s'.irq)
    {
    }
  }

  /** The waiter itself, after its own step. */
  lemma StepOk(s: State, s': State, p: nat)
    requires Inv(s) && Does(s, s', Step(p))
    ensures p in s'.waiters && WaiterOk(s', s'.waiters[p])
  {
    var x := s.waiters[p];
    StepBenign(s, s', p);
    WaiterStays(s, s', x);
    assert x.stage.Check? && x.stage.i < |s.chans| ==> Handled(s, x, x.stage.i);
    assert forall i, j :: Handled(s', x.(stage := j), i) <==> Handled(s', x, i);
  }

  lemma OthersStay(s: State, s': State, p: nat)
    requires Inv(s) && Benign(s, s')
             && forall q :: q in s'.waiters && q != p ==> q in s.waiters && s'.waiters[q] == s.waiters[q]
    ensures forall q :: q in s'.waiters && q != p ==> WaiterOk(s', s'.waiters[q])
  {
    forall q | q in s'.waiters && q != p
      ensures WaiterOk(s', s'.waiters[q])
    {
      WaiterStays(s, s', s.waiters[q]);
    }
  }

  lemma StepKeepsInv(s: State, s': State, a: Action)
    requires Inv(s) && Does(s, s', a)
    ensures Inv(s')
  {
    match a
    case Step(p) =>
      StepBenign(s, s', p);
      StepOk(s, s', p);
      OthersStay(s, s', p);
      ChannelsStay(s, s', p);
    case Timeout(p) => OwnStageKeeps(s, s', a, p);
    case Skip(p) => OwnStageKeeps(s, s', a, p);
    case LoseRace(p) => OwnStageKeeps(s, s', a, p);
    case Enter(p, _) => OthersStay(s, s', p);
    case Leave(p) => OthersStay(s, s', p);
    case Retire(c) => EngineKeeps(s, s', a, c);
    case Engine(c) => EngineKeeps(s, s', a, c);
  }

  /** A waiter only arms, or lowers, a target. */
  lemma ChannelsStay(s: State, s': State, p: nat)
    requires Inv(s) && Does(s, s', Step(p))
    ensures forall c :: 0 <= c < |s'.chans| ==> ChannelOk(s'.chans[c])
  {
    forall c | 0 <= c < |s'.chans|
      ensures ChannelOk(s'.chans[c])
    {
      assert ChannelOk(s.chans[c]);
    }
  }

  lemma OwnStageKeeps(s: State, s': State, a: Action, p: nat)
    requires Inv(s) && Does(s, s', a) && (a == Timeout(p) || a == Skip(p) || a == LoseRace(p))
    ensures Inv(s')
  {
    OthersStay(s, s', p);
    assert WaiterOk(s, s.waiters[p]);
    assert forall i, j :: Handled(s', s.waiters[p].(stage := j), i) <==> Handled(s, s.waiters[p], i);
  }

  lemma EngineKeeps(s: State, s': State, a: Action, c: nat)
    requires Inv(s) && Does(s, s', a) && (a == Retire(c) || a == Engine(c))
    ensures Inv(s')
  {
    EngineBenign(s, s', a);
    forall p | p in s'.waiters
      ensures WaiterOk(s', s'.waiters[p])
    {
      WaiterStays(s, s', s.waiters[p]);
    }
    forall d | 0 <= d < |s'.chans|
      ensures ChannelOk(s'.chans[d])
    {
      assert ChannelOk(s.chans[d]);
    }
  }

  // ---------------------------------------------------------------------------------------------
  // Whole runs
  // ---------------------------------------------------------------------------------------------

  ghost predicate IsRun(run: seq<State>, acts: seq<Action>) {
    Runs.IsRun(run, acts, Init, Does)
  }

  lemma RunKeepsInv(run: seq<State>, acts: seq<Action>, k: nat)
    requires IsRun(run, acts) && k < |run|
    ensures Inv(run[k])
  {
    forall s, s', a | Inv(s) && Does(s, s', a)
      ensures Inv(s')
    {
      StepKeepsInv(s, s', a);
    }
    Runs.KeepInvariant(run, acts, Init, Does, Inv, k);
  }

  /**
    No lost interrupt. A waiter is blocked with an unchanged sequence. If the fence at which its predicate
    failed has not passed, the channel's target is armed at most at that fence, or the engine has cleared
    it and is about to pulse. If it has passed since, the engine is on its way to the pulse.
  */
  lemma NoLostInterrupt(run: seq<State>, acts: seq<Action>, k: nat, p: nat)
    requires IsRun(run, acts) && k < |run| && p in run[k].waiters && run[k].waiters[p].stage.Blocked?
             && run[k].irq == run[k].waiters[p].seen
    ensures var s, x := run[k], run[k].waiters[p];
            var w := x.stage.w;
            && w < |s.chans| && w < |x.fence|
            && (LowEnough(s.chans[w].target, x.fence[w]) || s.chans[w].phase == Signal)
            && (x.fence[w] <= s.chans[w].get ==> s.chans[w].phase != Idle)
  {
    RunKeepsInv(run, acts, k);
    assert WaiterOk(run[k], run[k].waiters[p]);
  }

  /** That way ends in the pulse: the engine's next steps on the channel are to clear and to signal. */
  lemma PulseFollows(s: State, s1: State, c: nat, x: Waiter)
    requires c < |s.chans| && c < |x.fence| && Does(s, s1, Engine(c)) && x.seen <= s.irq
    requires LowEnough(s.chans[c].target, x.fence[c]) || s.chans[c].phase == Signal
    requires x.fence[c] <= s.chans[c].get
    ensures match s.chans[c].phase
            case LoadTarget => s1.chans[c].phase == Clear
            case Clear => s1.chans[c].phase == Signal
            case _ => Pulsed(s1, x)
  {
  }

  // ---------------------------------------------------------------------------------------------
  // Waiters do block, and they do return
  // ---------------------------------------------------------------------------------------------

  /** Any step but the timeout. */
  ghost predicate Prompt(s: State, s': State, a: Action) {
    Does(s, s', a) && !a.Timeout?
  }

  ghost predicate PassedUpTo(s: State, x: Waiter, n: nat) {
    forall i :: 0 <= i < n && i < |s.chans| && i < |x.fence| ==> x.fence[i] <= s.chans[i].get
  }

  ghost predicate AllPassed(s: State, x: Waiter) {
    PassedUpTo(s, x, |s.chans|)
  }

  /** The waiter has the same fences, and as much has retired. */
  ghost predicate Same(s: State, t: State, p: nat) {
    && p in s.waiters && p in t.waiters && t.waiters[p].fence == s.waiters[p].fence && |t.chans| == |s.chans|
    && forall c :: 0 <= c < |s.chans| ==> t.chans[c].get == s.chans[c].get
  }

  lemma Takes(s: State, s': State, a: Action)
    requires Inv(s) && Prompt(s, s', a)
    ensures Runs.Reaches(s, s', Prompt) && Inv(s')
  {
    StepKeepsInv(s, s', a);
    Runs.ReachesItself(s', Prompt);
    Runs.StepReaches(s, a, s', s', Prompt);
  }

  /** How many steps the waiter has to go, at most, before it is done or about to block. */
  function Ahead(chans: seq<Channel>, stage: Stage): (n: int) {
    var n := |chans|;
    match stage
    case Start => 5 * n + 4
    case Arm(i) => if i < n then 4 * (n - i) + n + 3 else n + 3
    case ArmLoad(i) => 4 * (n - i) + n + 2
    case ArmTry(i, cur) => 4 * (n - i) + n + if i < n && chans[i].target == cur then 0 else 1
    case Check(i) => if i < n then n - i + 1 else 1
    case Again(i) => 5 * n + 5 + if i < n then n - i else 0
    case _ => 0
  }

  /** Not blocked, and what the waiter has found out so far still holds. */
  ghost predicate Upright(s: State, x: Waiter) {
    match x.stage
    case Wait(w) => w < |s.chans| && w < |x.fence| && x.fence[w] > s.chans[w].get
    case Check(i) => PassedUpTo(s, x, i)
    case Again(i) => PassedUpTo(s, x, i)
    case Done => AllPassed(s, x)
    case Blocked(_) => false
    case _ => true
  }

  /** The waiter samples the sequence before it waits. */
  predicate Samples(stage: Stage) {
    stage.Start? || stage.Again?
  }

  /** A waiter that neither waits nor is done can take a step. */
  ghost predicate Walking(s: State, p: nat) {
    && p in s.waiters && Upright(s, s.waiters[p]) && WaiterOk(s, s.waiters[p])
    && !s.waiters[p].stage.Wait? && !s.waiters[p].stage.Done?
  }

  lemma WalkCloser(s: State, p: nat)
    requires Walking(s, p)
    ensures Same(s, Stepped(s, p), p)
    ensures 0 <= Ahead(Stepped(s, p).chans, Stepped(s, p).waiters[p].stage) < Ahead(s.chans, s.waiters[p].stage)
  {
  }

  lemma WalkTakes(s: State, p: nat) returns (s': State)
    requires Inv(s) && Walking(s, p)
    ensures Runs.Reaches(s, s', Prompt) && Inv(s') && s' == Stepped(s, p) && s'.irq == s.irq
    ensures p in s'.waiters && Upright(s', s'.waiters[p])
    ensures s'.waiters[p].seen == if s.waiters[p].stage.Start? then s.irq else s.waiters[p].seen
    ensures if s.waiters[p].stage.Again? then Samples(s'.waiters[p].stage) || s'.waiters[p].stage.Done?
            else !Samples(s'.waiters[p].stage)
  {
    s' := Stepped(s, p);
    Takes(s, s', Step(p));
  }

  /** Left alone, a waiter on its way arms and checks every channel: it is done exactly if all has passed, and
      else it comes to the wait with a fence that has not. */
  lemma {:induction false} Walks(s: State, p: nat) returns (t: State)
    requires Inv(s) && p in s.waiters && Upright(s, s.waiters[p])
    ensures Runs.Reaches(s, t, Prompt) && Inv(t) && Same(s, t, p) && t.irq == s.irq
    ensures t.waiters[p].stage.Wait? ==>
            t.waiters[p].seen == if Samples(s.waiters[p].stage) then s.irq else s.waiters[p].seen
    ensures Upright(t, t.waiters[p]) && (t.waiters[p].stage.Wait? || t.waiters[p].stage.Done?)
    decreases Ahead(s.chans, s.waiters[p].stage)
  {
    if s.waiters[p].stage.Wait? || s.waiters[p].stage.Done? {
      t := s;
      Runs.ReachesItself(s, Prompt);
    } else {
      assert WaiterOk(s, s.waiters[p]);
      var s' := WalkTakes(s, p);
      WalkCloser(s, p);
      t := Walks(s', p);
      Runs.ReachesOn(s, s', t, Prompt);
    }
  }

  /** A waiter whose predicate does not hold blocks, if nobody else moves: then the channel at which it failed
      is armed for it. */
  lemma WaiterBlocks(s: State, p: nat) returns (t: State)
    requires Inv(s) && p in s.waiters && s.waiters[p].stage == Start && !AllPassed(s, s.waiters[p])
    ensures Runs.Reaches(s, t, Prompt) && Inv(t) && Same(s, t, p) && t.waiters[p].stage.Blocked?
    ensures var w := t.waiters[p].stage.w;
            && w < |t.chans| && t.waiters[p].fence[w] > t.chans[w].get
            && (LowEnough(t.chans[w].target, t.waiters[p].fence[w]) || t.chans[w].phase == Signal)
  {
    var u := Walks(s, p);
    t := Stepped(u, p);
    Takes(u, t, Step(p));
    Runs.ReachesOn(s, u, t, Prompt);
    assert WaiterOk(t, t.waiters[p]);
  }

  function PulseAhead(phase: Phase): (n: nat) {
    match phase
    case LoadTarget => 3
    case Clear => 2
    case Signal => 1
    case Idle => 0
  }

  /** When the fence of a blocked waiter has passed, the engine's pulse comes and wakes it, to look again. */
  lemma {:induction false} Wakes(s: State, p: nat) returns (t: State)
    requires Inv(s) && p in s.waiters && s.waiters[p].stage.Blocked?
    requires s.waiters[p].fence[s.waiters[p].stage.w] <= s.chans[s.waiters[p].stage.w].get
    ensures Runs.Reaches(s, t, Prompt) && Inv(t) && Same(s, t, p) && t.waiters[p].stage == Again(0)
    decreases if s.irq == s.waiters[p].seen then 1 + PulseAhead(s.chans[s.waiters[p].stage.w].phase) else 0
  {
    var x := s.waiters[p];
    assert WaiterOk(s, x);
    if s.irq != x.seen {
      t := Stepped(s, p);
      Takes(s, t, Step(p));
    } else {
      var c := x.stage.w;
      var k := s.chans[c];
      var s' := match k.phase
        case LoadTarget => SetChan(s, c, k.(phase := Clear))
        case Clear => SetChan(s, c, k.(target := 0, phase := Signal))
        case Signal => SetChan(s, c, k.(phase := Idle)).(irq := s.irq + 1);
      Takes(s, s', Engine(c));
      PulseFollows(s, s', c, x);
      t := Wakes(s', p);
      Runs.ReachesOn(s, s', t, Prompt);
    }
  }

  /** A waiter whose predicate holds returns, wherever it stands, and needs no timeout for it. */
  lemma WaiterReturns(s: State, p: nat) returns (t: State)
    requires Inv(s) && p in s.waiters && AllPassed(s, s.waiters[p])
    ensures Runs.Reaches(s, t, Prompt) && Inv(t) && p !in t.waiters
  {
    var u := s;
    assert WaiterOk(s, s.waiters[p]);
    Runs.ReachesItself(s, Prompt);
    if s.waiters[p].stage.Wait? {
      u := Stepped(s, p);
      Takes(s, u, Step(p));
    }
    assert WaiterOk(u, u.waiters[p]);
    var v := u;
    if u.waiters[p].stage.Blocked? {
      v := Wakes(u, p);
      Runs.ReachesOn(s, u, v, Prompt);
    }
    var d := Walks(v, p);
    t := d.(waiters := d.waiters - {p});
    Takes(d, t, Leave(p));
    Runs.ReachesOn(s, v, d, Prompt);
    Runs.ReachesOn(s, d, t, Prompt);
  }
}
