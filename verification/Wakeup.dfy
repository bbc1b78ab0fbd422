/**
  Engines do go to sleep when they have nothing to do, and they do get up for work, without the timeout.
*/
module Wakeup {
  import opened Doorbell
  import Runs

  /** Any step but the 1 ms timeout. */
  ghost predicate Prompt(s: State, s': State, a: Action) {
    Does(s, s', a) && !a.Timeout?
  }

  /** The invariant of Doorbell. Stated so that the verifier looks inside only where `Inv` is mentioned. */
  ghost predicate Sound(s: State) {
    forall x {:trigger Inv(x)} :: x == s ==> Inv(x)
  }

  lemma Takes(s: State, s': State, a: Action)
    requires Sound(s) && Prompt(s, s', a)
    ensures Runs.Reaches(s, s', Prompt) && Sound(s')
  {
    assert Inv(s);
    StepKeepsInv(s, s', a);
    Runs.ReachesItself(s', Prompt);
    Runs.StepReaches(s, a, s', s', Prompt);
  }

  /** The step of engine `e` on its way into sleep or out of it. */
  lemma SleepTakes(s: State, e: nat) returns (s': State)
    requires Sound(s) && e < |s.engines| && InSleepCode(s.engines[e].phase)
    requires s.engines[e].phase == Asleep ==> BellRung(s, e)
    ensures Runs.Reaches(s, s', Prompt) && Sound(s') && s'.chans == s.chans && |s'.engines| == |s.engines|
    ensures s'.engines[e] == NextSleeper(s, e)
  {
    assert s.engines[e].phase == Uncount ==> s.numAsleepBlocked > 0 by {
      if s.engines[e].phase == Uncount {
        assert Inv(s) && EngineOk(s.engines[e]);
        assert e in CountedSet(s);
      }
    }
    s' := SetEngine(s, e, NextSleeper(s, e)).(numAsleepBlocked :=
            if s.engines[e].phase == Count then s.numAsleepBlocked + 1
            else if s.engines[e].phase == Uncount then s.numAsleepBlocked - 1
            else s.numAsleepBlocked);
    Takes(s, s', Sleep(e));
  }

  // ---------------------------------------------------------------------------------------------
  // Getting up
  // ---------------------------------------------------------------------------------------------

  function UpAhead(p: Phase): (n: nat) {
    match p
    case Asleep => 4
    case Disarm => 3
    case Unflag => 2
    case Uncount => 1
    case _ => 0
  }

  /** An engine whose bell has been rung gets up and runs. */
  lemma {:induction false} GetsUp(s: State, e: nat) returns (t: State)
    requires Sound(s) && e < |s.engines| && (s.engines[e].phase == Run || UpAhead(s.engines[e].phase) > 0)
    requires s.engines[e].phase == Asleep ==> BellRung(s, e)
    ensures Runs.Reaches(s, t, Prompt) && Sound(t) && t.chans == s.chans && |t.engines| == |s.engines|
    ensures t.engines[e].phase == Run
    decreases UpAhead(s.engines[e].phase)
  {
    if s.engines[e].phase == Run {
      t := s;
      Runs.ReachesItself(t, Prompt);
    } else {
      var s' := SleepTakes(s, e);
      t := GetsUp(s', e);
      Runs.ReachesOn(s, s', t, Prompt);
    }
  }

  /** A producer or unparker in its window rings the bell of a sleeper. */
  lemma AgentComes(s: State, e: nat, p: nat) returns (t: State)
    requires Sound(s) && e < |s.engines| && s.engines[e].phase == Asleep && p in s.agents && Owned(s, e, s.agents[p].c)
    ensures Runs.Reaches(s, t, Prompt) && Sound(t) && t.chans == s.chans && |t.engines| == |s.engines|
    ensures t.engines[e].phase == Asleep && BellRung(t, e)
  {
    assert s.engines[e].asleep && s.engines[e].bellSeen <= s.engines[e].bell by {
      assert Inv(s) && EngineOk(s.engines[e]);
    }
    var u := s;
    Runs.ReachesItself(s, Prompt);
    if !s.agents[p].ringing {
      u := s.(agents := s.agents[p := s.agents[p].(ringing := true)]);
      Takes(s, u, LoadAsleep(p));
    }
    t := Rung(u, e).(agents := u.agents - {p});
    Takes(u, t, RingBell(p));
    Runs.ReachesOn(s, u, t, Prompt);
  }

  /** How far engine `r` is on its round from ringing engine `e`. */
  function RoundAhead(p: Phase, e: nat): (n: int) {
    match p
    case LoadCount => 2 * e + 4
    case Visit(i) => 2 * (e - i) + 3
    case Ring(i) => 2 * (e - i) + 2
    case _ => 0
  }

  /** An engine on its wake-up round comes to a blocked sleeper and rings its bell. */
  lemma {:induction false} RoundComes(s: State, r: nat, e: nat) returns (t: State)
    requires Sound(s) && e < |s.engines| && s.engines[e].phase == Asleep && s.engines[e].pending
    requires WillVisit(s, r, e) || BellRung(s, e)
    ensures Runs.Reaches(s, t, Prompt) && Sound(t) && t.chans == s.chans && |t.engines| == |s.engines|
    ensures t.engines[e].phase == Asleep && BellRung(t, e)
    decreases if BellRung(s, e) then 0 else RoundAhead(s.engines[r].phase, e)
  {
    if BellRung(s, e) {
      t := s;
      Runs.ReachesItself(t, Prompt);
    } else {
      var s' := RoundTakes(s, r, e);
      t := RoundComes(s', r, e);
      Runs.ReachesOn(s, s', t, Prompt);
    }
  }

  lemma RoundTakes(s: State, r: nat, e: nat) returns (s': State)
    requires Sound(s) && e < |s.engines| && s.engines[e].phase == Asleep && s.engines[e].pending && WillVisit(s, r, e)
    ensures Runs.Reaches(s, s', Prompt) && Sound(s') && s'.chans == s.chans && |s'.engines| == |s.engines|
    ensures s'.engines[e].phase == Asleep && s'.engines[e].pending
    ensures BellRung(s', e) || (WillVisit(s', r, e)
                                && 0 <= RoundAhead(s'.engines[r].phase, e) < RoundAhead(s.engines[r].phase, e))
  {
    var p := s.engines[r].phase;
    s' := SetPhase(if p.Ring? then Rung(s, p.i) else s, r, NextVisit(s, r));
    assert Prompt(s, s', Wake(r));
    Takes(s, s', Wake(r));
    assert WillVisit(s', r, e) || BellRung(s', e) by {
      assert Inv(s);
      VisitRings(s, s', r, e);
    }
  }

  /** A sleeper with work gets up without the timeout: whoever is due to ring its bell does, and that wakes it. */
  lemma WorkWakes(s: State, e: nat, c: nat) returns (t: State)
    requires Sound(s) && e < |s.engines| && s.engines[e].phase == Asleep && Owned(s, e, c)
    requires NewPut(s, c) || ReadyHead(s, c)
    ensures Runs.Reaches(s, t, Prompt) && Sound(t) && t.chans == s.chans && |t.engines| == |s.engines|
    ensures t.engines[e].phase == Run
  {
    var u := s;
    Runs.ReachesItself(s, Prompt);
    if !BellRung(s, e) {
      assert (NewPut(s, c) ==> AgentInWindow(s, c))
          && (ReadyHead(s, c) ==> AgentInWindow(s, c) || ToBeVisited(s, e)) by {
        assert Inv(s) && Checked(s, e, c) && Covered(s, e, c);
      }
      if p :| p in s.agents && s.agents[p].c == c {
        u := AgentComes(s, e, p);
      } else {
        var r :| WillVisit(s, r, e);
        assert s.engines[e].pending by {
          assert Inv(s) && ChannelOk(s, c);
        }
        u := RoundComes(s, r, e);
      }
    }
    t := GetsUp(u, e);
    Runs.ReachesOn(s, u, t, Prompt);
  }

  /** So a command that can run, on a channel whose engine is asleep, is retired without the timeout. */
  lemma SleeperRetires(s: State, e: nat, c: nat) returns (t: State)
    requires Sound(s) && e < |s.engines| && s.engines[e].phase == Asleep && Owned(s, e, c) && !s.chans[c].parked
    requires s.chans[c].get < Put(s, c) && Ready(s, s.chans[c].cmds[s.chans[c].get])
    ensures Runs.Reaches(s, t, Prompt) && |t.chans| == |s.chans| && t.chans[c].get == s.chans[c].get + 1
  {
    assert s.chans[c].seen <= Put(s, c) by {
      assert Inv(s) && ChannelOk(s, c);
    }
    var u := WorkWakes(s, e, c);
    var k := u.chans[c];
    var v := SetPhase(SetChan(u, c, k.(get := k.get + 1)), e, LoadCount);
    t := v;
    Takes(u, v, Retire(c));
    Runs.ReachesOn(s, u, t, Prompt);
  }

  /** Publishing is always possible, and it wakes the engine: a command published to an empty channel whose engine is
      asleep is retired without the timeout. */
  lemma SubmitWakes(s: State, e: nat, c: nat, p: nat, cmd: Command) returns (t: State)
    requires Sound(s) && e < |s.engines| && s.engines[e].phase == Asleep && Owned(s, e, c) && !s.chans[c].parked
    requires s.chans[c].get == Put(s, c) && p !in s.agents && Ready(s, cmd)
    ensures Runs.Reaches(s, t, Prompt) && |t.chans| == |s.chans| && t.chans[c].get == s.chans[c].get + 1
  {
    var u := SetChan(s, c, s.chans[c].(cmds := s.chans[c].cmds + [cmd])).(agents := s.agents[p := Agent(c, false)]);
    Takes(s, u, Publish(p, c, cmd));
    t := SleeperRetires(u, e, c);
    Runs.ReachesOn(s, u, t, Prompt);
  }

  // ---------------------------------------------------------------------------------------------
  // Going to sleep
  // ---------------------------------------------------------------------------------------------

  /** Engine `e` has nothing to do for channel `c`, and knows it. */
  ghost predicate Nothing(s: State, e: nat, c: nat) {
    Owned(s, e, c) && !s.chans[c].parked ==>
      && Put(s, c) == s.chans[c].seen
      && (s.chans[c].get == Put(s, c) || !Ready(s, s.chans[c].cmds[s.chans[c].get]))
  }

  function DownAhead(p: Phase, n: nat): (r: int) {
    match p
    case Arm => 3 * n + 6
    case Flag => 3 * n + 5
    case Count => 3 * n + 4
    case Recheck(c) => 3 * (n - c) + 3
    case RecheckPut(c) => 3 * (n - c) + 2
    case RecheckHead(c) => 3 * (n - c) + 1
    case _ => 0
  }

  /** An engine that has nothing to do goes to sleep, if nobody rings. */
  lemma FallsAsleep(s: State, e: nat) returns (t: State)
    requires Sound(s) && e < |s.engines| && s.engines[e].phase == Run && forall c: nat :: Nothing(s, e, c)
    ensures Runs.Reaches(s, t, Prompt) && Sound(t) && t.chans == s.chans && |t.engines| == |s.engines|
    ensures t.engines[e].phase == Asleep
  {
    var pending := exists c: nat :: Owned(s, e, c) && s.chans[c].seen != s.chans[c].get;
    var u := SetEngine(s, e, s.engines[e].(phase := Arm, bellSeen := s.engines[e].bell, pending := pending));
    Takes(s, u, GoIdle(e));
    forall c: nat
      ensures Nothing(u, e, c)
    {
      assert Nothing(s, e, c);
    }
    t := GoesDown(u, e);
    Runs.ReachesOn(s, u, t, Prompt);
  }

  /** On its way, at a channel of its own if at any. */
  ghost predicate GoingDown(s: State, e: nat)
    requires e < |s.engines|
  {
    match s.engines[e].phase
    case Arm => true
    case Flag => true
    case Count => true
    case Recheck(c) => c <= |s.chans|
    case RecheckPut(c) => Owned(s, e, c) && !s.chans[c].parked
    case RecheckHead(c) => Owned(s, e, c) && !s.chans[c].parked && s.chans[c].get != Put(s, c)
    case Asleep => true
    case _ => false
  }

  lemma {:induction false} GoesDown(s: State, e: nat) returns (t: State)
    requires Sound(s) && e < |s.engines| && (forall c: nat :: Nothing(s, e, c)) && !BellRung(s, e)
    requires GoingDown(s, e)
    ensures Runs.Reaches(s, t, Prompt) && Sound(t) && t.chans == s.chans && |t.engines| == |s.engines|
    ensures t.engines[e].phase == Asleep
    decreases DownAhead(s.engines[e].phase, |s.chans|)
  {
    if s.engines[e].phase == Asleep {
      t := s;
      Runs.ReachesItself(t, Prompt);
    } else {
      var s' := SleepTakes(s, e);
      forall c: nat
        ensures Nothing(s', e, c)
      {
        assert Nothing(s, e, c);
      }
      var p := s.engines[e].phase;
      assert p.RecheckPut? || p.RecheckHead? ==> Nothing(s, e, p.c);
      t := GoesDown(s', e);
      Runs.ReachesOn(s, s', t, Prompt);
    }
  }
}
