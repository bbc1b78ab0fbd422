/**
  An engine's runlist (`Device::run`): which channel it visits, how long a visit lasts, and the priorities
  that decide both.
*/
module Runlist {
  import opened Base
  import opened Modular
  import Runs
  import P = Priority

  /** What the engine sees of a channel. `blocked`: the head is a WAIT whose fence has not passed. Smaller
      priorities go first. */
  datatype Channel = Channel(priority: int, parked: bool, get: nat, put: nat, blocked: bool)

  predicate Runnable(k: Channel) {
    !k.parked && k.get < k.put && !k.blocked
  }

  /** `c` can run, and nothing that can run has a better priority. */
  ghost predicate Best(chans: seq<Channel>, c: nat) {
    && c < |chans| && Runnable(chans[c])
    && forall d :: 0 <= d < |chans| && Runnable(chans[d]) ==> chans[c].priority <= chans[d].priority
  }

  /** The choice of the scan: the first of the best channels, counted from `rr`. */
  ghost predicate Chosen(chans: seq<Channel>, rr: nat, c: nat) {
    && rr < |chans| && Best(chans, c)
    && forall i :: 0 <= i < Distance(rr, c, |chans|) ==>
         var d := Place(rr, i, |chans|); Runnable(chans[d]) ==> chans[c].priority < chans[d].priority
  }

  /** The scan of the runlist. `chans[c]` is what the scan reads of channel `c`, each at its own moment. */
  method Choose(chans: seq<Channel>, rr: nat) returns (chosen: Option<nat>)
    requires rr < |chans|
    ensures chosen.None? <==> forall c :: 0 <= c < |chans| ==> !Runnable(chans[c])
    ensures chosen.Some? ==> Chosen(chans, rr, chosen.value)
  {
    chosen := None;
    ghost var at := 0;
    for i := 0 to |chans|
      invariant chosen.None? ==> forall j :: 0 <= j < i ==> !Runnable(chans[Place(rr, j, |chans|)])
      invariant chosen.Some? ==> at < i && chosen.value == Place(rr, at, |chans|) && Runnable(chans[chosen.value])
      invariant chosen.Some? ==> forall j :: 0 <= j < i && Runnable(chans[Place(rr, j, |chans|)]) ==>
                  chans[chosen.value].priority <= chans[Place(rr, j, |chans|)].priority
      invariant chosen.Some? ==> forall j :: 0 <= j < at && Runnable(chans[Place(rr, j, |chans|)]) ==>
                  chans[chosen.value].priority < chans[Place(rr, j, |chans|)].priority
    {
      var c := (rr + i) % |chans|;
      if Runnable(chans[c]) && (chosen.None? || chans[c].priority < chans[chosen.value].priority) {
        chosen, at := Some(c), i;
      }
    }
    forall c | 0 <= c < |chans|
      ensures chosen.None? ==> !Runnable(chans[c])
      ensures chosen.Some? && Runnable(chans[c]) ==> chans[chosen.value].priority <= chans[c].priority
    {
      var j := Distance(rr, c, |chans|);
      assert Place(rr, j, |chans|) == c;
    }
    if chosen.Some? {
      DistanceIs(rr, at, |chans|);
    }
  }

  // ---------------------------------------------------------------------------------------------
  // Fairness
  // ---------------------------------------------------------------------------------------------

  /** What the scans see from visit to visit, where each starts, and which channel each takes. Between two
      visits the channels may change in any way. */
  datatype Visits = Visits(seen: seq<seq<Channel>>, rr: seq<nat>, chosen: seq<nat>)

  ghost predicate VisitOk(v: Visits, n: nat, k: nat)
    requires n > 0 && k < |v.seen| && k < |v.rr| && k < |v.chosen|
  {
    && |v.seen[k]| == n && Chosen(v.seen[k], v.rr[k], v.chosen[k])
    && (k + 1 < |v.rr| ==> v.rr[k + 1] == (v.chosen[k] + 1) % n)
  }

  ghost predicate AreVisits(v: Visits, n: nat) {
    n > 0 && |v.seen| == |v.rr| == |v.chosen| && forall k: nat :: k < |v.seen| ==> VisitOk(v, n, k)
  }

  /** While `c` waits, each visit to an equal brings the start of the scan closer to it. */
  lemma VisitComesCloser(chans: seq<Channel>, rr: nat, chosen: nat, c: nat)
    requires Chosen(chans, rr, chosen) && Best(chans, c) && chosen != c
    ensures var n := |chans|;
            Distance((chosen + 1) % n, c, n) < Distance(rr, c, n)
  {
    var n := |chans|;
    var i, d := Distance(rr, chosen, n), Distance(rr, c, n);
    assert Place(rr, d, n) == c && Place(rr, i, n) == chosen;
    assert i < d;
    NextStart(rr, i, n);
    var rr' := (chosen + 1) % n;
    assert Place(rr', d - i - 1, n) == c by {
      ShiftPlace(rr, i + 1, d - i - 1, n);
    }
    DistanceIs(rr', d - i - 1, n);
  }

  lemma {:induction false} VisitedWithin(v: Visits, n: nat, c: nat, k: nat)
    requires AreVisits(v, n) && c < n && k < |v.seen|
    requires forall j: nat :: j < |v.seen| ==> Best(v.seen[j], c)
    requires v.rr[k] < n && k + Distance(v.rr[k], c, n) < |v.seen|
    ensures exists j: nat :: k <= j <= k + Distance(v.rr[k], c, n) && v.chosen[j] == c
    decreases |v.seen| - k
  {
    assert VisitOk(v, n, k) && Best(v.seen[k], c);
    if v.chosen[k] != c {
      VisitComesCloser(v.seen[k], v.rr[k], v.chosen[k], c);
      assert VisitOk(v, n, k + 1);
      VisitedWithin(v, n, c, k + 1);
    }
  }

  /** Fairness: a channel that stays runnable, with no better rival, is visited within as many visits as
      there are channels. */
  lemma Fair(v: Visits, n: nat, c: nat)
    requires AreVisits(v, n) && c < n && |v.seen| == n
    requires forall j: nat :: j < |v.seen| ==> Best(v.seen[j], c)
    ensures exists j: nat :: j < n && v.chosen[j] == c
  {
    assert VisitOk(v, n, 0);
    VisitedWithin(v, n, c, 0);
  }

  // ---------------------------------------------------------------------------------------------
  // One visit
  // ---------------------------------------------------------------------------------------------

  /** A channel other than `c` can run and has a better priority, or the same one. */
  ghost predicate Rival(chans: seq<Channel>, c: nat, d: nat, better: bool) {
    && c < |chans| && d < |chans| && d != c && Runnable(chans[d])
    && if better then chans[d].priority < chans[c].priority else chans[d].priority == chans[c].priority
  }

  /** What an engine sees: its channels and mixed_priority_. `setting`: a set_channel_priority is under way. */
  datatype World = World(chans: seq<Channel>, mixed: bool, setting: bool)

  /** Priorities are in range, and outside set_channel_priority mixed_priority_ is false only while every channel
      has the default priority. */
  ghost predicate MixedOk(w: World) {
    && (forall c :: 0 <= c < |w.chans| ==> P.GREATEST <= w.chans[c].priority <= P.LEAST)
    && (!w.mixed && !w.setting ==> forall c :: 0 <= c < |w.chans| ==> w.chans[c].priority == P.LEAST)
  }

  /** The priorities of this engine's channels, which start at number `from` of all channels. */
  ghost predicate Shows(w: World, s: P.State, from: nat) {
    && from + |w.chans| <= |s.priorities| && w.mixed == s.mixed && (w.setting <==> s.calls != map[])
    && forall c :: 0 <= c < |w.chans| ==> w.chans[c].priority == s.priorities[from + c]
  }

  /** Every run of set_channel_priority calls one at a time shows engines such a state, at every moment. */
  lemma SerialShowsMixedOk(run: seq<P.State>, acts: seq<P.Action>, k: nat, w: World, from: nat)
    requires Runs.IsRun(run, acts, P.Init, P.Serial) && k < |run| && Shows(w, run[k], from)
    requires forall c :: 0 <= c < |w.chans| ==> P.GREATEST <= w.chans[c].priority <= P.LEAST
    ensures MixedOk(w)
  {
    P.SerialAgrees(run, acts, k);
  }

  /** Skipping the scan for a better rival is sound, except while set_channel_priority is between its stores. */
  lemma SkipIsSound(run: seq<P.State>, acts: seq<P.Action>, k: nat, w: World, from: nat, c: nat, d: nat)
    requires Runs.IsRun(run, acts, P.Init, P.Serial) && k < |run| && Shows(w, run[k], from) && !w.mixed
             && Rival(w.chans, c, d, true)
    requires forall x :: 0 <= x < |w.chans| ==> P.GREATEST <= w.chans[x].priority <= P.LEAST
    ensures exists p :: run[k].calls.Keys == {p} && run[k].calls[p].stage != P.Store
  {
    P.SerialAgrees(run, acts, k);
    assert w.chans[d].priority != P.LEAST && run[k].priorities[from + d] != P.LEAST;
  }

  /** What producers, the fault thread, other engines and set_channel_priority do during a visit to `c`:
      its GET and its park flag are the engine's, its PUT only grows, and a head whose fence has passed
      stays ready. */
  ghost predicate Meanwhile(w: World, w': World, c: nat) {
    && |w'.chans| == |w.chans| && MixedOk(w') && c < |w.chans|
    && w'.chans[c].get == w.chans[c].get && w'.chans[c].parked == w.chans[c].parked && w.chans[c].put <= w'.chans[c].put
    && (w'.chans[c].blocked ==> w.chans[c].blocked)
  }

  ghost predicate Environment(env: (nat, World) -> World, c: nat) {
    forall i: nat, w: World :: MixedOk(w) && c < |w.chans| ==> Meanwhile(w, env(i, w), c)
  }

  /** What becomes of a command: a fault, or retirement, after which the next head may be a WAIT. */
  datatype Outcome = Fault | Retires(nextBlocked: bool)

  /** The one exception: a set_channel_priority is under way and has not stored the flag yet. */
  ghost predicate Missable(w: World) {
    w.setting && !w.mixed
  }

  datatype Reason = Parked | Drained | HeadBlocked | Preempted | SliceOver | OutOfSteps

  class Engine {
    var w: World
    /** What the engine saw at each command boundary at which the visit went on. */
    ghost var passed: seq<World>

    method OtherRunnable(self: nat, better: bool) returns (r: bool)
      requires self < |w.chans|
      ensures r <==> exists d: nat :: Rival(w.chans, self, d, better)
    {
      for c := 0 to |w.chans|
        invariant forall d: nat :: d < c ==> !Rival(w.chans, self, d, better)
      {
        if c != self && Runnable(w.chans[c]) &&
           (if better then w.chans[c].priority < w.chans[self].priority
               else w.chans[c].priority == w.chans[self].priority) {
          assert Rival(w.chans, self, c, better);
          return true;
        }
      }
      r := false;
    }

    /** True when the visit has to end at this boundary, and why. */
    method Boundary(c: nat, sliceDue: bool) returns (reason: Option<Reason>)
      requires c < |w.chans| && MixedOk(w)
      ensures reason == Some(Preempted) ==> exists d: nat :: Rival(w.chans, c, d, true)
      ensures reason == Some(SliceOver) ==> sliceDue && exists d: nat :: Rival(w.chans, c, d, false)
      ensures reason == None || reason == Some(Preempted) || reason == Some(SliceOver)
      ensures reason == None ==> forall d: nat :: Rival(w.chans, c, d, true) ==> Missable(w)
      ensures reason == None && sliceDue ==> forall d: nat :: !Rival(w.chans, c, d, false)
    {
      if w.mixed {
        var better := OtherRunnable(c, true);
        if better {
          return Some(Preempted);
        }
      }
      if sliceDue {
        var equal := OtherRunnable(c, false);
        if equal {
          return Some(SliceOver);
        }
      }
      reason := None;
    }

    /** Executes the head: a fault parks the channel, and otherwise the command retires and time passes. */
    method RunHead(c: nat, i: nat, env: (nat, World) -> World, outcome: Outcome) returns (parked: bool)
      requires c < |w.chans| && MixedOk(w) && Environment(env, c)
      requires w.chans[c].get < w.chans[c].put && !w.chans[c].parked
      modifies this`w
      ensures c < |w.chans| == |old(w).chans| && MixedOk(w) && (parked <==> outcome.Fault?)
              && w.chans[c].parked == parked
      ensures w.chans[c].get == old(w).chans[c].get + (if parked then 0 else 1) <= w.chans[c].put
    {
      var k := w.chans[c];
      match outcome {
        case Fault =>
          w := w.(chans := w.chans[c := k.(parked := true)]);
          parked := true;
        case Retires(nextBlocked) =>
          w := w.(chans := w.chans[c := k.(get := k.get + 1, blocked := nextBlocked)]);
          w := env(i + 1, w);
          parked := false;
      }
    }

    /**
      One visit: runs the channel's commands until it parks, is empty or blocked, a better channel can run,
      or its slice is over and an equal one can. It always retires a command or parks the channel.
    */
    method Visit(c: nat, steps: nat, env: (nat, World) -> World, execute: nat -> Outcome, sliceDue: nat -> bool)
        returns (retired: nat, reason: Reason)
      requires c < |w.chans| && Runnable(w.chans[c]) && MixedOk(w) && Environment(env, c) && steps > 0
      modifies this
      ensures |w.chans| == |old(w).chans| && MixedOk(w)
      ensures retired > 0 || (reason == Parked && w.chans[c].parked)
      ensures w.chans[c].get == old(w).chans[c].get + retired && w.chans[c].get <= w.chans[c].put
      ensures reason == Parked <==> w.chans[c].parked
      ensures reason == Drained ==> w.chans[c].get == w.chans[c].put
      ensures reason == HeadBlocked ==> w.chans[c].blocked
      ensures reason == Preempted ==> exists d: nat :: Rival(w.chans, c, d, true)
      ensures reason == SliceOver ==>
              retired > 0 && sliceDue(retired - 1) && exists d: nat :: Rival(w.chans, c, d, false)
      ensures reason == OutOfSteps ==> retired == steps
      ensures retired <= steps && (forall i :: 0 <= i < retired ==> execute(i).Retires?)
      ensures reason == Parked ==> retired < steps && execute(retired).Fault?
      ensures forall k, d: nat :: 0 <= k < |passed| && Rival(passed[k].chans, c, d, true) ==> Missable(passed[k])
    {
      passed, retired := [], 0;
      w := env(0, w);
      for i := 0 to steps
        invariant c < |w.chans| == |old(w).chans| && MixedOk(w)
        invariant w.chans[c].get == old(w).chans[c].get + retired && w.chans[c].get < w.chans[c].put
                  && !w.chans[c].parked
        invariant retired == 0 ==> !w.chans[c].blocked
        invariant retired == i && forall j :: 0 <= j < i ==> execute(j).Retires?
        invariant forall k, d: nat :: 0 <= k < |passed| && Rival(passed[k].chans, c, d, true) ==> Missable(passed[k])
      {
        if w.chans[c].blocked {
          return retired, HeadBlocked;
        }
        var parked := RunHead(c, i, env, execute(i));
        if parked {
          return retired, Parked;
        }
        retired := retired + 1;
        if w.chans[c].get == w.chans[c].put {
          return retired, Drained;
        }
        var stop := Boundary(c, sliceDue(i));
        if stop.Some? {
          return retired, stop.value;
        }
        passed := passed + [w];
      }
      reason := OutOfSteps;
    }

    /** set_channel_priority, on its own: refuses what is out of range; else stores the priority, scans, and
        stores the flag. */
    method SetPriority(c: nat, priority: int) returns (ok: bool)
      requires MixedOk(w) && !w.setting
      modifies this`w
      ensures MixedOk(w) && !w.setting
      ensures ok <==> c < |old(w).chans| && P.GREATEST <= priority <= P.LEAST
      ensures w.chans == if ok then old(w).chans[c := old(w).chans[c].(priority := priority)] else old(w).chans
      ensures ok ==> (w.mixed <==> exists d :: 0 <= d < |w.chans| && w.chans[d].priority != P.LEAST)
    {
      if c >= |w.chans| || priority > P.LEAST || priority < P.GREATEST {
        return false;
      }
      w := w.(chans := w.chans[c := w.chans[c].(priority := priority)], setting := true);
      assert MixedOk(w);
      var mixed := false;
      for d := 0 to |w.chans|
        invariant w == old(w).(chans := w.chans, setting := true)
                  && w.chans == old(w).chans[c := old(w).chans[c].(priority := priority)]
        invariant mixed <==> exists x :: 0 <= x < d && w.chans[x].priority != P.LEAST
      {
        if w.chans[d].priority != P.LEAST {
          mixed := true;
        }
      }
      w := w.(mixed := mixed, setting := false);
      ok := true;
    }
  }
}
