/**
  Many pageable copies at once on one pool of staging slots. A D2H copy keeps slots while it waits for another one.
  This is about how many there are: which slots they are, and the bytes in them, is in Staging.
*/
module Headroom {
  import Runs

  /** D2H: chunks 0..done-1 have been delivered, done..issued-1 are in slots. `acquiring`: it looks for a slot. */
  datatype Copy =
    | Idle
    | H2D(left: nat, holding: bool)
    | D2H(chunks: nat, issued: nat, done: nat, acquiring: bool)

  /** One entry of `copies` per thread. */
  datatype State = State(slots: nat, copies: seq<Copy>)

  /** `Release`: the fence has passed, and the slot goes back. */
  datatype Action = Begin(p: nat, copy: Copy) | Acquire(p: nat) | Release(p: nat)

  /** How many chunks a D2H copy keeps in flight: half of the slots are left to other threads. */
  function Depth(slots: nat): (r: nat) {
    if slots / 2 < 1 then 1 else slots / 2
  }

  function Held(c: Copy): (r: int) {
    match c
    case Idle => 0
    case H2D(_, holding) => if holding then 1 else 0
    case D2H(_, issued, done, _) => issued - done
  }

  function HeldBy(copies: seq<Copy>): (r: int) {
    if copies == [] then 0 else Held(copies[0]) + HeldBy(copies[1..])
  }

  /** A copy that starts. One of no bytes takes no slot, and is not one. */
  ghost predicate Starts(c: Copy) {
    match c
    case Idle => false
    case H2D(left, holding) => left > 0 && !holding
    case D2H(chunks, issued, done, acquiring) => chunks > 0 && issued == 0 && done == 0 && acquiring
  }

  predicate Seeks(c: Copy) {
    (c.H2D? && !c.holding) || (c.D2H? && c.acquiring)
  }

  function Acquired(c: Copy, depth: nat): (r: Copy)
    requires Seeks(c)
  {
    match c
    case H2D(left, _) => H2D(left, true)
    case D2H(chunks, issued, done, _) => D2H(chunks, issued + 1, done, issued + 1 < depth && issued + 1 < chunks)
  }

  predicate Holds(c: Copy) {
    (c.H2D? && c.holding) || (c.D2H? && !c.acquiring && c.done < c.issued)
  }

  function Released(c: Copy): (r: Copy)
    requires Holds(c)
  {
    match c
    case H2D(left, _) => if left <= 1 then Idle else H2D(left - 1, false)
    case D2H(chunks, issued, done, _) =>
      if done + 1 >= chunks then Idle
      else D2H(chunks, issued, done + 1, issued < chunks)
  }

  function Put(s: State, p: nat, c: Copy): (r: State)
    requires p < |s.copies|
  {
    s.(copies := s.copies[p := c])
  }

  ghost predicate Does(s: State, s': State, a: Action) {
    && a.p < |s.copies|
    && match a
       case Begin(p, copy) => s.copies[p] == Idle && Starts(copy) && s' == Put(s, p, copy)
       case Acquire(p) =>
         && Seeks(s.copies[p]) && HeldBy(s.copies) < s.slots
         && s' == Put(s, p, Acquired(s.copies[p], Depth(s.slots)))
       case Release(p) => Holds(s.copies[p]) && s' == Put(s, p, Released(s.copies[p]))
  }

  /** A step of a copy that is under way. */
  ghost predicate Goes(s: State, s': State, a: Action) {
    Does(s, s', a) && !a.Begin?
  }

  ghost predicate Quiet(s: State) {
    forall p :: 0 <= p < |s.copies| ==> s.copies[p] == Idle
  }

  /** Some copy is under way, and none can go on: every slot is taken, and whoever has one looks for another. */
  ghost predicate Jammed(s: State) {
    !Quiet(s) && forall s', a :: !Goes(s, s', a)
  }

  // ---------------------------------------------------------------------------------------------
  // What every step keeps
  // ---------------------------------------------------------------------------------------------

  ghost predicate CopyOk(c: Copy, depth: nat) {
    match c
    case Idle => true
    case H2D(left, _) => left > 0
    case D2H(chunks, issued, done, acquiring) =>
      && done <= issued <= chunks && done < chunks && issued - done <= depth
      && if acquiring then issued < chunks && issued - done < depth else done < issued
  }

  ghost predicate Inv(s: State) {
    && s.slots > 0 && 0 <= HeldBy(s.copies) <= s.slots
    && forall p :: 0 <= p < |s.copies| ==> CopyOk(s.copies[p], Depth(s.slots))
  }

  lemma {:induction false} HeldByPut(copies: seq<Copy>, p: nat, c: Copy)
    requires p < |copies|
    ensures HeldBy(copies[p := c]) == HeldBy(copies) - Held(copies[p]) + Held(c)
  {
    if p > 0 {
      HeldByPut(copies[1..], p - 1, c);
      assert copies[p := c][1..] == copies[1..][p - 1 := c];
    }
  }

  lemma {:induction false} HeldByAtLeast(copies: seq<Copy>, depth: nat)
    requires forall p :: 0 <= p < |copies| ==> CopyOk(copies[p], depth)
    ensures HeldBy(copies) >= 0 && forall p :: 0 <= p < |copies| ==> HeldBy(copies) >= Held(copies[p]) >= 0
  {
    if copies != [] {
      HeldByAtLeast(copies[1..], depth);
      assert forall p :: 0 < p < |copies| ==> copies[p] == copies[1..][p - 1];
    }
  }

  /** No slot is given out twice, and no D2H copy has more than its share. */
  lemma StepKeepsInv(s: State, s': State, a: Action)
    requires Inv(s) && Does(s, s', a)
    ensures Inv(s')
  {
    HeldByPut(s.copies, a.p, s'.copies[a.p]);
    HeldByAtLeast(s'.copies, Depth(s.slots));
  }

  // ---------------------------------------------------------------------------------------------
  // No jam
  // ---------------------------------------------------------------------------------------------

  /** D2H copies under way. */
  function Readers(copies: seq<Copy>): (n: nat) {
    if copies == [] then 0 else (if copies[0].D2H? then 1 else 0) + Readers(copies[1..])
  }

  /** Copies that all look for a slot have at most one less than the depth each. */
  lemma {:induction false} SeekersHold(copies: seq<Copy>, depth: nat, n: nat)
    requires n == Readers(copies) && depth > 0
    requires forall p :: 0 <= p < |copies| ==> CopyOk(copies[p], depth) && (copies[p] != Idle ==> Seeks(copies[p]))
    ensures HeldBy(copies) <= n * (depth - 1)
  {
    if copies != [] {
      var m := Readers(copies[1..]);
      SeekersHold(copies[1..], depth, m);
      if copies[0].D2H? {
        assert n * (depth - 1) == m * (depth - 1) + (depth - 1);
      }
    }
  }

  /** A copy that does not look for a slot can go on. */
  lemma EachSeeksOrSteps(s: State, p: nat)
    requires Inv(s) && p < |s.copies| && s.copies[p] != Idle
    ensures Seeks(s.copies[p]) || (Holds(s.copies[p]) && Goes(s, Put(s, p, Released(s.copies[p])), Release(p)))
  {
    assert CopyOk(s.copies[p], Depth(s.slots));
  }

  /** A jam is: every slot is taken, and every copy looks for one. */
  lemma JammedMeans(s: State)
    requires Inv(s)
    ensures Jammed(s) <==>
            HeldBy(s.copies) == s.slots && forall p :: 0 <= p < |s.copies| && s.copies[p] != Idle ==> Seeks(s.copies[p])
  {
    if Jammed(s) {
      forall p | 0 <= p < |s.copies| && s.copies[p] != Idle
        ensures Seeks(s.copies[p])
      {
        EachSeeksOrSteps(s, p);
      }
      var p :| 0 <= p < |s.copies| && s.copies[p] != Idle;
      assert !Goes(s, Put(s, p, Acquired(s.copies[p], Depth(s.slots))), Acquire(p));
    } else if HeldBy(s.copies) == s.slots {
      QuietHoldsNone(s);
      var s', a :| Goes(s, s', a);
      assert Holds(s.copies[a.p]);
    }
  }

  lemma QuietHoldsNone(s: State)
    ensures Quiet(s) ==> HeldBy(s.copies) == 0
  {
    if Quiet(s) {
      SeekersHold(s.copies, 1, Readers(s.copies));
      HeldByAtLeast(s.copies, 1);
    }
  }

  /** The pool does not jam while the D2H copies under way, with one slot less than the depth each, leave a slot. */
  lemma NoJam(s: State)
    requires Inv(s) && Readers(s.copies) * (Depth(s.slots) - 1) < s.slots
    ensures !Jammed(s)
  {
    JammedMeans(s);
    if Jammed(s) {
      SeekersHold(s.copies, Depth(s.slots), Readers(s.copies));
    }
  }

  /** A jam is for good: all that can happen is that more copies join it. */
  lemma JamStays(s: State, s': State, a: Action)
    requires Inv(s) && Jammed(s) && Does(s, s', a)
    ensures a.Begin? && Jammed(s')
  {
    assert !Goes(s, s', a);
    StepKeepsInv(s, s', a);
    HeldByPut(s.copies, a.p, s'.copies[a.p]);
    JammedMeans(s);
    JammedMeans(s');
  }

  // ---------------------------------------------------------------------------------------------
  // Every copy ends
  // ---------------------------------------------------------------------------------------------

  function Work(c: Copy): (n: int) {
    match c
    case Idle => 0
    case H2D(left, holding) => 2 * left - if holding then 1 else 0
    case D2H(chunks, issued, done, _) => (chunks - issued) + (chunks - done)
  }

  function AllWork(copies: seq<Copy>): (n: int) {
    if copies == [] then 0 else Work(copies[0]) + AllWork(copies[1..])
  }

  lemma {:induction false} AllWorkPut(copies: seq<Copy>, p: nat, c: Copy)
    requires p < |copies|
    ensures AllWork(copies[p := c]) == AllWork(copies) - Work(copies[p]) + Work(c)
    ensures Readers(copies[p := c]) == Readers(copies) - (if copies[p].D2H? then 1 else 0) + if c.D2H? then 1 else 0
  {
    if p > 0 {
      AllWorkPut(copies[1..], p - 1, c);
      assert copies[p := c][1..] == copies[1..][p - 1 := c];
    }
  }

  lemma {:induction false} WorkLeft(copies: seq<Copy>, depth: nat)
    requires forall p :: 0 <= p < |copies| ==> CopyOk(copies[p], depth)
    ensures AllWork(copies) >= 0
    ensures AllWork(copies) == 0 <==> forall p :: 0 <= p < |copies| ==> copies[p] == Idle
  {
    if copies != [] {
      WorkLeft(copies[1..], depth);
      assert forall p :: 0 < p < |copies| ==> copies[p] == copies[1..][p - 1];
      assert CopyOk(copies[0], depth);
      assert (forall p :: 0 <= p < |copies| ==> copies[p] == Idle) ==>
          forall p :: 0 <= p < |copies[1..]| ==> copies[1..][p] == Idle;
    }
  }

  /** Each step of a copy is one unit of work less. */
  lemma StepWorks(s: State, s': State, a: Action)
    requires Inv(s) && Goes(s, s', a)
    ensures AllWork(s'.copies) == AllWork(s.copies) - 1 && Readers(s'.copies) <= Readers(s.copies)
            && s'.slots == s.slots
  {
    assert CopyOk(s.copies[a.p], Depth(s.slots));
    AllWorkPut(s.copies, a.p, s'.copies[a.p]);
  }

  /** Along a path the work left counts down, whatever the order of steps. */
  lemma {:induction false} CountsDown(run: seq<State>, acts: seq<Action>, k: nat)
    requires Runs.IsPath(run, acts, Goes) && k < |run| && Inv(run[0])
    ensures Inv(run[k]) && AllWork(run[k].copies) == AllWork(run[0].copies) - k
    ensures Readers(run[k].copies) <= Readers(run[0].copies) && run[k].slots == run[0].slots
  {
    if k > 0 {
      CountsDown(run, acts, k - 1);
      assert Runs.StepAt(run, acts, Goes, k - 1);
      StepWorks(run[k - 1], run[k], acts[k - 1]);
      StepKeepsInv(run[k - 1], run[k], acts[k - 1]);
    }
  }

  lemma Fewer(m: nat, n: nat, d: nat)
    requires m <= n
    ensures m * d <= n * d
  {
  }

  /** Within the bound, every order of steps ends with all copies done, after exactly as many steps as there is work:
      no path is longer, and one that is shorter can go on. */
  lemma EveryOrderEnds(run: seq<State>, acts: seq<Action>)
    requires Runs.IsPath(run, acts, Goes) && Inv(run[0])
             && Readers(run[0].copies) * (Depth(run[0].slots) - 1) < run[0].slots
    ensures |acts| <= AllWork(run[0].copies)
    ensures |acts| == AllWork(run[0].copies) <==> Quiet(run[|acts|])
    ensures |acts| < AllWork(run[0].copies) ==> exists s', a :: Goes(run[|acts|], s', a)
  {
    var s, t := run[0], run[|acts|];
    CountsDown(run, acts, |acts|);
    WorkLeft(t.copies, Depth(t.slots));
    Fewer(Readers(t.copies), Readers(s.copies), Depth(s.slots) - 1);
    NoJam(t);
  }

  // ---------------------------------------------------------------------------------------------
  // A jam
  // ---------------------------------------------------------------------------------------------

  ghost predicate Init(s: State) {
    s.slots > 0 && Quiet(s)
  }

  lemma InitKeeps(s: State)
    requires Init(s)
    ensures Inv(s)
  {
    QuietHoldsNone(s);
  }

  /** `k` threads have started a D2H copy of `depth` chunks, and have issued some, but not all. */
  ghost predicate Filling(s: State, k: nat) {
    && s.slots > 0 && k <= |s.copies| && 0 <= HeldBy(s.copies) <= s.slots
    && (forall p :: 0 <= p < k ==> FillingAt(s.copies[p], Depth(s.slots)))
    && forall p :: k <= p < |s.copies| ==> s.copies[p] == Idle
  }

  ghost predicate FillingAt(c: Copy, depth: nat) {
    c.D2H? && c.chunks == depth && c.done == 0 && c.issued < depth && c.acquiring
  }

  lemma OneStarts(s: State, k: nat) returns (c: Copy, s': State)
    requires Filling(s, k) && k < |s.copies|
    ensures Does(s, s', Begin(k, c)) && Filling(s', k + 1) && s'.slots == s.slots && |s'.copies| == |s.copies|
  {
    c := D2H(Depth(s.slots), 0, 0, true);
    s' := Put(s, k, c);
    HeldByPut(s.copies, k, c);
  }

  lemma {:induction false} AllStart(s: State, k: nat) returns (t: State)
    requires Filling(s, k)
    ensures Runs.Reaches(s, t, Does) && Filling(t, |t.copies|) && t.slots == s.slots && |t.copies| == |s.copies|
    decreases |s.copies| - k
  {
    if k == |s.copies| {
      t := s;
      Runs.ReachesItself(t, Does);
    } else {
      var c, s' := OneStarts(s, k);
      t := AllStart(s', k + 1);
      Runs.StepReaches(s, Begin(k, c), s', t, Does);
    }
  }

  /** While slots are free, one of enough copies has not come to its last chunk. */
  lemma {:induction false} OneHasLess(copies: seq<Copy>, depth: nat, n: nat) returns (p: nat)
    requires n == |copies| && depth > 0 && HeldBy(copies) < n * (depth - 1)
    ensures p < |copies| && Held(copies[p]) < depth - 1
  {
    if Held(copies[0]) < depth - 1 {
      p := 0;
    } else {
      assert n * (depth - 1) == (n - 1) * (depth - 1) + (depth - 1);
      p := OneHasLess(copies[1..], depth, n - 1);
      p := p + 1;
    }
  }

  lemma {:induction false} FillUp(s: State, n: nat) returns (t: State)
    requires n == |s.copies| && Filling(s, n) && n * (Depth(s.slots) - 1) >= s.slots
    ensures Runs.Reaches(s, t, Does) && Filling(t, |t.copies|) && HeldBy(t.copies) == t.slots && |t.copies| == n
            && t.slots == s.slots
    decreases s.slots - HeldBy(s.copies)
  {
    if HeldBy(s.copies) == s.slots {
      t := s;
      Runs.ReachesItself(t, Does);
    } else {
      var p := OneHasLess(s.copies, Depth(s.slots), n);
      assert FillingAt(s.copies[p], Depth(s.slots));
      var c := Acquired(s.copies[p], Depth(s.slots));
      var s' := Put(s, p, c);
      HeldByPut(s.copies, p, c);
      t := FillUp(s', n);
      Runs.StepReaches(s, Acquire(p), s', t, Does);
    }
  }

  /** With more D2H copies than that there is a run from an idle pool into a jam. */
  lemma Jams(s: State) returns (t: State)
    requires Init(s) && |s.copies| * (Depth(s.slots) - 1) >= s.slots
    ensures Runs.Reaches(s, t, Does) && Jammed(t)
  {
    InitKeeps(s);
    var u := AllStart(s, 0);
    t := FillUp(u, |u.copies|);
    Runs.ReachesOn(s, u, t, Does);
    assert Inv(t) by {
      forall p | 0 <= p < |t.copies|
        ensures CopyOk(t.copies[p], Depth(t.slots))
      {
        assert FillingAt(t.copies[p], Depth(t.slots));
      }
    }
    JammedMeans(t);
  }

  ghost predicate Sized(s: State, slots: nat, threads: nat) {
    s.slots == slots && |s.copies| == threads && Inv(s)
  }

  lemma {:induction false} ReadersAtMost(copies: seq<Copy>)
    ensures Readers(copies) <= |copies|
  {
    if copies != [] {
      ReadersAtMost(copies[1..]);
    }
  }

  /** Exactly when a pool cannot jam, for every number of slots and of threads that copy: when the threads, with one
      slot less than the depth each, do not use up the slots. */
  lemma NeverJamsIff(s: State)
    requires Init(s)
    ensures |s.copies| * (Depth(s.slots) - 1) < s.slots <==> forall t :: Runs.Reaches(s, t, Does) ==> !Jammed(t)
  {
    var n, d := |s.copies|, Depth(s.slots) - 1;
    if n * d < s.slots {
      forall t | Runs.Reaches(s, t, Does)
        ensures !Jammed(t)
      {
        InitKeeps(s);
        var inv := (x: State) => Sized(x, s.slots, n);
        forall x, x', a | inv(x) && Does(x, x', a)
          ensures inv(x')
        {
          StepKeepsInv(x, x', a);
        }
        Runs.KeepReaching(s, t, Does, inv);
        ReadersAtMost(t.copies);
        Fewer(Readers(t.copies), n, d);
        NoJam(t);
      }
    } else {
      var t := Jams(s);
    }
  }

  /** Two threads never jam, whatever the number of slots. With the default of 8 slots three can. */
  lemma ThreeJamTheDefault(s: State)
    requires Init(s)
    ensures |s.copies| <= 2 ==> forall t :: Runs.Reaches(s, t, Does) ==> !Jammed(t)
    ensures |s.copies| >= 3 && s.slots == 8 ==> exists t :: Runs.Reaches(s, t, Does) && Jammed(t)
  {
    NeverJamsIff(s);
    var n, d := |s.copies|, Depth(s.slots) - 1;
    if n <= 2 {
      Fewer(n, 2, d);
    } else {
      Fewer(3, n, d);
    }
  }
}
