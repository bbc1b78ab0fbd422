/**
  set_channel_priority, access by access, and any number of calls at once. It stores the priority, scans all
  priorities, and stores `mixed_priority_`. While that flag is false, engines do not look for a better channel.
*/
module Priority {
  import opened Base
  import Runs

  const LEAST: int := 0
  const GREATEST: int := -7

  datatype Stage = Store | Scan(i: nat, mixed: bool) | StoreFlag(mixed: bool)

  datatype Call = Call(channel: nat, priority: int, stage: Stage)

  /** Channels are numbered across engines, in the order of the scan. */
  datatype State = State(priorities: seq<int>, mixed: bool, calls: map<nat, Call>)

  /** `Cut`: once the scan has found a priority it need not go on to the next engine. */
  datatype Action = Begin(p: nat, channel: nat, priority: int) | Step(p: nat) | Cut(p: nat)

  function Move(s: State, p: nat, stage: Stage): (r: State)
    requires p in s.calls
  {
    s.(calls := s.calls[p := s.calls[p].(stage := stage)])
  }

  ghost predicate Does(s: State, s': State, a: Action) {
    match a
    case Begin(p, c, priority) =>
      p !in s.calls && c < |s.priorities| && GREATEST <= priority <= LEAST
          && s' == s.(calls := s.calls[p := Call(c, priority, Store)])
    case Cut(p) => p in s.calls && s.calls[p].stage.Scan? && s.calls[p].stage.mixed && s' == Move(s, p, StoreFlag(true))
    case Step(p) =>
      && p in s.calls && s.calls[p].channel < |s.priorities|
      && var x := s.calls[p];
         match x.stage
         case Store => s' == Move(s, p, Scan(0, false)).(priorities := s.priorities[x.channel := x.priority])
         case Scan(i, m) =>
             s' == Move(s, p, if i < |s.priorities| then Scan(i + 1, m || s.priorities[i] != LEAST) else StoreFlag(m))
         case StoreFlag(m) => s' == s.(mixed := m, calls := s.calls - {p})
  }

  /** A step of a call that is under way. */
  ghost predicate Goes(s: State, s': State, a: Action) {
    Does(s, s', a) && !a.Begin?
  }

  /** What engines rely on when they skip the scan. */
  ghost predicate Agrees(s: State) {
    !s.mixed ==> forall j :: 0 <= j < |s.priorities| ==> s.priorities[j] == LEAST
  }

  // ---------------------------------------------------------------------------------------------
  // When a flag can get lost
  // ---------------------------------------------------------------------------------------------

  /** A call that has yet to store a priority that is not the default. */
  ghost predicate Late(x: Call) {
    x.stage == Store && x.priority != LEAST
  }

  /** A call that has yet to store the default to channel `j`. */
  ghost predicate Resets(x: Call, j: nat) {
    x.stage == Store && x.priority == LEAST && x.channel == j
  }

  /** Channel `j` has the default, or a call under way will give it the default. */
  ghost predicate CanBeDefault(s: State, j: nat) {
    j < |s.priorities| ==> s.priorities[j] == LEAST || WillReset(s, j)
  }

  ghost predicate WillReset(s: State, j: nat) {
    exists p :: p in s.calls && Resets(s.calls[p], j)
  }

  ghost predicate AllFrom(s: State, i: nat) {
    forall j: nat :: i <= j ==> CanBeDefault(s, j)
  }

  /** Every channel ends with the default once the calls under way have returned. */
  ghost predicate EndsDefault(s: State) {
    AllFrom(s, 0) && forall p :: p in s.calls ==> !Late(s.calls[p])
  }

  /** The call may still find nothing, and store false. */
  ghost predicate MayMiss(s: State, x: Call) {
    match x.stage
    case Store => x.priority == LEAST && AllFrom(s, 0)
    case Scan(i, m) => !m && AllFrom(s, i)
    case StoreFlag(m) => !m
  }

  /** A call that may store false is right to do so. A caller can tell from the priorities and the stages of the
      calls under way. */
  ghost predicate Safe(s: State) {
    forall p :: p in s.calls && MayMiss(s, s.calls[p]) ==> EndsDefault(s)
  }

  ghost predicate WellFormed(s: State) {
    forall p :: p in s.calls ==> s.calls[p].channel < |s.priorities|
  }

  /** The flag is right, or some call has still to store it. */
  ghost predicate FlagOk(s: State) {
    s.mixed || EndsDefault(s) || s.calls != map[]
  }

  ghost predicate Fine(s: State) {
    WellFormed(s) && FlagOk(s) && Safe(s)
  }

  lemma ResetsStay(s: State, s': State, a: Action, j: nat)
    requires WellFormed(s) && Goes(s, s', a)
    ensures WillReset(s', j) ==> WillReset(s, j)
    ensures WillReset(s, j) ==> WillReset(s', j) || Resets(s.calls[a.p], j)
  {
    if WillReset(s', j) {
      var q :| q in s'.calls && Resets(s'.calls[q], j);
      assert q in s.calls && Resets(s.calls[q], j);
    }
    if WillReset(s, j) {
      var q :| q in s.calls && Resets(s.calls[q], j);
      assert q != a.p ==> q in s'.calls && Resets(s'.calls[q], j);
    }
  }

  /** A step changes what channels can end with only by storing a priority that is not the default. */
  lemma DefaultsStay(s: State, s': State, a: Action, i: nat)
    requires WellFormed(s) && Goes(s, s', a)
    ensures AllFrom(s', i) ==> AllFrom(s, i)
    ensures !Late(s.calls[a.p]) ==> (AllFrom(s', i) <==> AllFrom(s, i))
  {
    forall j: nat
      ensures CanBeDefault(s', j) ==> CanBeDefault(s, j)
      ensures !Late(s.calls[a.p]) ==> (CanBeDefault(s', j) <==> CanBeDefault(s, j))
    {
      ResetsStay(s, s', a, j);
    }
  }

  lemma EndStays(s: State, s': State, a: Action)
    requires WellFormed(s) && Goes(s, s', a)
    ensures EndsDefault(s) ==> EndsDefault(s')
    ensures !Late(s.calls[a.p]) ==> (EndsDefault(s') <==> EndsDefault(s))
  {
    DefaultsStay(s, s', a, 0);
    if !Late(s.calls[a.p]) && EndsDefault(s') {
      forall q | q in s.calls
        ensures !Late(s.calls[q])
      {
        assert q != a.p ==> q in s'.calls && s'.calls[q] == s.calls[q];
      }
    }
  }

  /** Another call that may miss could miss before. */
  lemma OtherMisses(s: State, s': State, a: Action, q: nat)
    requires WellFormed(s) && Goes(s, s', a) && q in s'.calls && q != a.p && MayMiss(s', s'.calls[q])
    ensures q in s.calls && s.calls[q] == s'.calls[q] && MayMiss(s, s.calls[q])
  {
    var x := s'.calls[q];
    match x.stage
    case Store => DefaultsStay(s, s', a, 0);
    case Scan(i, _) => DefaultsStay(s, s', a, i);
    case StoreFlag(_) =>
  }

  /** A call that resets a channel may miss if all the others can have the default. */
  lemma ResetterMisses(s: State, j: nat)
    requires Safe(s) && AllFrom(s, 0)
    ensures WillReset(s, j) ==> EndsDefault(s)
  {
    if WillReset(s, j) {
      var z :| z in s.calls && Resets(s.calls[z], j);
      assert MayMiss(s, s.calls[z]);
    }
  }

  /** The call that steps may miss after it only if it, or one that resets what it stored, could before. */
  lemma OwnMisses(s: State, s': State, a: Action)
    requires Fine(s) && Goes(s, s', a) && a.p in s'.calls && MayMiss(s', s'.calls[a.p])
    ensures EndsDefault(s')
  {
    var x := s.calls[a.p];
    match x.stage
    case Store =>
      DefaultsStay(s, s', a, 0);
      assert x.priority != LEAST ==> CanBeDefault(s', x.channel) && WillReset(s', x.channel);
      ResetsStay(s, s', a, x.channel);
      ResetterMisses(s, x.channel);
      EndStays(s, s', a);
    case Scan(i, m) =>
      DefaultsStay(s, s', a, i);
      DefaultsStay(s, s', a, i + 1);
      assert AllFrom(s, i + 1) && i < |s.priorities| && s.priorities[i] == LEAST ==> AllFrom(s, i);
      assert i >= |s.priorities| ==> AllFrom(s, i);
      assert MayMiss(s, x);
      EndStays(s, s', a);
  }

  lemma StepKeepsFine(s: State, s': State, a: Action)
    requires Fine(s) && Goes(s, s', a)
    ensures Fine(s')
  {
    forall q | q in s'.calls && MayMiss(s', s'.calls[q])
      ensures EndsDefault(s')
    {
      if q == a.p {
        OwnMisses(s, s', a);
      } else {
        OtherMisses(s, s', a, q);
        EndStays(s, s', a);
      }
    }
    if s.calls[a.p].stage == StoreFlag(false) {
      assert MayMiss(s, s.calls[a.p]);
      EndStays(s, s', a);
    }
    assert !s.calls[a.p].stage.StoreFlag? ==> a.p in s'.calls;
  }

  // ---------------------------------------------------------------------------------------------
  // A way to lose it
  // ---------------------------------------------------------------------------------------------

  ghost predicate NoResets(s: State) {
    forall p :: p in s.calls ==> !(s.calls[p].stage == Store && s.calls[p].priority == LEAST)
  }

  ghost function Resetters(s: State): (r: set<nat>) {
    set p | p in s.calls && s.calls[p].stage == Store && s.calls[p].priority == LEAST
  }

  /** First every call that stores the default stores it. */
  lemma {:induction false} ResetAll(s: State, x: nat) returns (t: State)
    requires WellFormed(s) && x in s.calls && MayMiss(s, s.calls[x]) && !EndsDefault(s)
    ensures Runs.Reaches(s, t, Goes) && WellFormed(t) && NoResets(t) && x in t.calls && MayMiss(t, t.calls[x])
            && !EndsDefault(t)
    decreases |Resetters(s)|
  {
    if NoResets(s) {
      t := s;
      Runs.ReachesItself(t, Goes);
    } else {
      var z :| z in s.calls && s.calls[z].stage == Store && s.calls[z].priority == LEAST;
      var s' := Move(s, z, Scan(0, false)).(priorities := s.priorities[s.calls[z].channel := LEAST]);
      assert Resetters(s) == Resetters(s') + {z};
      EndStays(s, s', Step(z));
      ResetKeepsMiss(s, s', z, x);
      t := ResetAll(s', x);
      Runs.StepReaches(s, Step(z), s', t, Goes);
    }
  }

  lemma ResetKeepsMiss(s: State, s': State, z: nat, x: nat)
    requires WellFormed(s) && Goes(s, s', Step(z)) && s.calls[z].stage == Store && s.calls[z].priority == LEAST
    requires x in s.calls && MayMiss(s, s.calls[x])
    ensures x in s'.calls && MayMiss(s', s'.calls[x])
  {
    match s.calls[x].stage
    case Store => DefaultsStay(s, s', Step(z), 0);
    case Scan(i, _) => DefaultsStay(s, s', Step(z), i);
    case StoreFlag(_) =>
  }

  ghost function Ahead(s: State, z: nat): (n: int)
    requires z in s.calls
  {
    match s.calls[z].stage
    case Store => |s.priorities| + 3
    case Scan(i, _) => if i <= |s.priorities| then |s.priorities| + 2 - i else 1
    case StoreFlag(_) => 0
  }

  /** Then the call that may miss scans, and finds nothing. */
  lemma {:induction false} ScanOut(s: State, x: nat) returns (t: State)
    requires WellFormed(s) && NoResets(s) && x in s.calls && MayMiss(s, s.calls[x])
    ensures Runs.Reaches(s, t, Goes) && t == Move(s, x, StoreFlag(false))
    decreases Ahead(s, x)
  {
    var stage := s.calls[x].stage;
    if stage.StoreFlag? {
      t := s;
      assert s.calls[x := s.calls[x]] == s.calls;
      Runs.ReachesItself(t, Goes);
    } else {
      var i := stage.i;
      assert CanBeDefault(s, i) && !WillReset(s, i);
      var s' := Move(s, x, if i < |s.priorities| then Scan(i + 1, false) else StoreFlag(false));
      assert Goes(s, s', Step(x));
      DefaultsStay(s, s', Step(x), i + 1);
      t := ScanOut(s', x);
      Runs.StepReaches(s, Step(x), s', t, Goes);
    }
  }

  /** Some channel from `i` on has a priority that is not the default. */
  ghost predicate Raised(priorities: seq<int>, i: nat) {
    exists j :: i <= j < |priorities| && priorities[j] != LEAST
  }

  /** What a call stores in the flag if no other call moves. */
  ghost predicate Finds(s: State, x: Call) {
    match x.stage
    case Store => x.channel < |s.priorities| && Raised(s.priorities[x.channel := x.priority], 0)
    case Scan(i, m) => m || Raised(s.priorities, i)
    case StoreFlag(m) => m
  }

  /** A call runs to its end on its own. */
  lemma {:induction false} CallEnds(s: State, z: nat) returns (t: State)
    requires WellFormed(s) && z in s.calls
    ensures Runs.Reaches(s, t, Goes) && t.calls == s.calls - {z}
    ensures t.priorities == if s.calls[z].stage == Store then s.priorities[s.calls[z].channel := s.calls[z].priority]
            else s.priorities
    ensures t.mixed == Finds(s, s.calls[z])
    decreases Ahead(s, z)
  {
    var x := s.calls[z];
    var s': State;
    match x.stage
    case StoreFlag(m) =>
      t := s.(mixed := m, calls := s.calls - {z});
      Runs.ReachesItself(t, Goes);
      Runs.StepReaches(s, Step(z), t, t, Goes);
    case Store =>
      s' := Move(s, z, Scan(0, false)).(priorities := s.priorities[x.channel := x.priority]);
      t := CallEnds(s', z);
      assert s'.calls - {z} == s.calls - {z};
      Runs.StepReaches(s, Step(z), s', t, Goes);
    case Scan(i, m) =>
      s' := Move(s, z, if i < |s.priorities| then Scan(i + 1, m || s.priorities[i] != LEAST) else StoreFlag(m));
      t := CallEnds(s', z);
      assert s'.calls - {z} == s.calls - {z};
      Runs.StepReaches(s, Step(z), s', t, Goes);
  }

  /** Some channel has, or will have, a priority that is not the default. */
  ghost predicate Doomed(s: State) {
    (exists j :: 0 <= j < |s.priorities| && s.priorities[j] != LEAST) || exists p :: p in s.calls && Late(s.calls[p])
  }

  /** Then all the others return, whatever they store in the flag. */
  lemma {:induction false} OthersEnd(s: State, x: nat) returns (t: State)
    requires WellFormed(s) && NoResets(s) && Doomed(s) && x in s.calls && s.calls[x].stage == StoreFlag(false)
    ensures Runs.Reaches(s, t, Goes) && Doomed(t) && t.calls == map[x := s.calls[x]] && |t.priorities| == |s.priorities|
    decreases |s.calls|
  {
    if s.calls.Keys == {x} {
      t := s;
      assert t.calls == map[x := s.calls[x]];
      Runs.ReachesItself(t, Goes);
    } else {
      var z :| z in s.calls && z != x;
      var u := CallEnds(s, z);
      assert s.calls.Keys == u.calls.Keys + {z};
      CallEndsDoomed(s, u, z);
      t := OthersEnd(u, x);
      Runs.ReachesOn(s, u, t, Goes);
    }
  }

  lemma CallEndsDoomed(s: State, u: State, z: nat)
    requires WellFormed(s) && NoResets(s) && Doomed(s) && z in s.calls && u.calls == s.calls - {z}
    requires u.priorities == if s.calls[z].stage == Store then s.priorities[s.calls[z].channel := s.calls[z].priority]
             else s.priorities
    ensures Doomed(u)
  {
    if Late(s.calls[z]) {
      assert u.priorities[s.calls[z].channel] != LEAST;
    } else if j :| 0 <= j < |s.priorities| && s.priorities[j] != LEAST {
      assert u.priorities[j] != LEAST;
    } else {
      var p :| p in s.calls && Late(s.calls[p]);
      assert p in u.calls && Late(u.calls[p]);
    }
  }

  /** And at last it stores false. */
  lemma FlagGetsLost(s: State, x: nat) returns (t: State)
    requires WellFormed(s) && x in s.calls && MayMiss(s, s.calls[x]) && !EndsDefault(s)
    ensures Runs.Reaches(s, t, Goes) && t.calls == map[] && !Agrees(t)
  {
    var u := ResetAll(s, x);
    var v := ScanOut(u, x);
    assert Doomed(v) by {
      NotDefaultDoomed(u);
      if p :| p in u.calls && Late(u.calls[p]) {
        assert p in v.calls && Late(v.calls[p]);
      }
    }
    var w := OthersEnd(v, x);
    t := w.(mixed := false, calls := w.calls - {x});
    assert Goes(w, t, Step(x));
    Runs.ReachesItself(t, Goes);
    Runs.StepReaches(w, Step(x), t, t, Goes);
    Runs.ReachesOn(v, w, t, Goes);
    Runs.ReachesOn(u, v, t, Goes);
    Runs.ReachesOn(s, u, t, Goes);
  }

  lemma NotDefaultDoomed(s: State)
    requires NoResets(s) && !EndsDefault(s)
    ensures Doomed(s)
  {
    if !AllFrom(s, 0) {
      var j: nat :| !CanBeDefault(s, j);
      assert s.priorities[j] != LEAST;
    }
  }

  // ---------------------------------------------------------------------------------------------
  // Results
  // ---------------------------------------------------------------------------------------------

  lemma QuietAgrees(s: State)
    requires FlagOk(s) && s.calls == map[]
    ensures Agrees(s)
  {
    if !s.mixed {
      forall j: nat | j < |s.priorities|
        ensures s.priorities[j] == LEAST
      {
        assert CanBeDefault(s, j) && !WillReset(s, j);
      }
    }
  }

  /** Exactly when the flag comes out right whatever the calls under way do: when each of them that may store
      false is right to. */
  lemma AgreesIff(s: State)
    requires WellFormed(s) && FlagOk(s)
    ensures Safe(s) <==> forall t :: Runs.Reaches(s, t, Goes) && t.calls == map[] ==> Agrees(t)
  {
    if Safe(s) {
      forall t | Runs.Reaches(s, t, Goes) && t.calls == map[]
        ensures Agrees(t)
      {
        forall x, x', a | Fine(x) && Goes(x, x', a)
          ensures Fine(x')
        {
          StepKeepsFine(x, x', a);
        }
        Runs.KeepReaching(s, t, Goes, Fine);
        QuietAgrees(t);
      }
    } else {
      var x :| x in s.calls && MayMiss(s, s.calls[x]) && !EndsDefault(s);
      var t := FlagGetsLost(s, x);
    }
  }

  /** A call starts only if that is safe with the calls under way. */
  ghost predicate Guarded(s: State, s': State, a: Action) {
    Does(s, s', a) && (a.Begin? ==> Safe(s'))
  }

  /** Any number of calls at once: if each starts safely, the flag agrees with the priorities whenever none is under
      way. */
  lemma GuardedAgrees(run: seq<State>, acts: seq<Action>, k: nat)
    requires Runs.IsRun(run, acts, Init, Guarded) && k < |run| && run[k].calls == map[]
    ensures Agrees(run[k])
  {
    forall s | Init(s)
      ensures Fine(s)
    {
      assert forall j: nat :: CanBeDefault(s, j);
    }
    forall s, s', a | Fine(s) && Guarded(s, s', a)
      ensures Fine(s')
    {
      if a.Begin? {
        assert a.p in s'.calls;
      } else {
        StepKeepsFine(s, s', a);
      }
    }
    Runs.KeepInvariant(run, acts, Init, Guarded, Fine, k);
    QuietAgrees(run[k]);
  }

  /** A call that starts while no other is under way is always safe. */
  lemma AloneIsSafe(s: State, s': State, p: nat, c: nat, priority: int)
    requires s.calls == map[] && Agrees(s) && Does(s, s', Begin(p, c, priority))
    ensures Fine(s')
  {
    assert Resets(s'.calls[p], c) <==> priority == LEAST;
  }

  /** And it does what it is for: the channel has the priority, and the flag is set exactly if some channel's is not
      the default. */
  lemma CallSetsFlag(s: State, p: nat, c: nat, priority: int) returns (t: State)
    requires s.calls == map[] && c < |s.priorities| && GREATEST <= priority <= LEAST
    ensures Runs.Reaches(s, t, Does) && t.calls == map[] && t.priorities == s.priorities[c := priority]
    ensures t.mixed <==> exists j :: 0 <= j < |t.priorities| && t.priorities[j] != LEAST
  {
    var u := s.(calls := s.calls[p := Call(c, priority, Store)]);
    t := CallEnds(u, p);
    assert Runs.Reaches(u, t, Does) by {
      var run, acts :| Runs.IsPath(run, acts, Goes) && run[0] == u && run[|run| - 1] == t;
      forall k: nat | k < |acts|
        ensures Runs.StepAt(run, acts, Does, k)
      {
        assert Runs.StepAt(run, acts, Goes, k);
      }
      assert Runs.IsPath(run, acts, Does);
    }
    Runs.StepReaches(s, Begin(p, c, priority), u, t, Does);
  }

  ghost predicate Init(s: State) {
    s.calls == map[] && !s.mixed && forall j :: 0 <= j < |s.priorities| ==> s.priorities[j] == LEAST
  }

  /** Calls one at a time, as under the runtime's binding lock. */
  ghost predicate Serial(s: State, s': State, a: Action) {
    Does(s, s', a) && (a.Begin? ==> s.calls == map[])
  }

  ghost predicate SerialOk(s: State) {
    Fine(s) && (s.calls == map[] || exists p :: s.calls.Keys == {p})
        && (s.mixed || Agrees(s) || exists p :: p in s.calls && s.calls[p].stage != Store)
  }

  /** One call at a time: whenever none is under way the flag agrees with the priorities; and while it does not,
      the call under way is between its two stores. */
  lemma SerialAgrees(run: seq<State>, acts: seq<Action>, k: nat)
    requires Runs.IsRun(run, acts, Init, Serial) && k < |run|
    ensures run[k].calls == map[] ==> Agrees(run[k])
    ensures !Agrees(run[k]) ==> exists p :: run[k].calls.Keys == {p} && run[k].calls[p].stage != Store
  {
    forall s | Init(s)
      ensures SerialOk(s)
    {
      assert forall j: nat :: CanBeDefault(s, j);
    }
    forall s, s', a | SerialOk(s) && Serial(s, s', a)
      ensures SerialOk(s')
    {
      SerialStep(s, s', a);
    }
    Runs.KeepInvariant(run, acts, Init, Serial, SerialOk, k);
    SerialMeans(run[k]);
  }

  lemma SerialMeans(s: State)
    requires SerialOk(s)
    ensures s.calls == map[] ==> Agrees(s)
    ensures !Agrees(s) ==> exists p :: s.calls.Keys == {p} && s.calls[p].stage != Store
  {
    if s.calls == map[] {
      QuietAgrees(s);
    }
  }

  lemma SerialStep(s: State, s': State, a: Action)
    requires SerialOk(s) && Serial(s, s', a)
    ensures SerialOk(s')
  {
    SerialMeans(s);
    if a.Begin? {
      AloneIsSafe(s, s', a.p, a.channel, a.priority);
      assert s'.calls.Keys == {a.p};
    } else {
      StepKeepsFine(s, s', a);
      assert s.calls.Keys == {a.p};
      SerialMeansAfter(s, s', a);
    }
  }

  lemma SerialMeansAfter(s: State, s': State, a: Action)
    requires SerialOk(s) && Goes(s, s', a) && Fine(s') && s.calls.Keys == {a.p}
    ensures (s'.calls == map[] || exists p :: s'.calls.Keys == {p})
    ensures s'.mixed || Agrees(s') || exists p :: p in s'.calls && s'.calls[p].stage != Store
  {
    if s.calls[a.p].stage.StoreFlag? {
      assert s'.calls == map[];
      QuietAgrees(s');
    } else {
      assert s'.calls.Keys == {a.p} && s'.calls[a.p].stage != Store;
    }
  }

  const LOSS: seq<Action> :=
    [Begin(1, 1, 0), Step(1), Step(1), Step(1), Step(1), Begin(0, 0, -7), Step(0), Step(0), Step(0), Step(0), Step(0),
        Step(1)]

  const LOSS_RUN: seq<State> :=
    [State([0, 0], false, map[]),
     State([0, 0], false, map[1 := Call(1, 0, Store)]),
     State([0, 0], false, map[1 := Call(1, 0, Scan(0, false))]),
     State([0, 0], false, map[1 := Call(1, 0, Scan(1, false))]),
     State([0, 0], false, map[1 := Call(1, 0, Scan(2, false))]),
     State([0, 0], false, map[1 := Call(1, 0, StoreFlag(false))]),
     State([0, 0], false, map[1 := Call(1, 0, StoreFlag(false)), 0 := Call(0, -7, Store)]),
     State([-7, 0], false, map[1 := Call(1, 0, StoreFlag(false)), 0 := Call(0, -7, Scan(0, false))]),
     State([-7, 0], false, map[1 := Call(1, 0, StoreFlag(false)), 0 := Call(0, -7, Scan(1, true))]),
     State([-7, 0], false, map[1 := Call(1, 0, StoreFlag(false)), 0 := Call(0, -7, Scan(2, true))]),
     State([-7, 0], false, map[1 := Call(1, 0, StoreFlag(false)), 0 := Call(0, -7, StoreFlag(true))]),
     State([-7, 0], true, map[1 := Call(1, 0, StoreFlag(false))]),
     State([-7, 0], false, map[])]

  lemma LossStep(k: nat)
    requires k < 12
    ensures Does(LOSS_RUN[k], LOSS_RUN[k + 1], LOSS[k])
  {
    var s, s' := LOSS_RUN[k], LOSS_RUN[k + 1];
    var p := LOSS[k].p;
    assert p in s'.calls ==> s'.calls == s.calls[p := s'.calls[p]];
    assert p !in s'.calls ==> s'.calls == s.calls - {p};
    assert s'.priorities == if k == 6 then s.priorities[0 := -7] else s.priorities;
    assert k == 1 ==> s.priorities[1 := 0] == s.priorities;
  }

  /** Two calls that overlap: the flag ends false, for good, with a priority set. */
  lemma OverlapLosesFlag()
    ensures Init(LOSS_RUN[0]) && |LOSS_RUN| == |LOSS| + 1
    ensures forall k :: 0 <= k < |LOSS| ==> Does(LOSS_RUN[k], LOSS_RUN[k + 1], LOSS[k])
    ensures LOSS_RUN[12].calls == map[] && !Agrees(LOSS_RUN[12]) && !Safe(LOSS_RUN[6])
  {
    forall k | 0 <= k < |LOSS|
      ensures Does(LOSS_RUN[k], LOSS_RUN[k + 1], LOSS[k])
    {
      LossStep(k);
    }
    assert 1 in LOSS_RUN[6].calls && MayMiss(LOSS_RUN[6], LOSS_RUN[6].calls[1]);
    assert 0 in LOSS_RUN[6].calls && Late(LOSS_RUN[6].calls[0]);
    assert LOSS_RUN[12].priorities[0] != LEAST;
  }
}
