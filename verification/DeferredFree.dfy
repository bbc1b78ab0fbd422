/**
  Deferred free. FREE does not wait for the device: it notes the PUT of every channel, and the memory goes
  back to its allocator only when the device has retired that much.
*/
module DeferredFree {
  import opened Base
  import Runs

  /** A published command and the allocations it names. */
  datatype Command = Command(refs: set<nat>)

  datatype Channel = Channel(cmds: seq<Command>, get: nat)

  datatype Pending = Pending(id: nat, fence: seq<nat>)

  // ---------------------------------------------------------------------------------------------
  // reclaim: compaction in place
  // ---------------------------------------------------------------------------------------------

  /** The entries for which `p` holds, in order. */
  function Filter(list: seq<Pending>, p: Pending -> bool): (r: seq<Pending>) {
    if list == [] then []
    else Filter(list[..|list| - 1], p) + if p(list[|list| - 1]) then [list[|list| - 1]] else []
  }

  /** Exactly the entries that satisfy `p`, each as often as before, in their order. */
  lemma {:induction false} FilterKeeps(list: seq<Pending>, p: Pending -> bool)
    ensures forall x :: multiset(Filter(list, p))[x] == if p(x) then multiset(list)[x] else 0
    ensures |Filter(list, p)| <= |list|
  {
    if list != [] {
      var n := |list| - 1;
      FilterKeeps(list[..n], p);
      assert list == list[..n] + [list[n]];
    }
  }

  /** The entries keep their order: each comes from a position of its own, and the positions increase. */
  lemma {:induction false} FilterInOrder(list: seq<Pending>, p: Pending -> bool) returns (from: seq<nat>)
    ensures |from| == |Filter(list, p)|
    ensures forall i :: 0 <= i < |from| ==> from[i] < |list| && list[from[i]] == Filter(list, p)[i]
    ensures forall i, j :: 0 <= i < j < |from| ==> from[i] < from[j]
  {
    from := [];
    if list != [] {
      var n := |list| - 1;
      from := FilterInOrder(list[..n], p);
      if p(list[n]) {
        from := from + [n];
      }
    }
  }

  /** reclaim_locked: recycles what the device has finished with, and moves the rest up. `from` counts the
      vector's length; what lies behind it is erased. */
  method Reclaim(pending: array<Pending>, retired: Pending -> bool) returns (keep: nat, recycled: seq<Pending>)
    modifies pending
    ensures keep <= pending.Length
    ensures pending[..keep] == Filter(old(pending[..]), p => !retired(p))
    ensures recycled == Filter(old(pending[..]), retired)
  {
    keep, recycled := 0, [];
    ghost var was := pending[..];
    var i := 0;
    while i < pending.Length
      invariant 0 <= keep <= i <= pending.Length
      invariant pending[..keep] == Filter(was[..i], p => !retired(p)) && recycled == Filter(was[..i], retired)
      invariant forall k :: i <= k < pending.Length ==> pending[k] == was[k]
    {
      assert was[..i + 1][..i] == was[..i];
      ghost var before := pending[..keep];
      if retired(pending[i]) {
        recycled := recycled + [pending[i]];
      } else {
        pending[keep] := pending[i];
        keep := keep + 1;
        assert pending[..keep] == before + [was[i]];
      }
      i := i + 1;
    }
    assert was[..i] == was;
  }

  // ---------------------------------------------------------------------------------------------
  // The whole protocol
  // ---------------------------------------------------------------------------------------------

  /** A submit in flight: `refs` are the allocations whose ownership it has checked, one operand at a time. Its
      commands, one or one per chunk, name no others. */
  datatype Submit = Submit(channel: nat, refs: set<nat>)

  /** FREE holds `alloc_lock` while it reads the PUTs one by one. */
  datatype Freeing = Freeing(id: nat, seen: seq<nat>)

  datatype State = State(chans: seq<Channel>, allocs: set<nat>, ever: set<nat>, submits: map<nat, Submit>,
                         freeing: Option<Freeing>, pending: seq<Pending>, recycled: seq<nat>)

  datatype Action =
    | Allocate(id: nat)
    | BeginSubmit(p: nat, channel: nat)
    | CheckOwner(p: nat, id: nat)
    | Publish(p: nat, refs: set<nat>)
    | EndSubmit(p: nat)
    | Retire(channel: nat)
    | BeginFree(id: nat)
    | ReadPut
    | EndFree
    | RunReclaim(retired: Pending -> bool)

  ghost predicate Passed(s: State, fence: seq<nat>) {
    |fence| == |s.chans| && forall c :: 0 <= c < |fence| ==> fence[c] <= s.chans[c].get
  }

  function Ids(list: seq<Pending>): (r: seq<nat>)
    ensures |r| == |list| && forall i :: 0 <= i < |r| ==> r[i] == list[i].id
  {
    seq(|list|, i requires 0 <= i < |list| => list[i].id)
  }

  ghost predicate Does(s: State, s': State, a: Action) {
    match a
    case Allocate(id) =>
      && s.freeing == None && id !in s.ever
      && s' == s.(allocs := s.allocs + {id}, ever := s.ever + {id})
    case BeginSubmit(p, c) => p !in s.submits && c < |s.chans| && s' == s.(submits := s.submits[p := Submit(c, {})])
    // owns() takes the allocation lock for each operand.
    case CheckOwner(p, id) =>
      s.freeing == None && p in s.submits && id in s.allocs
          && s' == s.(submits := s.submits[p := s.submits[p].(refs := s.submits[p].refs + {id})])
    case Publish(p, refs) =>
      && p in s.submits && s.submits[p].channel < |s.chans| && refs <= s.submits[p].refs
      && var c := s.submits[p].channel;
         s' == s.(chans := s.chans[c := s.chans[c].(cmds := s.chans[c].cmds + [Command(refs)])])
    case EndSubmit(p) => p in s.submits && s' == s.(submits := s.submits - {p})
    case Retire(c) =>
      && c < |s.chans| && s.chans[c].get < |s.chans[c].cmds|
      && s' == s.(chans := s.chans[c := s.chans[c].(get := s.chans[c].get + 1)])
    case BeginFree(id) =>
      && s.freeing == None && id in s.allocs
      && s' == s.(allocs := s.allocs - {id}, freeing := Some(Freeing(id, [])))
    case ReadPut =>
      && s.freeing.Some? && |s.freeing.value.seen| < |s.chans|
      && s' == s.(freeing :=
          Some(s.freeing.value.(seen := s.freeing.value.seen + [|s.chans[|s.freeing.value.seen|].cmds|])))
    // all_retired may read a GET that has moved on since: then the entry waits for the next reclaim.
    case EndFree =>
      && s.freeing.Some? && |s.freeing.value.seen| == |s.chans|
      && var p := Pending(s.freeing.value.id, s.freeing.value.seen);
         || s' == s.(freeing := None, pending := s.pending + [p])
         || (Passed(s, p.fence) && s' == s.(freeing := None, recycled := s.recycled + [p.id]))
    case RunReclaim(retired) =>
      && s.freeing == None && (forall p :: p in s.pending && retired(p) ==> Passed(s, p.fence))
      && s' == s.(pending := Filter(s.pending, p => !retired(p)),
          recycled := s.recycled + Ids(Filter(s.pending, retired)))
  }

  /** The FREE is not concurrent with a submit that names the same memory. */
  ghost predicate NoRace(s: State, a: Action) {
    a.BeginFree? ==> forall p :: p in s.submits ==> a.id !in s.submits[p].refs
  }

  /** Commands of channel `c` that name `id` lie in front of position `n`. */
  ghost predicate Behind(s: State, c: nat, id: nat, n: nat) {
    c < |s.chans| && forall i :: n <= i < |s.chans[c].cmds| ==> id !in s.chans[c].cmds[i].refs
  }

  /** No command that has not retired names `id`, and none is about to be published. */
  ghost predicate Unreferenced(s: State, id: nat) {
    && (forall p :: p in s.submits ==> id !in s.submits[p].refs)
    && forall c :: 0 <= c < |s.chans| ==> Behind(s, c, id, s.chans[c].get)
  }

  /** The fence covers every command that names `id`, and asks for nothing that is not published. */
  ghost predicate Fenced(s: State, id: nat, fence: seq<nat>) {
    && |fence| <= |s.chans|
    && (forall p :: p in s.submits ==> id !in s.submits[p].refs)
    && forall c :: 0 <= c < |fence| ==> fence[c] <= |s.chans[c].cmds| && Behind(s, c, id, fence[c])
  }

  /** Ids whose memory is not handed out: being freed, waiting, or back with the allocator. */
  ghost function Gone(s: State): (r: seq<nat>) {
    (if s.freeing.Some? then [s.freeing.value.id] else []) + Ids(s.pending) + s.recycled
  }

  ghost predicate Once(list: seq<nat>) {
    forall x :: multiset(list)[x] <= 1
  }

  ghost predicate Inv(s: State) {
    && (forall c :: 0 <= c < |s.chans| ==> s.chans[c].get <= |s.chans[c].cmds|)
    && (forall i :: 0 <= i < |s.pending| ==>
        |s.pending[i].fence| == |s.chans| && Fenced(s, s.pending[i].id, s.pending[i].fence))
    && (s.freeing.Some? ==> Fenced(s, s.freeing.value.id, s.freeing.value.seen))
    && (forall i :: 0 <= i < |s.recycled| ==> Unreferenced(s, s.recycled[i]))
    && Once(Gone(s)) && s.allocs <= s.ever && (forall x :: x in Gone(s) ==> x in s.ever && x !in s.allocs)
  }

  ghost predicate Init(s: State) {
    && (forall c :: 0 <= c < |s.chans| ==> s.chans[c] == Channel([], 0))
    && s.allocs == s.ever == {} && s.submits == map[] && s.freeing == None && s.pending == [] && s.recycled == []
  }

  lemma FencedPassed(s: State, id: nat, fence: seq<nat>)
    requires Fenced(s, id, fence) && Passed(s, fence)
    ensures Unreferenced(s, id)
  {
    forall c | 0 <= c < |s.chans|
      ensures Behind(s, c, id, s.chans[c].get)
    {
      assert Behind(s, c, id, fence[c]);
    }
  }

  /** Publishing a command that does not name `id`, or retiring one, changes nothing for it. */
  ghost predicate Harmless(s: State, s': State, id: nat) {
    && |s'.chans| == |s.chans|
    && (forall p :: p in s'.submits ==> id !in s'.submits[p].refs)
    && forall c :: 0 <= c < |s.chans| ==>
         && s.chans[c].cmds <= s'.chans[c].cmds && s.chans[c].get <= s'.chans[c].get
         && forall i :: |s.chans[c].cmds| <= i < |s'.chans[c].cmds| ==> id !in s'.chans[c].cmds[i].refs
  }

  lemma HarmlessKeeps(s: State, s': State, id: nat, fence: seq<nat>)
    requires Harmless(s, s', id)
    ensures Fenced(s, id, fence) ==> Fenced(s', id, fence)
    ensures Unreferenced(s, id) ==> Unreferenced(s', id)
  {
    forall c: nat, n: nat | c < |s.chans| && Behind(s, c, id, n)
      ensures Behind(s', c, id, n)
    {
    }
    if Unreferenced(s, id) {
      forall c | 0 <= c < |s'.chans|
        ensures Behind(s', c, id, s'.chans[c].get)
      {
        assert Behind(s, c, id, s.chans[c].get);
      }
    }
  }

  /** A step that neither frees nor recycles. */
  lemma OutsideKeeps(s: State, s': State)
    requires Inv(s) && s'.pending == s.pending && s'.recycled == s.recycled && s'.freeing == s.freeing
    requires s'.allocs <= s'.ever && s.ever <= s'.ever && forall x :: x in s'.allocs ==> x in s.allocs || x !in s.ever
    requires forall c :: 0 <= c < |s'.chans| ==> s'.chans[c].get <= |s'.chans[c].cmds|
    requires forall x :: x in Gone(s) ==> Harmless(s, s', x)
    requires |s'.chans| == |s.chans|
    ensures Inv(s')
  {
    assert Gone(s') == Gone(s);
    forall i | 0 <= i < |s.pending|
      ensures Fenced(s', s.pending[i].id, s.pending[i].fence)
    {
      GoneHas(s, i);
      HarmlessKeeps(s, s', s.pending[i].id, s.pending[i].fence);
    }
    forall i | 0 <= i < |s.recycled|
      ensures Unreferenced(s', s.recycled[i])
    {
      assert s.recycled[i] in Gone(s);
      HarmlessKeeps(s, s', s.recycled[i], []);
    }
    if s.freeing.Some? {
      assert Gone(s)[0] == s.freeing.value.id;
      HarmlessKeeps(s, s', s.freeing.value.id, s.freeing.value.seen);
    }
  }

  lemma GoneHas(s: State, i: nat)
    requires i < |s.pending|
    ensures s.pending[i].id in Gone(s)
  {
    assert Ids(s.pending)[i] in Ids(s.pending);
  }

  /** Nothing in `Gone` is named by a submit: ownership was checked while it was still allocated. */
  lemma GoneUnnamed(s: State, x: nat)
    requires Inv(s) && x in Gone(s)
    ensures forall p :: p in s.submits ==> x !in s.submits[p].refs
  {
    if x in s.recycled {
      var i :| 0 <= i < |s.recycled| && s.recycled[i] == x;
      assert Unreferenced(s, s.recycled[i]);
    } else if x in Ids(s.pending) {
      var i :| 0 <= i < |s.pending| && Ids(s.pending)[i] == x;
      assert Fenced(s, s.pending[i].id, s.pending[i].fence);
    }
  }

  lemma OutsideStep(s: State, s': State, a: Action)
    requires Inv(s) && Does(s, s', a)
             && (a.Allocate? || a.BeginSubmit? || a.CheckOwner? || a.Publish? || a.EndSubmit? || a.Retire?)
    ensures Inv(s')
  {
    forall x | x in Gone(s)
      ensures Harmless(s, s', x)
    {
      GoneUnnamed(s, x);
    }
    OutsideKeeps(s, s');
  }

  lemma BeginFreeKeeps(s: State, s': State, id: nat)
    requires Inv(s) && Does(s, s', BeginFree(id)) && NoRace(s, BeginFree(id))
    ensures Inv(s')
  {
    assert Gone(s') == [id] + Gone(s);
    assert id !in Gone(s);
    forall x | x in Gone(s)
      ensures Harmless(s, s', x)
    {
      GoneUnnamed(s, x);
    }
    PendingStay(s, s');
    RecycledStay(s, s');
  }

  lemma PendingStay(s: State, s': State)
    requires Inv(s) && s'.pending == s.pending && |s'.chans| == |s.chans|
    requires forall x :: x in Gone(s) ==> Harmless(s, s', x)
    ensures forall i ::
            0 <= i < |s'.pending| ==>
            |s'.pending[i].fence| == |s'.chans| && Fenced(s', s'.pending[i].id, s'.pending[i].fence)
  {
    forall i | 0 <= i < |s.pending|
      ensures Fenced(s', s.pending[i].id, s.pending[i].fence)
    {
      GoneHas(s, i);
      HarmlessKeeps(s, s', s.pending[i].id, s.pending[i].fence);
    }
  }

  lemma RecycledStay(s: State, s': State)
    requires Inv(s) && s'.recycled == s.recycled && |s'.chans| == |s.chans|
    requires forall x :: x in Gone(s) ==> Harmless(s, s', x)
    ensures forall i :: 0 <= i < |s'.recycled| ==> Unreferenced(s', s'.recycled[i])
  {
    forall i | 0 <= i < |s.recycled|
      ensures Unreferenced(s', s.recycled[i])
    {
      assert s.recycled[i] in Gone(s);
      HarmlessKeeps(s, s', s.recycled[i], []);
    }
  }

  lemma ReadPutKeeps(s: State, s': State)
    requires Inv(s) && Does(s, s', ReadPut)
    ensures Inv(s')
  {
    var f := s.freeing.value;
    var c := |f.seen|;
    assert Gone(s') == Gone(s);
    assert Behind(s', c, f.id, |s.chans[c].cmds|);
    forall d | 0 <= d < |f.seen|
      ensures Behind(s', d, f.id, f.seen[d])
    {
      assert Behind(s, d, f.id, f.seen[d]);
    }
    forall x | x in Gone(s)
      ensures Harmless(s, s', x)
    {
      GoneUnnamed(s, x);
    }
    PendingStay(s, s');
    RecycledStay(s, s');
  }

  lemma SameChans(s: State, s': State, id: nat, fence: seq<nat>)
    requires s'.chans == s.chans && s'.submits == s.submits
    ensures Fenced(s', id, fence) <==> Fenced(s, id, fence)
    ensures Unreferenced(s', id) <==> Unreferenced(s, id)
  {
    assert forall c: nat, n: nat :: Behind(s', c, id, n) <==> Behind(s, c, id, n);
  }

  lemma EndFreeKeeps(s: State, s': State)
    requires Inv(s) && Does(s, s', EndFree)
    ensures Inv(s')
  {
    var f := s.freeing.value;
    var p := Pending(f.id, f.seen);
    GoneShuffles(s, s', p);
    if s'.recycled != s.recycled {
      FencedPassed(s, f.id, f.seen);
    }
    forall i | 0 <= i < |s'.pending|
      ensures |s'.pending[i].fence| == |s'.chans| && Fenced(s', s'.pending[i].id, s'.pending[i].fence)
    {
      SameChans(s, s', s'.pending[i].id, s'.pending[i].fence);
    }
    forall i | 0 <= i < |s'.recycled|
      ensures Unreferenced(s', s'.recycled[i])
    {
      SameChans(s, s', s'.recycled[i], []);
    }
  }

  lemma GoneShuffles(s: State, s': State, p: Pending)
    requires s.freeing == Some(Freeing(p.id, p.fence)) && s'.freeing == None
    requires (s'.pending == s.pending + [p] && s'.recycled == s.recycled)
             || (s'.pending == s.pending && s'.recycled == s.recycled + [p.id])
    ensures multiset(Gone(s')) == multiset(Gone(s))
    ensures forall x :: x in Gone(s') <==> x in Gone(s)
  {
    var ids := Ids(s.pending);
    assert Ids(s.pending + [p]) == ids + [p.id];
    assert Gone(s) == [p.id] + ids + s.recycled;
    assert Gone(s') == if s'.recycled == s.recycled then ids + [p.id] + s.recycled else ids + (s.recycled + [p.id]);
    SameElements(Gone(s), Gone(s'));
  }

  lemma SameElements(x: seq<nat>, y: seq<nat>)
    requires multiset(x) == multiset(y)
    ensures forall e :: e in x <==> e in y
  {
    forall e
      ensures e in x <==> e in y
    {
      assert e in x <==> e in multiset(x);
      assert e in y <==> e in multiset(y);
    }
  }

  lemma {:induction false} FilterSplits(list: seq<Pending>, p: Pending -> bool)
    ensures multiset(Ids(Filter(list, x => !p(x)))) + multiset(Ids(Filter(list, p))) == multiset(Ids(list))
  {
    if list != [] {
      var n := |list| - 1;
      FilterSplits(list[..n], p);
      assert Ids(list) == Ids(list[..n]) + [list[n].id];
      var kept, gone := Filter(list[..n], x => !p(x)), Filter(list[..n], p);
      assert Ids(kept + [list[n]]) == Ids(kept) + [list[n].id];
      assert Ids(gone + [list[n]]) == Ids(gone) + [list[n].id];
      assert Filter(list, x => !p(x)) == if p(list[n]) then kept else kept + [list[n]];
      assert Filter(list, p) == if p(list[n]) then gone + [list[n]] else gone;
    }
  }

  lemma {:induction false} FilterFrom(list: seq<Pending>, p: Pending -> bool)
    ensures forall x :: x in Filter(list, p) ==> x in list && p(x)
  {
    if list != [] {
      FilterFrom(list[..|list| - 1], p);
    }
  }

  lemma ReclaimKeeps(s: State, s': State, retired: Pending -> bool)
    requires Inv(s) && Does(s, s', RunReclaim(retired))
    ensures Inv(s')
  {
    GoneReclaimed(s, s', retired);
    KeptStay(s, s', retired);
    ReclaimedUnreferenced(s, s', retired);
  }

  lemma GoneReclaimed(s: State, s': State, retired: Pending -> bool)
    requires Does(s, s', RunReclaim(retired))
    ensures multiset(Gone(s')) == multiset(Gone(s)) && forall x :: x in Gone(s') <==> x in Gone(s)
  {
    FilterSplits(s.pending, retired);
    Regroup(Ids(s.pending), Ids(s'.pending), Ids(Filter(s.pending, retired)), s.recycled);
    assert Gone(s) == Ids(s.pending) + s.recycled;
    assert Gone(s') == Ids(s'.pending) + s'.recycled;
  }

  lemma Regroup(all: seq<nat>, kept: seq<nat>, gone: seq<nat>, rest: seq<nat>)
    requires multiset(kept) + multiset(gone) == multiset(all)
    ensures multiset(kept + (rest + gone)) == multiset(all + rest)
            && forall x :: x in kept + (rest + gone) <==> x in all + rest
  {
    SameElements(kept + (rest + gone), all + rest);
  }

  lemma KeptStay(s: State, s': State, retired: Pending -> bool)
    requires Inv(s) && Does(s, s', RunReclaim(retired))
    ensures forall i ::
            0 <= i < |s'.pending| ==>
            |s'.pending[i].fence| == |s'.chans| && Fenced(s', s'.pending[i].id, s'.pending[i].fence)
  {
    FilterFrom(s.pending, p => !retired(p));
    forall i | 0 <= i < |s'.pending|
      ensures |s'.pending[i].fence| == |s'.chans| && Fenced(s', s'.pending[i].id, s'.pending[i].fence)
    {
      assert s'.pending[i] in s.pending;
      SameChans(s, s', s'.pending[i].id, s'.pending[i].fence);
    }
  }

  lemma ReclaimedUnreferenced(s: State, s': State, retired: Pending -> bool)
    requires Inv(s) && Does(s, s', RunReclaim(retired))
    ensures forall i :: 0 <= i < |s'.recycled| ==> Unreferenced(s', s'.recycled[i])
  {
    var gone := Filter(s.pending, retired);
    FilterFrom(s.pending, retired);
    forall i | 0 <= i < |s'.recycled|
      ensures Unreferenced(s', s'.recycled[i])
    {
      if i >= |s.recycled| {
        var p := gone[i - |s.recycled|];
        assert p in gone;
        FencedPassed(s, p.id, p.fence);
      }
      SameChans(s, s', s'.recycled[i], []);
    }
  }

  lemma StepKeepsInv(s: State, s': State, a: Action)
    requires Inv(s) && Does(s, s', a) && NoRace(s, a)
    ensures Inv(s')
  {
    match a
    case BeginFree(id) => BeginFreeKeeps(s, s', id);
    case ReadPut => ReadPutKeeps(s, s');
    case EndFree => EndFreeKeeps(s, s');
    case RunReclaim(retired) => ReclaimKeeps(s, s', retired);
    case _ => OutsideStep(s, s', a);
  }

  /** A step of the protocol without the race. */
  ghost predicate Goes(s: State, s': State, a: Action) {
    Does(s, s', a) && NoRace(s, a)
  }

  ghost predicate IsRun(run: seq<State>, acts: seq<Action>) {
    Runs.IsRun(run, acts, Init, Goes)
  }

  lemma RunKeepsInv(run: seq<State>, acts: seq<Action>, k: nat)
    requires IsRun(run, acts) && k < |run|
    ensures Inv(run[k])
  {
    forall s, s', a | Inv(s) && Goes(s, s', a)
      ensures Inv(s')
    {
      StepKeepsInv(s, s', a);
    }
    forall s | Init(s)
      ensures Inv(s)
    {
      assert Gone(s) == [];
    }
    Runs.KeepInvariant(run, acts, Init, Goes, Inv, k);
  }

  /** Memory that is back with its allocator is named by no command that may still run, published or
      about to be; and it went back once. */
  lemma RecycledIsUnreferenced(run: seq<State>, acts: seq<Action>, k: nat, i: nat)
    requires IsRun(run, acts) && k < |run| && i < |run[k].recycled|
    ensures Unreferenced(run[k], run[k].recycled[i]) && run[k].recycled[i] !in run[k].allocs
    ensures multiset(run[k].recycled)[run[k].recycled[i]] == 1
  {
    var s := run[k];
    RunKeepsInv(run, acts, k);
    var x := s.recycled[i];
    assert x in s.recycled && x in Gone(s);
    assert multiset(Gone(s))[x] >= multiset(s.recycled)[x];
  }

  /** Once the device has retired everything that was published, a reclaim leaves nothing behind. */
  lemma DrainedReclaimsAll(s: State, s': State, retired: Pending -> bool)
    requires Inv(s) && Does(s, s', RunReclaim(retired))
    requires forall c :: 0 <= c < |s.chans| ==> s.chans[c].get == |s.chans[c].cmds|
    requires forall p :: p in s.pending && Passed(s, p.fence) ==> retired(p)
    ensures s'.pending == []
  {
    forall p | p in s.pending
      ensures retired(p)
    {
      var i :| 0 <= i < |s.pending| && s.pending[i] == p;
      assert Fenced(s, s.pending[i].id, s.pending[i].fence);
    }
    FilterNone(s.pending, p => !retired(p));
  }

  lemma {:induction false} FilterNone(list: seq<Pending>, p: Pending -> bool)
    requires forall x :: x in list ==> !p(x)
    ensures Filter(list, p) == []
  {
    if list != [] {
      FilterNone(list[..|list| - 1], p);
    }
  }

  // ---------------------------------------------------------------------------------------------
  // Why the race must be ruled out
  // ---------------------------------------------------------------------------------------------

  /** What deferred free is for: memory that is back with its allocator is named by nothing that may still run. */
  ghost predicate Safe(s: State) {
    forall i :: 0 <= i < |s.recycled| ==> Unreferenced(s, s.recycled[i])
  }

  /** A submit in flight has checked `id`. */
  ghost predicate Named(s: State, id: nat) {
    exists p :: p in s.submits && id in s.submits[p].refs
  }

  ghost function Unretired(chans: seq<Channel>): (n: nat) {
    if chans == [] then 0
    else (if chans[0].get < |chans[0].cmds| then |chans[0].cmds| - chans[0].get else 0) + Unretired(chans[1..])
  }

  lemma {:induction false} RetireOneLess(chans: seq<Channel>, c: nat)
    requires c < |chans| && chans[c].get < |chans[c].cmds|
    ensures Unretired(chans[c := chans[c].(get := chans[c].get + 1)]) < Unretired(chans)
  {
    var k := chans[c].(get := chans[c].get + 1);
    if c == 0 {
      assert chans[0 := k][1..] == chans[1..];
    } else {
      RetireOneLess(chans[1..], c - 1);
      assert chans[c := k][1..] == chans[1..][c - 1 := k];
    }
  }

  ghost predicate Idle(s: State) {
    forall c :: 0 <= c < |s.chans| ==> s.chans[c].get >= |s.chans[c].cmds|
  }

  /** The device can retire whatever is published. */
  lemma {:induction false} DeviceIdles(s: State) returns (t: State)
    ensures Runs.Reaches(s, t, Goes) && Idle(t) && t == s.(chans := t.chans) && |t.chans| == |s.chans|
    decreases Unretired(s.chans)
  {
    if Idle(s) {
      t := s;
      Runs.ReachesItself(t, Goes);
    } else {
      var c: nat :| c < |s.chans| && s.chans[c].get < |s.chans[c].cmds|;
      var s' := s.(chans := s.chans[c := s.chans[c].(get := s.chans[c].get + 1)]);
      RetireOneLess(s.chans, c);
      t := DeviceIdles(s');
      Runs.StepReaches(s, Retire(c), s', t, Goes);
    }
  }

  /** The FREE reads the PUTs that are left. */
  lemma {:induction false} ReadsAll(s: State) returns (t: State)
    requires s.freeing.Some? && |s.freeing.value.seen| <= |s.chans| && Idle(s)
    requires forall c :: 0 <= c < |s.freeing.value.seen| ==> s.freeing.value.seen[c] <= s.chans[c].get
    ensures Runs.Reaches(s, t, Goes) && t.freeing.Some? && t == s.(freeing := t.freeing)
            && t.freeing.value.id == s.freeing.value.id
    ensures Passed(t, t.freeing.value.seen)
    decreases |s.chans| - |s.freeing.value.seen|
  {
    var f := s.freeing.value;
    if |f.seen| == |s.chans| {
      t := s;
      Runs.ReachesItself(t, Goes);
    } else {
      var s' := s.(freeing := Some(f.(seen := f.seen + [|s.chans[|f.seen|].cmds|])));
      t := ReadsAll(s');
      Runs.StepReaches(s, ReadPut, s', t, Goes);
    }
  }

  /** From the start of a FREE, with a submit in flight that has checked the memory, there is a way to go on, and
      no other race on it, to a state in which the memory is recycled and that submit can still publish. */
  lemma RaceRecycles(s: State, id: nat) returns (t: State)
    requires s.freeing == Some(Freeing(id, [])) && Named(s, id)
    ensures Runs.Reaches(s, t, Goes) && id in t.recycled && Named(t, id)
  {
    var u := DeviceIdles(s);
    var v := ReadsAll(u);
    t := v.(freeing := None, recycled := v.recycled + [id]);
    assert Goes(v, t, EndFree);
    Runs.ReachesItself(t, Goes);
    Runs.StepReaches(v, EndFree, t, t, Goes);
    Runs.ReachesOn(u, v, t, Goes);
    Runs.ReachesOn(s, u, t, Goes);
    assert t.recycled[|v.recycled|] == id;
  }

  lemma InvReaches(s: State, t: State)
    requires Inv(s) && Runs.Reaches(s, t, Goes)
    ensures Inv(t)
  {
    forall x, x', a | Inv(x) && Goes(x, x', a)
      ensures Inv(x')
    {
      StepKeepsInv(x, x', a);
    }
    Runs.KeepReaching(s, t, Goes, Inv);
  }

  /** Exactly when a FREE is safe, whatever happens after it short of another race: when no submit in flight has
      checked the memory. */
  lemma FreeSafeIff(s: State, s': State, id: nat)
    requires Inv(s) && Does(s, s', BeginFree(id))
    ensures NoRace(s, BeginFree(id)) <==> forall t :: Runs.Reaches(s', t, Goes) ==> Safe(t)
  {
    if NoRace(s, BeginFree(id)) {
      BeginFreeKeeps(s, s', id);
      forall t | Runs.Reaches(s', t, Goes)
        ensures Safe(t)
      {
        InvReaches(s', t);
      }
    } else {
      var p :| p in s.submits && id in s.submits[p].refs;
      assert Named(s', id);
      var t := RaceRecycles(s', id);
      var q :| q in t.submits && id in t.submits[q].refs;
      var i :| 0 <= i < |t.recycled| && t.recycled[i] == id;
      assert !Unreferenced(t, t.recycled[i]);
    }
  }

  // ---------------------------------------------------------------------------------------------
  // Memory does come back, and submits do publish
  // ---------------------------------------------------------------------------------------------

  /** A FREE that has begun ends, when the device has retired everything, with the memory recycled at once. */
  lemma FreeEnds(s: State) returns (t: State)
    requires Inv(s) && Idle(s) && s.freeing.Some?
    ensures Runs.Reaches(s, t, Goes) && Inv(t)
    ensures t == s.(freeing := None, recycled := s.recycled + [s.freeing.value.id])
  {
    var u := ReadsAll(s);
    t := u.(freeing := None, recycled := u.recycled + [u.freeing.value.id]);
    assert Goes(u, t, EndFree);
    Runs.ReachesItself(t, Goes);
    Runs.StepReaches(u, EndFree, t, t, Goes);
    Runs.ReachesOn(s, u, t, Goes);
    InvReaches(s, t);
  }

  lemma {:induction false} FilterAll(list: seq<Pending>)
    ensures Filter(list, p => true) == list && Filter(list, p => !(p => true)(p)) == []
  {
    if list != [] {
      FilterAll(list[..|list| - 1]);
    }
  }

  /** From every state: once the device has retired what is published, everything that has been freed is back
      with its allocator. */
  lemma AllComesBack(s: State) returns (t: State)
    requires Inv(s)
    ensures Runs.Reaches(s, t, Goes) && Inv(t) && t.freeing == None && t.pending == []
    ensures t.allocs == s.allocs && t.submits == s.submits && forall x :: x in Gone(s) ==> x in t.recycled
  {
    var u := DeviceIdles(s);
    InvReaches(s, u);
    var v := u;
    Runs.ReachesItself(u, Goes);
    if u.freeing.Some? {
      v := FreeEnds(u);
    }
    t := ReclaimsAll(v);
    Runs.ReachesOn(u, v, t, Goes);
    Runs.ReachesOn(s, u, t, Goes);
  }

  lemma ReclaimsAll(s: State) returns (t: State)
    requires Inv(s) && Idle(s) && s.freeing == None
    ensures Runs.Reaches(s, t, Goes) && Inv(t) && t == s.(pending := [], recycled := s.recycled + Ids(s.pending))
  {
    t := s.(pending := [], recycled := s.recycled + Ids(s.pending));
    FilterAll(s.pending);
    forall p | p in s.pending
      ensures Passed(s, p.fence)
    {
      var i :| 0 <= i < |s.pending| && s.pending[i] == p;
      assert Fenced(s, s.pending[i].id, s.pending[i].fence);
    }
    assert Goes(s, t, RunReclaim(p => true));
    Runs.ReachesItself(t, Goes);
    Runs.StepReaches(s, RunReclaim(p => true), t, t, Goes);
    InvReaches(s, t);
  }

  /** So every allocation can be freed and its memory recycled, unless a submit in flight has checked it. */
  lemma FreedComesBack(s: State, id: nat) returns (t: State)
    requires Inv(s) && id in s.allocs && !Named(s, id)
    ensures Runs.Reaches(s, t, Goes) && id in t.recycled
  {
    var u := AllComesBack(s);
    var v := u.(allocs := u.allocs - {id}, freeing := Some(Freeing(id, [])));
    assert Goes(u, v, BeginFree(id));
    StepKeepsInv(u, v, BeginFree(id));
    t := AllComesBack(v);
    assert Gone(v)[0] == id;
    Runs.StepReaches(u, BeginFree(id), v, t, Goes);
    Runs.ReachesOn(s, u, t, Goes);
  }

  lemma {:induction false} ChecksAll(s: State, p: nat, refs: set<nat>) returns (t: State)
    requires s.freeing == None && p in s.submits && refs <= s.allocs
    ensures Runs.Reaches(s, t, Goes) && p in t.submits && refs <= t.submits[p].refs
    ensures t == s.(submits := t.submits) && t.submits[p].channel == s.submits[p].channel
    decreases refs - s.submits[p].refs
  {
    if refs <= s.submits[p].refs {
      t := s;
      Runs.ReachesItself(t, Goes);
    } else {
      var id :| id in refs && id !in s.submits[p].refs;
      var s' := s.(submits := s.submits[p := s.submits[p].(refs := s.submits[p].refs + {id})]);
      t := ChecksAll(s', p, refs);
      Runs.StepReaches(s, CheckOwner(p, id), s', t, Goes);
    }
  }

  /** A command whose operands are all allocated gets published, when no FREE is under way. */
  lemma SubmitEnds(s: State, p: nat, c: nat, refs: set<nat>) returns (t: State)
    requires s.freeing == None && p !in s.submits && c < |s.chans| && refs <= s.allocs
    ensures Runs.Reaches(s, t, Goes)
    ensures t.chans == s.chans[c := s.chans[c].(cmds := s.chans[c].cmds + [Command(refs)])]
  {
    var u := s.(submits := s.submits[p := Submit(c, {})]);
    var v := ChecksAll(u, p, refs);
    t := v.(chans := v.chans[c := v.chans[c].(cmds := v.chans[c].cmds + [Command(refs)])]);
    Runs.ReachesItself(t, Goes);
    Runs.StepReaches(v, Publish(p, refs), t, t, Goes);
    Runs.ReachesOn(u, v, t, Goes);
    Runs.StepReaches(s, BeginSubmit(p, c), u, t, Goes);
  }

  function Snapshot(allocs: set<nat>, submits: map<nat, Submit>, freeing: Option<Freeing>, recycled: seq<nat>,
                    cmds: seq<Command>): (s: State) {
    State([Channel(cmds, 0)], allocs, {7}, submits, freeing, [], recycled)
  }

  const RACE: seq<Action> :=
      [Allocate(7), BeginSubmit(1, 0), CheckOwner(1, 7), BeginFree(7), ReadPut, EndFree, Publish(1, {7})]

  const RACE_RUN: seq<State> :=
    [State([Channel([], 0)], {}, {}, map[], None, [], []),
     Snapshot({7}, map[], None, [], []),
     Snapshot({7}, map[1 := Submit(0, {})], None, [], []),
     Snapshot({7}, map[1 := Submit(0, {7})], None, [], []),
     Snapshot({}, map[1 := Submit(0, {7})], Some(Freeing(7, [])), [], []),
     Snapshot({}, map[1 := Submit(0, {7})], Some(Freeing(7, [0])), [], []),
     Snapshot({}, map[1 := Submit(0, {7})], None, [7], []),
     Snapshot({}, map[1 := Submit(0, {7})], None, [7], [Command({7})])]

  lemma RaceStarts(k: nat)
    requires k < 4
    ensures Does(RACE_RUN[k], RACE_RUN[k + 1], RACE[k]) && (NoRace(RACE_RUN[k], RACE[k]) <==> k != 3)
  {
    assert {} + {7} == {7} && {7} - {7} == {};
    assert map[1 := Submit(0, {})][1 := Submit(0, {7})] == map[1 := Submit(0, {7})];
    assert 1 in RACE_RUN[3].submits && 7 in RACE_RUN[3].submits[1].refs;
  }

  lemma RaceEnds(k: nat)
    requires 4 <= k < 7
    ensures Does(RACE_RUN[k], RACE_RUN[k + 1], RACE[k]) && NoRace(RACE_RUN[k], RACE[k])
  {
    assert [] + [0] == [0] && [] + [Command({7})] == [Command({7})] && [7] == [] + [7];
    assert RACE_RUN[6].chans[0 := RACE_RUN[7].chans[0]] == RACE_RUN[7].chans;
    assert Passed(RACE_RUN[5], [0]);
  }

  /** Such a run from the start: a FREE between the ownership check of a submit and its publication hands out
      memory that the command names. Every step but that FREE keeps to the protocol. */
  lemma RaceBreaksIt()
    ensures Init(RACE_RUN[0]) && |RACE_RUN| == |RACE| + 1
    ensures forall k ::
            0 <= k < |RACE| ==>
            Does(RACE_RUN[k], RACE_RUN[k + 1], RACE[k]) && (NoRace(RACE_RUN[k], RACE[k]) <==> k != 3)
    ensures 7 in RACE_RUN[7].recycled && !Unreferenced(RACE_RUN[7], 7)
  {
    forall k | 0 <= k < |RACE|
      ensures Does(RACE_RUN[k], RACE_RUN[k + 1], RACE[k]) && (NoRace(RACE_RUN[k], RACE[k]) <==> k != 3)
    {
      if k < 4 {
        RaceStarts(k);
      } else {
        RaceEnds(k);
      }
    }
    assert !Behind(RACE_RUN[7], 0, 7, 0) by {
      assert 7 in RACE_RUN[7].chans[0].cmds[0].refs;
    }
  }
}
