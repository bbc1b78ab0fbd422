/** Types shared by every module of the model. */
module Base {

  datatype Option<+T> = None | Some(value: T)

  /** One byte of host memory or VRAM. */
  newtype Byte = b: int | 0 <= b < 256

  /** SG_PAGE_SIZE: the device page, and the granularity of every allocation. */
  const PAGE_SIZE: nat := 4096

  lemma SubsetSize<T>(x: set<T>, y: set<T>)
    requires x <= y
    ensures |x| <= |y| && (|x| == |y| ==> x == y)
  {
    assert y == x + (y - x);
  }
}

/** Remainders, and places on a ring. */
module Modular {

  lemma Distribute(d: int, x: int, y: int)
    ensures d * x - d * y == d * (x - y)
  {
  }

  lemma Multiple(d: nat, k: int)
    ensures d * k <= 0 || d * k >= d
  {
  }

  /** Numbers less than `depth` apart have different remainders. */
  lemma SlotsDiffer(depth: nat, t: nat, u: nat)
    requires depth > 0 && t < u < t + depth
    ensures t % depth != u % depth
  {
    if t % depth == u % depth {
      var k := u / depth - t / depth;
      assert t == depth * (t / depth) + t % depth;
      assert u == depth * (u / depth) + u % depth;
      Distribute(depth, u / depth, t / depth);
      Multiple(depth, k);
    }
  }

  lemma ModIs(x: nat, d: nat, q: nat, r: nat)
    requires d > 0 && x == d * q + r && r < d
    ensures x % d == r
  {
    var k := x / d - q;
    assert x == d * (x / d) + x % d;
    Distribute(d, x / d, q);
    Multiple(d, k);
    Multiple(d, -k);
    assert d * (-k) == -(d * k);
  }

  /** `i` places after `rr`, on a ring of `n`. */
  function Place(rr: nat, i: nat, n: nat): (c: nat)
    requires n > 0
    ensures c < n
  {
    (rr + i) % n
  }

  /** How far `c` is from `rr`, going round. */
  function Distance(rr: nat, c: nat, n: nat): (i: nat)
    requires rr < n && c < n
    ensures i < n && Place(rr, i, n) == c
  {
    if rr <= c then
      ModIs(c, n, 0, c); c - rr
    else
      ModIs(c + n, n, 1, c); c + n - rr
  }

  lemma DistanceIs(rr: nat, i: nat, n: nat)
    requires rr < n && i < n
    ensures Distance(rr, Place(rr, i, n), n) == i
  {
    var d := Distance(rr, Place(rr, i, n), n);
    if d < i {
      SlotsDiffer(n, rr + d, rr + i);
    } else if i < d {
      SlotsDiffer(n, rr + i, rr + d);
    }
  }

  lemma NextStart(rr: nat, i: nat, n: nat)
    requires rr < n && i < n
    ensures (Place(rr, i, n) + 1) % n == Place(rr, i + 1, n)
  {
    var c := (rr + i) % n;
    assert rr + i == n * ((rr + i) / n) + c;
    if c + 1 < n {
      ModIs(c + 1, n, 0, c + 1);
      ModIs(rr + i + 1, n, (rr + i) / n, c + 1);
    } else {
      ModIs(n, n, 1, 0);
      assert rr + i + 1 == n * ((rr + i) / n + 1) + 0;
      ModIs(rr + i + 1, n, (rr + i) / n + 1, 0);
    }
  }

  lemma ShiftPlace(rr: nat, i: nat, j: nat, n: nat)
    requires n > 0
    ensures Place(Place(rr, i, n), j, n) == Place(rr, i + j, n)
  {
    var c := (rr + i) % n;
    var q := (rr + i) / n;
    var r := (c + j) % n;
    var p := (c + j) / n;
    assert rr + i == n * q + c && c + j == n * p + r;
    assert rr + i + j == n * (q + p) + r by {
      assert n * q + n * p == n * (q + p);
    }
    ModIs(rr + i + j, n, q + p, r);
  }

  lemma SameSlot(m: nat, n: nat)
    requires n > 0
    ensures (m + n) % n == m % n
  {
    assert m == n * (m / n) + m % n;
    assert m + n == n * (m / n + 1) + m % n;
    ModIs(m + n, n, m / n + 1, m % n);
  }
}

/** Runs of a state machine, and induction over them. */
module Runs {

  ghost predicate StepAt<S(!new), A(!new)>(run: seq<S>, acts: seq<A>, does: (S, S, A) -> bool, k: nat) {
    k < |acts| && k + 1 < |run| && does(run[k], run[k + 1], acts[k])
  }

  ghost predicate IsPath<S(!new), A(!new)>(run: seq<S>, acts: seq<A>, does: (S, S, A) -> bool) {
    |run| == |acts| + 1 && forall k: nat :: k < |acts| ==> StepAt(run, acts, does, k)
  }

  /** A run starts in an initial state, and each of its steps is one the machine can take. */
  ghost predicate IsRun<S(!new), A(!new)>(run: seq<S>, acts: seq<A>, init: S -> bool, does: (S, S, A) -> bool) {
    IsPath(run, acts, does) && init(run[0])
  }

  /** What holds at the start and survives every step holds in every state of the path. */
  lemma {:induction false} KeepAlong<S(!new), A(!new)>(
      run: seq<S>, acts: seq<A>, does: (S, S, A) -> bool, inv: S -> bool, k: nat)
    requires IsPath(run, acts, does) && k < |run| && inv(run[0])
    requires forall s, s', a :: inv(s) && does(s, s', a) ==> inv(s')
    ensures inv(run[k])
  {
    if k > 0 {
      KeepAlong(run, acts, does, inv, k - 1);
      assert StepAt(run, acts, does, k - 1);
    }
  }

  lemma KeepInvariant<S(!new), A(!new)>(
      run: seq<S>, acts: seq<A>, init: S -> bool, does: (S, S, A) -> bool, inv: S -> bool, k: nat)
    requires IsRun(run, acts, init, does) && k < |run|
    requires forall s :: init(s) ==> inv(s)
    requires forall s, s', a :: inv(s) && does(s, s', a) ==> inv(s')
    ensures inv(run[k])
  {
    KeepAlong(run, acts, does, inv, k);
  }

  /** Some path leads from `s` to `t`. */
  ghost predicate Reaches<S(!new), A(!new)>(s: S, t: S, does: (S, S, A) -> bool) {
    exists run, acts :: IsPath(run, acts, does) && run[0] == s && run[|run| - 1] == t
  }

  lemma ReachesItself<S(!new), A(!new)>(s: S, does: (S, S, A) -> bool)
    ensures Reaches(s, s, does)
  {
    assert IsPath([s], [], does);
  }

  /** One step more at the front. */
  lemma StepReaches<S(!new), A(!new)>(s: S, a: A, t: S, u: S, does: (S, S, A) -> bool)
    requires does(s, t, a) && Reaches(t, u, does)
    ensures Reaches(s, u, does)
  {
    var run, acts :| IsPath(run, acts, does) && run[0] == t && run[|run| - 1] == u;
    var run', acts' := [s] + run, [a] + acts;
    forall k: nat | k < |acts'|
      ensures StepAt(run', acts', does, k)
    {
      assert k > 0 ==> StepAt(run, acts, does, k - 1);
    }
    assert IsPath(run', acts', does) && run'[0] == s && run'[|run'| - 1] == u;
  }

  lemma ReachesOn<S(!new), A(!new)>(s: S, t: S, u: S, does: (S, S, A) -> bool)
    requires Reaches(s, t, does) && Reaches(t, u, does)
    ensures Reaches(s, u, does)
  {
    var run, acts :| IsPath(run, acts, does) && run[0] == s && run[|run| - 1] == t;
    PathReachesOn(run, acts, u, does);
  }

  lemma {:induction false} PathReachesOn<S(!new), A(!new)>(run: seq<S>, acts: seq<A>, u: S, does: (S, S, A) -> bool)
    requires IsPath(run, acts, does) && Reaches(run[|run| - 1], u, does)
    ensures Reaches(run[0], u, does)
    decreases |acts|
  {
    if acts != [] {
      assert StepAt(run, acts, does, 0);
      forall k: nat | k < |acts[1..]|
        ensures StepAt(run[1..], acts[1..], does, k)
      {
        assert StepAt(run, acts, does, k + 1);
      }
      PathReachesOn(run[1..], acts[1..], u, does);
      StepReaches(run[0], acts[0], run[1], u, does);
    }
  }

  lemma KeepReaching<S(!new), A(!new)>(s: S, t: S, does: (S, S, A) -> bool, inv: S -> bool)
    requires Reaches(s, t, does) && inv(s)
    requires forall s, s', a :: inv(s) && does(s, s', a) ==> inv(s')
    ensures inv(t)
  {
    var run, acts :| IsPath(run, acts, does) && run[0] == s && run[|run| - 1] == t;
    KeepAlong(run, acts, does, inv, |run| - 1);
  }
}
