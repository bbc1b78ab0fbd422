/**
  Replayable page faults (`Device::execute`). A command works run by run, a run being a range that is
  resident and contiguous in VRAM. When it meets a page that is not, it stops, remembers how far it got,
  and is executed again after the driver has moved pages about.
*/
module Replay {
  import opened Base
  import K = Kernel

  type Bytes = K.Bytes

  // ---------------------------------------------------------------------------------------------
  // Memory
  // ---------------------------------------------------------------------------------------------

  /** Where each mapped byte is: at an address in VRAM, or on the host. */
  datatype Store = Store(place: map<nat, Option<nat>>, vram: Bytes, host: map<nat, Byte>)

  function PageFloor(va: nat): (r: nat)
    ensures r <= va < r + PAGE_SIZE && r % PAGE_SIZE == 0
  {
    va - va % PAGE_SIZE
  }

  ghost predicate Separate(place: map<nat, Option<nat>>, a: nat, b: nat) {
    a in place && b in place && place[a].Some? && place[a] == place[b] ==> a == b
  }

  /** Bytes have a place each, and no two share one. */
  ghost predicate Placed(s: Store) {
    && (forall a :: a in s.place ==> if s.place[a].Some? then s.place[a].value < |s.vram| else a in s.host)
    && (forall a, b :: Separate(s.place, a, b))
  }

  /** The bytes of a page are together. */
  ghost predicate PageTogether(place: map<nat, Option<nat>>, a: nat, b: nat) {
    a in place && PageFloor(a) == PageFloor(b) ==>
      && b in place
      && (place[a].Some? <==> place[b].Some?)
      && (place[a].Some? ==> place[b].value + a == place[a].value + b)
  }

  ghost predicate Paged(place: map<nat, Option<nat>>) {
    forall a, b :: PageTogether(place, a, b)
  }

  ghost predicate Sound(s: Store) {
    Placed(s) && Paged(s.place)
  }

  /** The memory a program sees. */
  ghost function Mem(s: Store): (m: map<nat, Byte>)
    requires Placed(s)
  {
    map a | a in s.place :: if s.place[a].Some? then s.vram[s.place[a].value] else s.host[a]
  }

  ghost predicate Has(m: map<nat, Byte>, a: nat) {
    a in m
  }

  /** Every byte of the range is mapped. Stated by `Has` so that the verifier looks at each byte only where asked. */
  ghost predicate Mapped(m: map<nat, Byte>, va: nat, len: nat) {
    forall a: nat :: va <= a < va + len ==> Has(m, a)
  }

  /** The bytes at [va, va + len); an unmapped byte reads as zero here. */
  ghost function Slice(m: map<nat, Byte>, va: nat, len: nat): (r: Bytes)
    ensures |r| == len && forall i :: 0 <= i < len ==> r[i] == if va + i in m then m[va + i] else 0
  {
    seq(len, i requires 0 <= i < len => if va + i in m then m[va + i] else 0)
  }

  /** Storing `data` at `va`. */
  ghost function Patch(m: map<nat, Byte>, va: nat, data: Bytes): (r: map<nat, Byte>) {
    map a | a in m :: if va <= a < va + |data| then data[a - va] else m[a]
  }

  lemma PatchNothing(m: map<nat, Byte>, va: nat)
    ensures Patch(m, va, []) == m
  {
  }

  lemma PatchMore(m: map<nat, Byte>, va: nat, data: Bytes, k: nat, n: nat)
    requires k <= n <= |data|
    ensures Patch(Patch(m, va, data[..k]), va + k, data[k..n]) == Patch(m, va, data[..n])
  {
  }

  lemma SlicePatched(m: map<nat, Byte>, va: nat, data: Bytes, src: nat, len: nat)
    requires src + len <= va || va + |data| <= src
    ensures Slice(Patch(m, va, data), src, len) == Slice(m, src, len)
  {
  }

  /** [va, va + n) is resident at [base, base + n). */
  ghost predicate Resident(s: Store, va: nat, base: nat, n: nat) {
    forall a :: va <= a < va + n ==> a in s.place && s.place[a] == Some(base + a - va)
  }

  lemma ResidentIn(s: Store, va: nat, base: nat, n: nat)
    requires Placed(s) && Resident(s, va, base, n) && n > 0
    ensures base + n <= |s.vram| && Mapped(Mem(s), va, n) && s.vram[base..base + n] == Slice(Mem(s), va, n)
  {
    assert s.place[va + (n - 1)] == Some(base + (n - 1));
    forall i | 0 <= i < n
      ensures s.vram[base..base + n][i] == Slice(Mem(s), va, n)[i]
    {
      assert s.place[va + i] == Some(base + i);
    }
  }

  function Poke(s: Store, base: nat, data: Bytes): (r: Store)
    requires base + |data| <= |s.vram|
  {
    s.(vram := s.vram[..base] + data + s.vram[base + |data|..])
  }

  /** A store to the frames of a run is a store to its addresses, and to nothing else. */
  lemma PokePatches(s: Store, va: nat, base: nat, data: Bytes)
    requires Placed(s) && Resident(s, va, base, |data|) && base + |data| <= |s.vram|
    ensures Placed(Poke(s, base, data)) && Mem(Poke(s, base, data)) == Patch(Mem(s), va, data)
  {
    var s' := Poke(s, base, data);
    forall a | a in s.place
      ensures Mem(s')[a] == Patch(Mem(s), va, data)[a]
    {
      PokeAt(s, va, base, data, a);
    }
  }

  lemma PokeAt(s: Store, va: nat, base: nat, data: Bytes, a: nat)
    requires Placed(s) && Resident(s, va, base, |data|) && base + |data| <= |s.vram| && a in s.place
    ensures var place := s.place[a];
            (va <= a < va + |data| <==> place.Some? && base <= place.value < base + |data|)
            && (va <= a < va + |data| ==> place.value - base == a - va)
  {
    if s.place[a].Some? && base <= s.place[a].value < base + |data| {
      var i := s.place[a].value - base;
      assert s.place[va + i] == Some(base + i);
      assert Separate(s.place, a, va + i);
    }
  }

  // ---------------------------------------------------------------------------------------------
  // Commands
  // ---------------------------------------------------------------------------------------------

  /** What a kernel makes of the bytes of two sources. VADD works element by element; GEMM is any function. */
  datatype Kernel = Whole(f: (Bytes, Bytes) -> Bytes) | Each(n: nat, add: K.Add)

  function Applied(k: Kernel, x: Bytes, y: Bytes): (r: Bytes) {
    match k
    case Whole(f) => f(x, y)
    case Each(n, add) => if K.ELEMENT * n <= |x| && K.ELEMENT * n <= |y| then K.Sums(x, y, n, add) else []
  }

  /** H2D carries the bytes of its staging slot. `Compute` stands for VADD and GEMM. */
  datatype Command =
    | Fill(dst: nat, size: nat, value: Byte)
    | CopyH2D(dst: nat, data: Bytes)
    | CopyD2H(src: nat, size: nat)
    | CopyD2D(dst: nat, src: nat, size: nat)
    | Compute(dst: nat, size: nat, src: nat, len: nat, src1: nat, len1: nat, kernel: Kernel)

  function Repeat(value: Byte, n: nat): (r: Bytes)
    ensures |r| == n && forall i :: 0 <= i < n ==> r[i] == value
  {
    seq(n, _ => value)
  }

  predicate Overlap(dst: nat, src: nat, size: nat) {
    size > 0 && dst < src + size && src < dst + size
  }

  ghost predicate Apart(dst: nat, size: nat, src: nat, len: nat) {
    dst + size <= src || src + len <= dst
  }

  /** Every byte the command names is mapped. */
  ghost predicate Addressable(c: Command, m: map<nat, Byte>) {
    match c
    case Fill(dst, size, _) => Mapped(m, dst, size)
    case CopyH2D(dst, data) => Mapped(m, dst, |data|)
    case CopyD2H(src, size) => Mapped(m, src, size)
    case CopyD2D(dst, src, size) => Mapped(m, dst, size) && Mapped(m, src, size)
    case Compute(dst, size, src, len, src1, len1, _) =>
      && Mapped(m, dst, size) && Mapped(m, src, len)
      && Mapped(m, src1, len1)
  }

  /** A kernel that fills its destination. No source of GEMM overlaps it. A source of VADD may, if the destination is
      not behind it; VADD in place, for one. `Kernel.InPlaceIff` shows that this cannot be relaxed. */
  ghost predicate WellFormed(c: Command) {
    c.Compute? ==>
      match c.kernel
      case Whole(f) =>
        && Apart(c.dst, c.size, c.src, c.len) && Apart(c.dst, c.size, c.src1, c.len1)
        && forall x, y :: |f(x, y)| == c.size
      case Each(n, add) =>
        c.size == c.len == c.len1 == K.ELEMENT * n && K.Harmless(c.dst, c.src, n) && K.Harmless(c.dst, c.src1, n)
            && K.Sized(add)
  }

  /** The bytes the command produces, from the memory it starts with. */
  ghost function Produced(c: Command, m: map<nat, Byte>): (r: Bytes)
  {
    match c
    case Fill(_, size, value) => Repeat(value, size)
    case CopyH2D(_, data) => data
    case CopyD2H(src, size) => Slice(m, src, size)
    case CopyD2D(_, src, size) => Slice(m, src, size)
    case Compute(_, _, src, len, src1, len1, kernel) => Applied(kernel, Slice(m, src, len), Slice(m, src1, len1))
  }

  /** The memory after one atomic execution. D2H leaves it alone and fills a host buffer. */
  ghost function Atomic(c: Command, m: map<nat, Byte>): (r: map<nat, Byte>)
  {
    if c.CopyD2H? then m else Patch(m, c.dst, Produced(c, m))
  }

  datatype Status = Done | Faulted | Bad

  /** Replay: `done` bytes of the current phase are applied; a, b and c are the scratch buffers. */
  datatype Progress = Progress(done: nat, phase: nat, gather: bool, a: Bytes, b: Bytes, c: Bytes)

  const FRESH := Progress(0, 0, false, [], [], [])

  /** No command has left anything in the scratch buffers. */
  ghost predicate Clean(p: Progress) {
    p == FRESH.(done := p.done)
  }

  /** The first `done` bytes of the result are stored, and nothing else is changed. */
  ghost predicate Stored(c: Command, m0: map<nat, Byte>, m: map<nat, Byte>, done: nat)
    requires !c.CopyD2H?
  {
    && done <= |Produced(c, m0)| && m == Patch(m0, c.dst, Produced(c, m0)[..done])
    && Mapped(m0, c.dst, done)
  }

  /** What a command has done when it stops at a fault, and so what it relies on when it is resumed. */
  ghost predicate Resumable(c: Command, m0: map<nat, Byte>, out0: Bytes, m: map<nat, Byte>, out: Bytes, p: Progress) {
    match c
    case Fill(_, _, _) => Clean(p) && Stored(c, m0, m, p.done) && out == out0
    case CopyH2D(_, _) => Clean(p) && Stored(c, m0, m, p.done) && out == out0
    case CopyD2H(src, size) =>
      && Clean(p) && m == m0 && |out0| == size && p.done <= size && Mapped(m0, src, p.done)
      && out == Slice(m0, src, size)[..p.done] + out0[p.done..]
    case CopyD2D(dst, src, size) =>
      && out == out0
      && if Overlap(dst, src, size) then MoveResumable(c, m0, m, p)
         else Clean(p) && Stored(c, m0, m, p.done) && Mapped(m0, src, p.done)
    case Compute(_, _, _, _, _, _, _) => out == out0 && ComputeResumable(c, m0, m, p)
  }

  /** The same. Stated so that the verifier looks inside only where `Resumable` is mentioned. */
  ghost predicate Halfway(c: Command, m0: map<nat, Byte>, out0: Bytes, m: map<nat, Byte>, out: Bytes, p: Progress) {
    forall x {:trigger Resumable(c, x, out0, m, out, p)} :: x == m0 ==> Resumable(c, x, out0, m, out, p)
  }

  /** An overlapping copy: through scratch, so that no byte of the source is overwritten before it is read. */
  ghost predicate MoveResumable(c: Command, m0: map<nat, Byte>, m: map<nat, Byte>, p: Progress)
    requires c.CopyD2D?
  {
    if !p.gather then m == m0 && p == FRESH
    else if p.phase == 0 then m == m0 && Filled(p.a, m0, c.src, c.size, p.done)
    else p.phase == 1 && p.a == Slice(m0, c.src, c.size) && Mapped(m0, c.src, c.size) && Stored(c, m0, m, p.done)
  }

  ghost predicate ComputeResumable(c: Command, m0: map<nat, Byte>, m: map<nat, Byte>, p: Progress)
    requires c.Compute?
  {
    if !p.gather then m == m0 && p == FRESH
    else if p.phase == 0 then m == m0 && p.b == [] && Filled(p.a, m0, c.src, c.len, p.done)
    else
      && Mapped(m0, c.src, c.len)
      && if p.phase == 1 then m == m0 && p.a == Slice(m0, c.src, c.len) && Filled(p.b, m0, c.src1, c.len1, p.done)
         else p.phase == 3 && p.c == Produced(c, m0) && Stored(c, m0, m, p.done) && Mapped(m0, c.src1, c.len1)
  }

  /** What one execution of a command may end with. An error is reported exactly for a range that is not
      mapped, and even then nothing outside the destination changes. */
  ghost predicate Outcome(c: Command, m0: map<nat, Byte>, out0: Bytes, m: map<nat, Byte>, out: Bytes, p: Progress,
                          st: Status) {
    match st
    case Done =>
      && Addressable(c, m0) && m == Atomic(c, m0) && out == (if c.CopyD2H? then Produced(c, m0) else out0)
      && (p.gather || Clean(p))
    case Faulted => Resumable(c, m0, out0, m, out, p)
    case Bad =>
      && !Addressable(c, m0) && (if c.CopyD2H? then m == m0 else exists k :: Stored(c, m0, m, k))
      && (p.gather || Clean(p))
  }

  /** The first `done` bytes of a scratch buffer hold those of `full`. The buffer gets its size on first use. */
  ghost predicate Filled(buf: Bytes, m: map<nat, Byte>, va: nat, len: nat, done: nat) {
    && done <= len && Mapped(m, va, done)
    && if buf == [] then done == 0 else |buf| == len && buf[..done] == Slice(m, va, len)[..done]
  }

  lemma SamePage(place: map<nat, Option<nat>>, a: nat, b: nat)
    requires Paged(place) && PageFloor(a) == PageFloor(b)
    ensures a in place <==> b in place
    ensures a in place ==>
            (place[a].Some? <==> place[b].Some?) && (place[a].Some? ==> place[b].value + a == place[a].value + b)
  {
    assert PageTogether(place, a, b) && PageTogether(place, b, a);
  }

  /** A page that continues the run extends it to the end of the page. */
  lemma RunGrows(s: Store, va: nat, base: nat, got: nat, n: nat)
    requires Paged(s.place) && Resident(s, va, base, got) && va + got in s.place
             && s.place[va + got] == Some(base + got)
    requires n <= PAGE_SIZE - (va + got) % PAGE_SIZE
    ensures Resident(s, va, base, got + n)
  {
    forall a | va + got <= a < va + got + n
      ensures a in s.place && s.place[a] == Some(base + a - va)
    {
      SamePage(s.place, va + got, a);
    }
  }

  /** A run that continues what is mapped is mapped. */
  lemma MappedOn(s: Store, m0: map<nat, Byte>, va: nat, base: nat, k: nat, n: nat)
    requires k <= n && Placed(s) && Resident(s, va + k, base, n - k) && Mapped(m0, va, k)
    requires forall a :: a in Mem(s) ==> a in m0
    ensures Mapped(m0, va, n)
  {
    forall i | va <= i < va + n
      ensures Has(m0, i)
    {
      assert i < va + k ==> Has(m0, i);
      assert i >= va + k ==> i in s.place && i in Mem(s);
    }
  }

  lemma PokesMore(s: Store, m0: map<nat, Byte>, va: nat, base: nat, data: Bytes, k: nat, n: nat)
    requires Sound(s) && k <= n <= |data| && Mem(s) == Patch(m0, va, data[..k])
    requires Resident(s, va + k, base, n - k) && base + n - k <= |s.vram| && Mapped(m0, va, k)
    ensures Sound(Poke(s, base, data[k..n])) && Mem(Poke(s, base, data[k..n])) == Patch(m0, va, data[..n])
    ensures Mapped(m0, va, n)
  {
    MappedOn(s, m0, va, base, k, n);
    PokePatches(s, va + k, base, data[k..n]);
    PatchMore(m0, va, data, k, n);
  }

  /** Pages may have come into VRAM; those that were there have not moved, and no byte has changed. */
  ghost predicate Arrived(s: Store, s': Store) {
    && Sound(s) && Sound(s') && Mem(s') == Mem(s) && |s'.vram| == |s.vram|
    && forall a :: a in s.place && s.place[a].Some? ==> a in s'.place && s'.place[a] == s.place[a]
  }

  /** Pages that were in VRAM have not moved. */
  ghost predicate Stays(s: Store, s': Store) {
    && s'.place.Keys == s.place.Keys
    && forall a :: a in s.place && s.place[a].Some? ==> s'.place[a] == s.place[a]
  }

  lemma ArrivedStays(s: Store, s': Store)
    requires Arrived(s, s')
    ensures Stays(s, s')
  {
    assert forall a :: a in s.place <==> a in Mem(s);
    assert forall a :: a in s'.place <==> a in Mem(s');
  }

  ghost predicate Welcome(arrivals: (nat, Store) -> Store) {
    forall i, s :: Sound(s) ==> Arrived(s, arrivals(i, s))
  }

  lemma ArrivedOn(s: Store, t: Store, u: Store)
    requires Arrived(s, t) && Arrived(t, u)
    ensures Arrived(s, u)
  {
  }

  lemma ResidentStays(s: Store, s': Store, va: nat, base: nat, n: nat)
    requires Arrived(s, s') && Resident(s, va, base, n)
    ensures Resident(s', va, base, n)
  {
  }

  class Engine {
    var s: Store
    /** Progress of the command at the head of the channel. */
    var p: Progress
    /** The host buffer a D2H copy fills. */
    var out: Bytes

    /** Pages that migrate into VRAM while a command executes, for other channels or by prefetch. */
    var arrivals: (nat, Store) -> Store
    var now: nat

    /** Pages whose evictions are under way at some time during the execution. */
    var leaving: set<nat>
    /** The page of the last fault. */
    var fault: nat

    ghost predicate Ready()
      reads this
    {
      Sound(s) && Welcome(arrivals)
    }

    /** The byte's page is on the host, or on its way there. */
    ghost predicate Blocked(a: nat)
      reads this
    {
      BlockedIn(s, leaving, a)
    }

    /** The access to `a` has faulted. */
    ghost predicate FaultedAt(a: nat)
      reads this
    {
      fault == PageFloor(a) && Blocked(a)
    }

    /** Why an execution has stopped at a fault: byte `a`, which the command names, is not there. And it has come
        further, or nowhere because it needed that byte next. */
    ghost predicate StoppedAt(c: Command, p0: Progress, a: nat)
      reads this
    {
      Names(c, a) && FaultedAt(a) && (Left(c, p) < Left(c, p0) || (SamePlace(p0, p) && a in Needs(c, p)))
    }

    ghost predicate Explains(c: Command, p0: Progress, st: Status)
      reads this
    {
      st == Faulted ==> exists a: nat :: StoppedAt(c, p0, a)
    }

    /** A page that an eviction has shot down faults although its bytes have not moved yet. */
    method Translate(va: nat) returns (st: Status, pa: nat)
      requires Ready()
      modifies this`s, this`now, this`fault
      ensures Ready() && Arrived(old(s), s) && Stays(old(s), s)
      ensures st == Done ==> va in s.place && s.place[va] == Some(pa)
      ensures st == Faulted ==> FaultedAt(va)
      ensures st == Bad ==> va !in s.place
    {
      s, now := arrivals(now, s), now + 1;
      ArrivedStays(old(s), s);
      pa := 0;
      var page := PageFloor(va);
      SamePage(s.place, page, va);
      if page !in s.place {
        return Bad, pa;
      }
      var shotDown: bool := *;
      if s.place[page].None? || (page in leaving && shotDown) {
        fault := page;
        return Faulted, pa;
      }
      st, pa := Done, s.place[page].value + va % PAGE_SIZE;
    }

    /** A run at `va`: pages are added while their frames continue it. Only a fault on its first page is
        reported. */
    method RunAt(va: nat, len: nat) returns (st: Status, base: nat, n: nat)
      requires Ready() && len > 0
      modifies this`s, this`now, this`fault
      ensures Ready() && Arrived(old(s), s) && Stays(old(s), s)
      ensures st == Done ==> 0 < n <= len && Resident(s, va, base, n) && base + n <= |s.vram|
      ensures st == Faulted ==> FaultedAt(va)
      ensures st == Bad ==> va !in s.place
    {
      base, n := 0, 0;
      while n < len
        invariant n <= len && Ready() && Arrived(old(s), s) && Stays(old(s), s) && Resident(s, va, base, n)
        decreases len - n
      {
        var cur := va + n;
        ghost var was := s;
        var t, pa := Translate(cur);
        ResidentStays(was, s, va, base, n);
        ArrivedOn(old(s), was, s);
        if t != Done {
          if n > 0 {
            break;
          }
          return t, base, n;
        }
        if n == 0 {
          base := pa;
        } else if pa != base + n {
          break;
        }
        var step := if len - n < PAGE_SIZE - cur % PAGE_SIZE then len - n else PAGE_SIZE - cur % PAGE_SIZE;
        RunGrows(s, va, base, n, step);
        n := n + step;
      }
      ResidentIn(s, va, base, n);
      st := Done;
    }

    /** One run of it. */
    method WriteRun(va: nat, data: Bytes, ghost m0: map<nat, Byte>) returns (st: Status)
      requires Ready() && p.done < |data| && Mem(s) == Patch(m0, va, data[..p.done]) && Mapped(m0, va, p.done)
      modifies this`s, this`now, this`fault, this`p
      ensures Stays(old(s), s)
      ensures Ready() && p == old(p).(done := p.done)
      ensures p.done <= |data| && Mem(s) == Patch(m0, va, data[..p.done]) && Mapped(m0, va, p.done)
      ensures if st == Done then old(p).done < p.done else p == old(p)
      ensures st == Bad ==> !Mapped(m0, va, |data|)
      ensures st == Faulted ==> FaultedAt(va + p.done)
    {
      var base, n;
      st, base, n := RunAt(va + p.done, |data| - p.done);
      if st != Done {
        assert st == Bad ==> va + p.done !in Mem(s) && !Has(m0, va + p.done);
        return;
      }
      var k := p.done + n;
      PokesMore(s, m0, va, base, data, p.done, k);
      s := Poke(s, base, data[p.done..k]);
      p := p.(done := k);
    }

    /** for_runs with a store: [va, va + |data|) from `p.done` on. */
    method WriteRuns(va: nat, data: Bytes, ghost m0: map<nat, Byte>) returns (st: Status)
      requires Ready() && p.done <= |data| && Mem(s) == Patch(m0, va, data[..p.done]) && Mapped(m0, va, p.done)
      modifies this`s, this`now, this`fault, this`p
      ensures Stays(old(s), s)
      ensures Ready() && p == old(p).(done := p.done)
      ensures old(p).done <= p.done <= |data| && Mem(s) == Patch(m0, va, data[..p.done]) && Mapped(m0, va, p.done)
      ensures st == Done ==> p.done == |data|
      ensures st == Faulted ==> p.done < |data| && FaultedAt(va + p.done)
      ensures st == Bad ==> !Mapped(m0, va, |data|)
    {
      while p.done < |data|
        invariant Stays(old(s), s) && Ready() && p == old(p).(done := p.done)
        invariant old(p).done <= p.done <= |data| && Mem(s) == Patch(m0, va, data[..p.done]) && Mapped(m0, va, p.done)
        decreases |data| - p.done
      {
        st := WriteRun(va, data, m0);
        if st != Done {
          return;
        }
      }
      st := Done;
    }

    /** One run of a load into a buffer that was `buf0` before the first. */
    method ReadRun(va: nat, buf: Bytes, ghost buf0: Bytes) returns (st: Status, r: Bytes)
      requires Ready() && p.done < |buf| == |buf0| && Mapped(Mem(s), va, p.done)
      requires buf == Slice(Mem(s), va, |buf0|)[..p.done] + buf0[p.done..]
      modifies this`s, this`now, this`fault, this`p
      ensures Stays(old(s), s)
      ensures Ready() && Mem(s) == old(Mem(s)) && p == old(p).(done := p.done) && p.done <= |r| == |buf0|
      ensures r == Slice(Mem(s), va, |buf0|)[..p.done] + buf0[p.done..] && Mapped(Mem(s), va, p.done)
      ensures if st == Done then old(p).done < p.done else p == old(p)
      ensures st == Bad ==> !Mapped(Mem(s), va, |buf0|)
      ensures st == Faulted ==> FaultedAt(va + p.done)
    {
      var base, n;
      r := buf;
      ghost var mem := Mem(s);
      st, base, n := RunAt(va + p.done, |buf| - p.done);
      if st != Done {
        assert st == Bad ==> !Has(Mem(s), va + p.done);
        return;
      }
      var k := p.done + n;
      MappedOn(s, mem, va, base, p.done, k);
      r := buf[..p.done] + s.vram[base..base + n] + buf[k..];
      assert r == Slice(mem, va, |buf0|)[..k] + buf0[k..] by {
        LoadsMore(s, mem, va, |buf0|, p.done, k, base);
      }
      p := p.(done := k);
    }

    /** for_runs with a load: copies [va, va + |buf|) into `buf` from `p.done` on. */
    method ReadRuns(va: nat, buf0: Bytes) returns (st: Status, buf: Bytes)
      requires Ready() && p.done <= |buf0| && buf0[..p.done] == Slice(Mem(s), va, |buf0|)[..p.done]
      requires Mapped(Mem(s), va, p.done)
      modifies this`s, this`now, this`fault, this`p
      ensures Stays(old(s), s)
      ensures Ready() && Mem(s) == old(Mem(s)) && p == old(p).(done := p.done)
              && old(p).done <= p.done <= |buf0| == |buf|
      ensures buf == Slice(Mem(s), va, |buf0|)[..p.done] + buf0[p.done..]
      ensures Mapped(Mem(s), va, p.done)
      ensures st == Done ==> p.done == |buf|
      ensures st == Faulted ==> p.done < |buf| && FaultedAt(va + p.done)
      ensures st == Bad ==> !Mapped(Mem(s), va, |buf|)
    {
      buf := buf0;
      ghost var mem := Mem(s);
      while p.done < |buf|
        invariant Stays(old(s), s) && Ready() && Mem(s) == mem && p == old(p).(done := p.done)
        invariant old(p).done <= p.done <= |buf0| == |buf| && Mapped(mem, va, p.done)
        invariant buf == Slice(mem, va, |buf0|)[..p.done] + buf0[p.done..]
        decreases |buf| - p.done
      {
        st, buf := ReadRun(va, buf, buf0);
        if st != Done {
          return;
        }
      }
      st := Done;
    }

    /** FILL and H2D: one store, run by run. */
    method ExecuteStore(c: Command, dst: nat, data: Bytes, ghost m0: map<nat, Byte>) returns (st: Status)
      requires (c.Fill? || c.CopyH2D?) && dst == c.dst && data == Produced(c, m0)
      requires Ready() && Resumable(c, m0, out, Mem(s), out, p)
      modifies this`s, this`now, this`fault, this`p
      ensures Stays(old(s), s)
      ensures Ready() && Outcome(c, m0, out, Mem(s), out, p, st) && Explains(c, old(p), st)
    {
      st := WriteRuns(dst, data, m0);
      assert data[..|data|] == data;
      assert Stored(c, m0, Mem(s), p.done);
      assert st == Faulted ==> StoppedAt(c, old(p), dst + p.done);
    }

    method ExecuteD2H(c: Command, ghost m0: map<nat, Byte>, ghost out0: Bytes) returns (st: Status)
      requires c.CopyD2H? && Ready() && Resumable(c, m0, out0, Mem(s), out, p)
      modifies this`s, this`now, this`fault, this`p, this`out
      ensures Stays(old(s), s)
      ensures Ready() && Outcome(c, m0, out0, Mem(s), out, p, st) && Explains(c, old(p), st)
    {
      st, out := ReadRuns(c.src, out);
      assert st == Faulted ==> StoppedAt(c, old(p), c.src + p.done);
    }

    /** The runs of both sides of a copy, cut to the shorter one. */
    method BothRunsAt(to: nat, from: nat, len: nat) returns (st: Status, dst: nat, src: nat, n: nat)
      requires Ready() && len > 0
      modifies this`s, this`now, this`fault
      ensures Stays(old(s), s)
      ensures Ready() && Mem(s) == old(Mem(s))
      ensures st == Done ==>
              0 < n <= len && Resident(s, to, dst, n) && Resident(s, from, src, n) && dst + n <= |s.vram|
              && src + n <= |s.vram|
      ensures st == Bad ==> to !in s.place || from !in s.place
      ensures st == Faulted ==> FaultedAt(to) || FaultedAt(from)
    {
      var nd, ns;
      src := 0;
      st, dst, nd := RunAt(to, len);
      n := nd;
      if st != Done {
        return;
      }
      ghost var was := s;
      st, src, ns := RunAt(from, len);
      if st != Done {
        return;
      }
      ResidentStays(was, s, to, dst, nd);
      n := if nd < ns then nd else ns;
    }

    /** One step of a forward copy, as far as the runs of both sides reach. */
    method CopyRun(c: Command, ghost m0: map<nat, Byte>) returns (st: Status)
      requires c.CopyD2D? && !Overlap(c.dst, c.src, c.size) && Ready() && Stored(c, m0, Mem(s), p.done)
               && Mapped(m0, c.src, p.done) && p.done < c.size
      modifies this`s, this`now, this`fault, this`p
      ensures Stays(old(s), s)
      ensures Ready() && p == old(p).(done := p.done) && Stored(c, m0, Mem(s), p.done) && Mapped(m0, c.src, p.done)
      ensures if st == Done then old(p).done < p.done else p == old(p)
      ensures st == Faulted ==> FaultedAt(c.dst + p.done) || FaultedAt(c.src + p.done)
      ensures st == Bad ==> !Addressable(c, m0)
    {
      var dst, src, n;
      st, dst, src, n := BothRunsAt(c.dst + p.done, c.src + p.done, c.size - p.done);
      if st != Done {
        assert st == Bad ==> !Addressable(c, m0) by {
          NotAddressable(s, c, m0, p.done);
        }
        return;
      }
      CopyTo(c, m0, dst, src, n);
    }

    method CopyTo(c: Command, ghost m0: map<nat, Byte>, dst: nat, src: nat, n: nat)
      requires c.CopyD2D? && !Overlap(c.dst, c.src, c.size) && Sound(s) && Stored(c, m0, Mem(s), p.done)
      requires 0 < n && p.done + n <= c.size && Mapped(m0, c.src, p.done)
      requires Resident(s, c.src + p.done, src, n) && src + n <= |s.vram|
      requires Resident(s, c.dst + p.done, dst, n) && dst + n <= |s.vram|
      modifies this`s, this`p
      ensures s == old(Poke(s, dst, s.vram[src..src + n])) && p == old(p).(done := old(p).done + n)
      ensures Sound(s) && Stored(c, m0, Mem(s), p.done) && Mapped(m0, c.src, p.done)
    {
      CopyAdvances(s, c, m0, p.done, n, dst, src);
      s := Poke(s, dst, s.vram[src..src + n]);
      p := p.(done := p.done + n);
    }

    /** A copy whose ranges do not overlap. */
    method CopyRuns(c: Command, ghost m0: map<nat, Byte>) returns (st: Status)
      requires c.CopyD2D? && !Overlap(c.dst, c.src, c.size) && Ready() && Stored(c, m0, Mem(s), p.done)
      requires Mapped(m0, c.src, p.done)
      modifies this`s, this`now, this`fault, this`p
      ensures Stays(old(s), s)
      ensures Ready() && p == old(p).(done := p.done) && Stored(c, m0, Mem(s), p.done) && Mapped(m0, c.src, p.done)
      ensures st == Done ==> p.done == c.size
      ensures st == Faulted ==> p.done < c.size && (FaultedAt(c.dst + p.done) || FaultedAt(c.src + p.done))
      ensures old(p).done <= p.done
      ensures st == Bad ==> !Addressable(c, m0)
    {
      while p.done < c.size
        invariant Stays(old(s), s) && Ready() && p == old(p).(done := p.done) && Stored(c, m0, Mem(s), p.done)
                  && old(p).done <= p.done
        invariant Mapped(m0, c.src, p.done)
        decreases c.size - p.done
      {
        st := CopyRun(c, m0);
        if st != Done {
          return;
        }
      }
      st := Done;
    }

    method ExecuteCopy(c: Command, ghost m0: map<nat, Byte>) returns (st: Status)
      requires c.CopyD2D? && !Overlap(c.dst, c.src, c.size) && Ready() && Resumable(c, m0, out, Mem(s), out, p)
      modifies this`s, this`now, this`fault, this`p
      ensures Stays(old(s), s)
      ensures Ready() && Outcome(c, m0, out, Mem(s), out, p, st) && Explains(c, old(p), st)
    {
      st := CopyRuns(c, m0);
      assert Produced(c, m0)[..c.size] == Produced(c, m0);
      if st == Faulted {
        assert StoppedAt(c, old(p), c.dst + p.done) || StoppedAt(c, old(p), c.src + p.done);
      }
    }

    /** Resolves a whole range to one run. `split` is set for a range that is resident but not one run. */
    method Resolve(va: nat, len: nat) returns (st: Status, split: bool, base: nat)
      requires Ready()
      modifies this`s, this`now, this`fault
      ensures Stays(old(s), s)
      ensures Ready() && Arrived(old(s), s)
      ensures st == Done && !split ==> Resident(s, va, base, len) && base + len <= |s.vram|
      ensures st == Faulted ==> len > 0 && FaultedAt(va)
      ensures st == Bad ==> !Mapped(Mem(s), va, len)
    {
      if len == 0 {
        return Done, false, 0;
      }
      var n;
      st, base, n := RunAt(va, len);
      split := n < len;
      assert st == Bad ==> !Has(Mem(s), va);
    }

    /** Moves [va, va + len) into a scratch buffer. */
    method Gather(va: nat, len: nat, buf0: Bytes) returns (st: Status, buf: Bytes)
      requires Ready() && Filled(buf0, Mem(s), va, len, p.done)
      modifies this`s, this`now, this`fault, this`p
      ensures Stays(old(s), s)
      ensures Ready() && Mem(s) == old(Mem(s)) && p == old(p).(done := p.done)
      ensures Filled(buf, Mem(s), va, len, p.done) && old(p).done <= p.done
      ensures st == Done ==> buf == Slice(Mem(s), va, len) && Mapped(Mem(s), va, len)
      ensures st == Faulted ==> p.done < len && FaultedAt(va + p.done)
      ensures st == Bad ==> !Mapped(Mem(s), va, len)
    {
      buf := if |buf0| < len then buf0 + Repeat(0, len - |buf0|) else buf0;
      assert buf[..p.done] == Slice(Mem(s), va, len)[..p.done];
      st, buf := ReadRuns(va, buf);
    }

    /** Moves a scratch buffer to the destination. */
    method Scatter(c: Command, data: Bytes, ghost m0: map<nat, Byte>) returns (st: Status)
      requires (c.CopyD2D? || c.Compute?) && data == Produced(c, m0)
      requires Ready() && Stored(c, m0, Mem(s), p.done)
      modifies this`s, this`now, this`fault, this`p
      ensures Stays(old(s), s)
      ensures Ready() && p == old(p).(done := p.done) && Stored(c, m0, Mem(s), p.done)
      ensures st == Done ==> Mem(s) == Atomic(c, m0) && Mapped(m0, c.dst, |data|)
      ensures st == Bad ==> !Mapped(m0, c.dst, |data|)
      ensures old(p).done <= p.done && (st == Faulted ==> p.done < |data| && FaultedAt(c.dst + p.done))
    {
      st := WriteRuns(c.dst, data, m0);
      assert data[..|data|] == data;
    }

    /** Both ranges of an overlapping copy are one run each: memmove. */
    method MoveDirect(c: Command, ghost m0: map<nat, Byte>) returns (st: Status, split: bool)
      requires c.CopyD2D? && Ready() && Mem(s) == m0
      modifies this`s, this`now, this`fault
      ensures Stays(old(s), s)
      ensures Ready()
      ensures if st == Done && !split then Mem(s) == Atomic(c, m0) && Addressable(c, m0) else Mem(s) == m0
      ensures st == Bad ==> !Addressable(c, m0)
      ensures st == Faulted ==> exists a: nat :: Names(c, a) && FaultedAt(a)
    {
      var dst, src;
      st, split, dst := Resolve(c.dst, c.size);
      if st != Done || split {
        return;
      }
      ghost var was := s;
      st, split, src := Resolve(c.src, c.size);
      if st != Done || split {
        return;
      }
      ResidentStays(was, s, c.dst, dst, c.size);
      MoveAtOnce(s, c, m0, dst, src);
      s := Poke(s, dst, s.vram[src..src + c.size]);
    }

    /** An overlapping copy needs memmove: one run per side, or via scratch. */
    method ExecuteMove(c: Command, ghost m0: map<nat, Byte>) returns (st: Status)
      requires c.CopyD2D? && Overlap(c.dst, c.src, c.size) && Ready() && Resumable(c, m0, out, Mem(s), out, p)
      modifies this`s, this`now, this`fault, this`p
      ensures Stays(old(s), s)
      ensures Ready() && Outcome(c, m0, out, Mem(s), out, p, st) && Explains(c, old(p), st)
    {
      if !p.gather {
        var split;
        st, split := MoveDirect(c, m0);
        if st == Bad || (st == Done && !split) {
          assert st == Bad ==> Stored(c, m0, Mem(s), 0) by {
            NothingStored(c, m0);
          }
          return;
        }
        p := p.(gather := true);
        if st == Faulted {
          ghost var a: nat :| Names(c, a) && FaultedAt(a);
          assert StoppedAt(c, old(p), a);
          return;
        }
      }
      ghost var p1 := p;
      st := MoveGathered(c, m0);
      if st == Faulted {
        ghost var a: nat :| StoppedAt(c, p1, a);
        assert StoppedAt(c, old(p), a);
      }
    }

    /** Via scratch. */
    method MoveGathered(c: Command, ghost m0: map<nat, Byte>) returns (st: Status)
      requires c.CopyD2D? && Overlap(c.dst, c.src, c.size) && Ready() && p.gather && MoveResumable(c, m0, Mem(s), p)
      modifies this`s, this`now, this`fault, this`p
      ensures Stays(old(s), s)
      ensures Ready() && p.gather && Outcome(c, m0, out, Mem(s), out, p, st) && Explains(c, old(p), st)
    {
      NothingStored(c, m0);
      if p.phase == 0 {
        st := MoveGather(c);
        if st != Done {
          assert st == Faulted ==> StoppedAt(c, old(p), c.src + p.done);
          return;
        }
      }
      st := Scatter(c, p.a, m0);
      assert st == Faulted ==> StoppedAt(c, old(p), c.dst + p.done);
    }

    /** The source goes to the scratch buffer. */
    method MoveGather(c: Command) returns (st: Status)
      requires c.CopyD2D? && p.gather && p.phase == 0 && Ready() && Filled(p.a, Mem(s), c.src, c.size, p.done)
      modifies this`s, this`now, this`fault, this`p
      ensures Stays(old(s), s)
      ensures Ready() && Mem(s) == old(Mem(s)) && p == old(p).(a := p.a, done := p.done, phase := p.phase)
      ensures if st == Done then p.phase == 1 && p.done == 0 && p.a == Slice(Mem(s), c.src, c.size)
              && Mapped(Mem(s), c.src, c.size)
              else p.phase == 0 && Filled(p.a, Mem(s), c.src, c.size, p.done) && old(p).done <= p.done
      ensures st == Faulted ==> p.done < c.size && FaultedAt(c.src + p.done)
      ensures st == Bad ==> !Mapped(Mem(s), c.src, c.size)
    {
      var a;
      st, a := Gather(c.src, c.size, p.a);
      p := p.(a := a);
      if st == Done {
        p := p.(phase := 1, done := 0);
      }
    }

    /** Two sources and a destination that are one run each: compute in place. */
    method ComputeDirect(c: Command, ghost m0: map<nat, Byte>) returns (st: Status, split: bool)
      requires c.Compute? && WellFormed(c) && Ready() && Mem(s) == m0
      modifies this`s, this`now, this`fault
      ensures Stays(old(s), s)
      ensures Ready()
      ensures if st == Done && !split then Mem(s) == Atomic(c, m0) && Addressable(c, m0) else Mem(s) == m0
      ensures st == Bad ==> !Addressable(c, m0)
      ensures st == Faulted ==> exists a: nat :: Names(c, a) && FaultedAt(a)
    {
      var src, src1, dst;
      st, split, src := Resolve(c.src, c.len);
      if st != Done || split {
        return;
      }
      ghost var s1 := s;
      st, split, src1 := Resolve(c.src1, c.len1);
      if st != Done || split {
        return;
      }
      ghost var s2 := s;
      st, split, dst := Resolve(c.dst, c.size);
      if st != Done || split {
        return;
      }
      ArrivedOn(s1, s2, s);
      ResidentStays(s1, s, c.src, src, c.len);
      ResidentStays(s2, s, c.src1, src1, c.len1);
      ComputeAtOnce(s, c, m0, dst, src, src1);
      RunKernel(c, dst, src, src1);
    }

    /** The kernel on the frames of its operands. */
    method RunKernel(c: Command, dst: nat, src: nat, src1: nat)
      requires c.Compute? && WellFormed(c) && Placed(s)
      requires Resident(s, c.dst, dst, c.size) && dst + c.size <= |s.vram|
      requires Resident(s, c.src, src, c.len) && src + c.len <= |s.vram|
      requires Resident(s, c.src1, src1, c.len1) && src1 + c.len1 <= |s.vram|
      requires |FromFrames(s, c, src, src1)| == c.size
      modifies this`s
      ensures Stays(old(s), s)
      ensures s == old(Poke(s, dst, FromFrames(s, c, src, src1)))
    {
      match c.kernel {
        case Whole(f) =>
          s := Poke(s, dst, f(s.vram[src..src + c.len], s.vram[src1..src1 + c.len1]));
        case Each(n, add) =>
          InPlaceAtOnce(s, c, dst, src, src1);
          var vram := K.Loop(s.vram, dst, src, src1, n, add);
          s := s.(vram := vram);
      }
    }

    /** The first source goes to its scratch buffer. */
    method GatherFirst(c: Command, ghost m0: map<nat, Byte>) returns (st: Status)
      requires c.Compute? && p.gather && p.phase == 0 && Ready() && ComputeResumable(c, m0, Mem(s), p)
      modifies this`s, this`now, this`fault, this`p
      ensures Stays(old(s), s)
      ensures Ready() && p.gather && ComputeResumable(c, m0, Mem(s), p) && Mem(s) == m0
      ensures st == Done ==> p.phase == 1 && p.done == 0
      ensures st == Bad ==> !Addressable(c, m0)
      ensures Explains(c, old(p), st)
    {
      var a;
      st, a := Gather(c.src, c.len, p.a);
      p := p.(a := a);
      if st == Done {
        p := p.(phase := 1, done := 0);
      }
      assert st == Faulted ==> StoppedAt(c, old(p), c.src + p.done);
    }

    /** The second source goes to its scratch buffer, and the kernel runs there. */
    method GatherSecond(c: Command, ghost m0: map<nat, Byte>) returns (st: Status)
      requires c.Compute? && p.gather && p.phase == 1 && Ready() && ComputeResumable(c, m0, Mem(s), p)
      modifies this`s, this`now, this`fault, this`p
      ensures Stays(old(s), s)
      ensures Ready() && p.gather && ComputeResumable(c, m0, Mem(s), p) && Mem(s) == m0
      ensures st == Done ==> p.phase == 3 && p.done == 0
      ensures st == Bad ==> !Addressable(c, m0)
      ensures Explains(c, old(p), st)
    {
      var b;
      st, b := Gather(c.src1, c.len1, p.b);
      p := p.(b := b);
      if st == Done {
        p := p.(phase := 3, done := 0, c := Applied(c.kernel, p.a, p.b));
        NothingStored(c, m0);
      }
      assert st == Faulted ==> StoppedAt(c, old(p), c.src1 + p.done);
    }

    /** Gathers what is left to gather of the operands, and computes. */
    method ComputeGather(c: Command, ghost m0: map<nat, Byte>) returns (st: Status)
      requires c.Compute? && p.gather && Ready() && ComputeResumable(c, m0, Mem(s), p)
      modifies this`s, this`now, this`fault, this`p
      ensures Stays(old(s), s)
      ensures Ready() && p.gather && ComputeResumable(c, m0, Mem(s), p)
      ensures st == Done ==> p.phase == 3 && if old(p).phase == 3 then p == old(p) else p.done == 0
      ensures st == Bad ==> !Addressable(c, m0) && Mem(s) == m0
      ensures Explains(c, old(p), st)
    {
      if p.phase == 0 {
        st := GatherFirst(c, m0);
        if st != Done {
          return;
        }
      }
      if p.phase == 1 {
        ghost var p1 := p;
        st := GatherSecond(c, m0);
        if st == Faulted {
          ghost var a: nat :| StoppedAt(c, p1, a);
          assert StoppedAt(c, old(p), a);
        }
        if st != Done {
          return;
        }
      }
      st := Done;
    }

    method ExecuteCompute(c: Command, ghost m0: map<nat, Byte>) returns (st: Status)
      requires c.Compute? && WellFormed(c) && Ready() && Resumable(c, m0, out, Mem(s), out, p)
      modifies this`s, this`now, this`fault, this`p
      ensures Stays(old(s), s)
      ensures Ready() && Outcome(c, m0, out, Mem(s), out, p, st) && Explains(c, old(p), st)
    {
      if !p.gather {
        var split;
        st, split := ComputeDirect(c, m0);
        if st == Bad || (st == Done && !split) {
          assert st == Bad ==> Stored(c, m0, Mem(s), 0) by {
            NothingStored(c, m0);
          }
          return;
        }
        p := p.(gather := true);
        if st == Faulted {
          ghost var a: nat :| Names(c, a) && FaultedAt(a);
          assert StoppedAt(c, old(p), a);
          return;
        }
      }
      ghost var p1 := p;
      st := ComputeGathered(c, m0);
      if st == Faulted {
        ghost var a: nat :| StoppedAt(c, p1, a);
        assert StoppedAt(c, old(p), a);
      }
    }

    /** Via scratch. */
    method ComputeGathered(c: Command, ghost m0: map<nat, Byte>) returns (st: Status)
      requires c.Compute? && WellFormed(c) && Ready() && p.gather && ComputeResumable(c, m0, Mem(s), p)
      modifies this`s, this`now, this`fault, this`p
      ensures Stays(old(s), s)
      ensures Ready() && p.gather && Outcome(c, m0, out, Mem(s), out, p, st) && Explains(c, old(p), st)
    {
      st := ComputeGather(c, m0);
      if st != Done {
        assert st == Bad ==> Stored(c, m0, Mem(s), 0) by {
          NothingStored(c, m0);
        }
        return;
      }
      ProducedSize(c, m0);
      st := Scatter(c, p.c, m0);
      assert st == Faulted ==> StoppedAt(c, old(p), c.dst + p.done);
    }

    /** One execution of the command at the head of the channel. */
    method Execute(c: Command, ghost m0: map<nat, Byte>, ghost out0: Bytes) returns (st: Status)
      requires Ready() && WellFormed(c) && Resumable(c, m0, out0, Mem(s), out, p)
      modifies this`s, this`now, this`fault, this`p, this`out
      ensures Stays(old(s), s)
      ensures Ready() && Outcome(c, m0, out0, Mem(s), out, p, st) && Explains(c, old(p), st)
    {
      match c {
        case Fill(dst, size, value) => st := ExecuteStore(c, dst, Repeat(value, size), m0);
        case CopyH2D(dst, data) => st := ExecuteStore(c, dst, data, m0);
        case CopyD2H(_, _) => st := ExecuteD2H(c, m0, out0);
        case CopyD2D(dst, src, size) =>
          if Overlap(dst, src, size) {
            st := ExecuteMove(c, m0);
          } else {
            st := ExecuteCopy(c, m0);
          }
        case Compute(_, _, _, _, _, _, _) => st := ExecuteCompute(c, m0);
      }
    }

    /** What the driver and others do after a fault. */
    method Elapse(c: Command, attempt: nat, world: Outside, ghost m0: map<nat, Byte>, ghost out0: Bytes)
        returns (ghost m1: map<nat, Byte>)
      requires Ready() && Elsewhere(c, world) && WellFormed(c) && Halfway(c, m0, out0, Mem(s), out, p)
      modifies this`s, this`leaving
      ensures Ready() && Halfway(c, m1, out0, Mem(s), out, p) && Agree(c, m1, m0)
      ensures ContentPreserving(world) ==> m1 == m0
      ensures var now := old(Moment(attempt, p, fault, leaving));
              s == world.moves(now, old(s)) && leaving == world.shots(now)
    {
      assert Resumable(c, m0, out0, Mem(s), out, p);
      var now := Moment(attempt, p, fault, leaving);
      ghost var was := Mem(s);
      s, leaving := world.moves(now, s), world.shots(now);
      Rebases(c, m0, out0, was, Mem(s), out, p);
      RebasedSame(c, m0, out0, was, out, p);
      m1 := Rebased(c, m0, Mem(s));
    }

    /** One execution and, if it faults, what happens then. */
    method Attempt(c: Command, attempt: nat, world: Outside, ghost m0: map<nat, Byte>, ghost out0: Bytes)
        returns (st: Status, ghost m1: map<nat, Byte>)
      requires Ready() && Elsewhere(c, world) && WellFormed(c) && Halfway(c, m0, out0, Mem(s), out, p)
      modifies this`s, this`now, this`fault, this`leaving, this`p, this`out
      ensures Ready() && Agree(c, m1, m0) && (ContentPreserving(world) ==> m1 == m0)
      ensures if st == Faulted then Halfway(c, m1, out0, Mem(s), out, p)
              else m1 == m0 && Outcome(c, m0, out0, Mem(s), out, p, st)
      ensures st == Faulted && Feeds(c, world) ==> BudgetOf(c, p, s, leaving) < old(BudgetOf(c, p, s, leaving))
      ensures old(AllThere(c, s, leaving)) ==> st != Faulted
    {
      assert Resumable(c, m0, out0, Mem(s), out, p);
      ghost var p0, s0 := p, s;
      st := Execute(c, m0, out0);
      m1 := m0;
      if st == Faulted {
        ghost var a: nat :| StoppedAt(c, p0, a);
        ghost var now, s1 := Moment(attempt, p, fault, leaving), s;
        assert BlockedIn(s1, leaving, a) && !AllThere(c, s0, leaving);
        m1 := Elapse(c, attempt, world, m0, out0);
        assert Feeds(c, world) ==> BudgetOf(c, p, s, leaving) < BudgetOf(c, p0, s0, now.leaving) by {
          if Feeds(c, world) {
            BudgetFalls(c, p0, s0, s1, now, a, world);
          }
        }
      }
    }

    /** The command has ended: its record is cleared. */
    method Retire(c: Command, st: Status, ghost m0: map<nat, Byte>, ghost out0: Bytes)
      requires Sound(s) && st != Faulted && Outcome(c, m0, out0, Mem(s), out, p, st)
      modifies this`p
      ensures p == FRESH && (st == Done <==> Addressable(c, m0))
      ensures st == Done ==> Mem(s) == Atomic(c, m0) && out == if c.CopyD2H? then Produced(c, m0) else out0
      ensures st == Bad ==> if c.CopyD2H? then Mem(s) == m0 else exists k :: Stored(c, m0, Mem(s), k)
    {
      ghost var m := Mem(s);
      p := if p.gather then FRESH else p.(done := 0);
      assert Mem(s) == m;
    }

    /**
      A command from the head of its channel to its retirement, with `patience` executions at most. However often it
      faults, wherever pages are moved between and during its executions, and whatever other commands write outside
      its ranges meanwhile, it ends like one atomic execution, or with an error if and only if a byte it names is not
      mapped. `m0` is the memory without it: what was there at the start, with the others' writes.

      And it does end, if each fault brings the page that faulted and leaves alone the bytes it needs next, two at
      most, however much of the rest of it is evicted meanwhile.
    */
    method Serve(c: Command, patience: nat, world: Outside) returns (retired: bool, ok: bool, ghost m0: map<nat, Byte>)
      requires Ready() && Elsewhere(c, world) && WellFormed(c) && p == FRESH && (c.CopyD2H? ==> |out| == c.size)
      modifies this`s, this`now, this`fault, this`leaving, this`p, this`out
      ensures Ready() && Agree(c, m0, old(Mem(s)))
      ensures ContentPreserving(world) ==> m0 == old(Mem(s))
      ensures retired ==> p == FRESH
      ensures retired ==> (ok <==> Addressable(c, old(Mem(s))))
      ensures retired && ok ==>
              Mem(s) == Atomic(c, m0) && out == (if c.CopyD2H? then Produced(c, old(Mem(s))) else old(out))
      ensures retired && !ok ==> if c.CopyD2H? then Mem(s) == m0 else exists k :: Stored(c, m0, Mem(s), k)
      ensures Feeds(c, world) && patience > 3 * Left(c, FRESH) + 2 ==> retired
      ensures patience > 0 && old(AllThere(c, s, leaving)) ==> retired && ok
    {
      ghost var out0, there := out, AllThere(c, s, leaving);
      m0 := Mem(s);
      if there {
        ThereIsAddressable(c, s, leaving);
      }
      StartsResumable(c, m0, out0);
      MissingFew(c, p, s, leaving);
      for attempt := 0 to patience
        invariant Ready() && Halfway(c, m0, out0, Mem(s), out, p) && Agree(c, m0, old(Mem(s)))
        invariant ContentPreserving(world) ==> m0 == old(Mem(s))
        invariant Feeds(c, world) ==> BudgetOf(c, p, s, leaving) + attempt <= 3 * Left(c, FRESH) + 2
        invariant there ==> attempt == 0 && AllThere(c, s, leaving)
      {
        var st;
        ghost var m1;
        AgreeProduces(c, m0, old(Mem(s)));
        st, m1 := Attempt(c, attempt, world, m0, out0);
        if st != Faulted {
          Retire(c, st, m0, out0);
          return true, st == Done, m0;
        }
        AgreeOn(c, m1, m0, old(Mem(s)));
        m0 := m1;
      }
      retired, ok := false, false;
    }
  }

  // ---------------------------------------------------------------------------------------------
  // How far a command is from its end
  // ---------------------------------------------------------------------------------------------

  /** The byte's page is on the host, or on its way there. */
  ghost predicate BlockedIn(s: Store, leaving: set<nat>, a: nat) {
    a in s.place && (s.place[a].None? || PageFloor(a) in leaving)
  }

  /** Every byte that the command names is in VRAM and stays there. */
  ghost predicate AllThere(c: Command, s: Store, leaving: set<nat>) {
    forall a: nat :: Names(c, a) ==> a in s.place && !BlockedIn(s, leaving, a)
  }

  lemma ThereIsAddressable(c: Command, s: Store, leaving: set<nat>)
    requires Placed(s) && AllThere(c, s, leaving)
    ensures Addressable(c, Mem(s))
  {
    assert forall a: nat :: Names(c, a) ==> a in Mem(s);
  }

  /** The bytes of `Needs` that are not there. */
  ghost function MissingOf(c: Command, p: Progress, s: Store, leaving: set<nat>): (r: set<nat>) {
    set a | a in Needs(c, p) && BlockedIn(s, leaving, a)
  }

  /** Faults that can still come, if each is answered: after it the command comes further, or a byte that it needs
      next is there. */
  ghost function BudgetOf(c: Command, p: Progress, s: Store, leaving: set<nat>): (n: nat) {
    3 * Left(c, p) + |MissingOf(c, p, s, leaving)|
  }

  lemma MissingFew(c: Command, p: Progress, s: Store, leaving: set<nat>)
    ensures |MissingOf(c, p, s, leaving)| <= 2
  {
    SubsetSize(MissingOf(c, p, s, leaving), Needs(c, p));
  }

  lemma SamePlaces(c: Command, s: Store, s': Store)
    requires Placed(s) && Placed(s') && Agree(c, Mem(s'), Mem(s))
    ensures forall x :: x in s'.place <==> x in s.place
  {
    assert forall x :: x in s'.place <==> x in Mem(s');
    assert forall x :: x in s.place <==> x in Mem(s);
  }

  /** What has been brought, and what has not been taken away. */
  lemma StillMissing(c: Command, p: Progress, s0: Store, s1: Store, now: Moment, a: nat, world: Outside, x: nat)
    requires Stays(s0, s1) && Sound(s1) && Feeds(c, world) && Elsewhere(c, world) && Needs(c, p) == Needs(c, now.p)
    requires now.fault == PageFloor(a) && x in MissingOf(c, now.p, world.moves(now, s1), world.shots(now))
    ensures x in MissingOf(c, p, s0, now.leaving) && x != a
  {
    SamePlaces(c, s1, world.moves(now, s1));
    assert Fed(now, s1, x, world);
  }

  lemma AllStillMissing(c: Command, p: Progress, s0: Store, s1: Store, now: Moment, a: nat, world: Outside)
    requires Stays(s0, s1) && Sound(s1) && Feeds(c, world) && Elsewhere(c, world) && Needs(c, p) == Needs(c, now.p)
    requires now.fault == PageFloor(a)
    ensures MissingOf(c, now.p, world.moves(now, s1), world.shots(now)) <= MissingOf(c, p, s0, now.leaving) - {a}
  {
    forall x: nat | x in MissingOf(c, now.p, world.moves(now, s1), world.shots(now))
      ensures x in MissingOf(c, p, s0, now.leaving) - {a}
    {
      StillMissing(c, p, s0, s1, now, a, world, x);
    }
  }

  lemma MissingFalls(c: Command, p: Progress, s0: Store, s1: Store, now: Moment, a: nat, world: Outside)
    requires Stays(s0, s1) && Sound(s1) && Feeds(c, world) && Elsewhere(c, world) && SamePlace(p, now.p)
    requires BlockedIn(s1, now.leaving, a) && now.fault == PageFloor(a) && a in Needs(c, now.p)
    ensures |MissingOf(c, now.p, world.moves(now, s1), world.shots(now))| < |MissingOf(c, p, s0, now.leaving)|
  {
    assert Needs(c, now.p) == Needs(c, p);
    var before, after := MissingOf(c, p, s0, now.leaving), MissingOf(c, now.p, world.moves(now, s1), world.shots(now));
    AllStillMissing(c, p, s0, s1, now, a, world);
    assert a in before;
    SubsetSize(after, before - {a});
  }

  lemma BudgetFalls(c: Command, p0: Progress, s0: Store, s1: Store, now: Moment, a: nat, world: Outside)
    requires Stays(s0, s1) && Sound(s1) && Feeds(c, world) && Elsewhere(c, world)
    requires BlockedIn(s1, now.leaving, a) && now.fault == PageFloor(a)
    requires Left(c, now.p) < Left(c, p0) || (SamePlace(p0, now.p) && a in Needs(c, now.p))
    ensures BudgetOf(c, now.p, world.moves(now, s1), world.shots(now)) < BudgetOf(c, p0, s0, now.leaving)
  {
    MissingFew(c, now.p, world.moves(now, s1), world.shots(now));
    if Left(c, now.p) >= Left(c, p0) {
      MissingFalls(c, p0, s0, s1, now, a, world);
    }
  }

  function Minus(a: nat, b: nat): (r: nat) {
    if a < b then 0 else a - b
  }

  /** What is left to do: bytes, and turns to make on the way. */
  function Left(c: Command, p: Progress): (n: nat) {
    match c
    case Fill(_, size, _) => Minus(size, p.done)
    case CopyH2D(_, data) => Minus(|data|, p.done)
    case CopyD2H(_, size) => Minus(size, p.done)
    case CopyD2D(dst, src, size) =>
      if !Overlap(dst, src, size) then Minus(size, p.done)
      else if !p.gather then size + size + 2
      else if p.phase == 0 then Minus(size, p.done) + size + 1
      else Minus(size, p.done)
    case Compute(_, size, _, len, _, len1, _) =>
      if !p.gather then len + len1 + size + 3
      else if p.phase == 0 then Minus(len, p.done) + len1 + size + 2
      else if p.phase == 1 then Minus(len1, p.done) + size + 1
      else Minus(size, p.done)
  }

  /** No further than before. Scratch buffers may have got their size. */
  predicate SamePlace(p0: Progress, p: Progress) {
    p.done == p0.done && p.phase == p0.phase && p.gather == p0.gather
  }

  /** The bytes an execution has to get at first to come any further. */
  function Needs(c: Command, p: Progress): (r: set<nat>) {
    match c
    case Fill(dst, _, _) => {dst + p.done}
    case CopyH2D(dst, _) => {dst + p.done}
    case CopyD2H(src, _) => {src + p.done}
    case CopyD2D(dst, src, size) =>
      if !Overlap(dst, src, size) then {dst + p.done, src + p.done}
      else if p.phase == 0 then {src + p.done}
      else {dst + p.done}
    case Compute(dst, _, src, _, src1, _, _) =>
      if p.phase == 0 then {src + p.done} else if p.phase == 1 then {src1 + p.done} else {dst + p.done}
  }

  /** The command reads or writes address `a`. */
  ghost predicate Names(c: Command, a: nat) {
    match c
    case Fill(dst, size, _) => dst <= a < dst + size
    case CopyH2D(dst, data) => dst <= a < dst + |data|
    case CopyD2H(src, size) => src <= a < src + size
    case CopyD2D(dst, src, size) => dst <= a < dst + size || src <= a < src + size
    case Compute(dst, size, src, len, src1, len1, _) =>
      dst <= a < dst + size || src <= a < src + len
      || src1 <= a < src1 + len1
  }

  ghost predicate Writes(c: Command, a: nat) {
    match c
    case Fill(dst, size, _) => dst <= a < dst + size
    case CopyH2D(dst, data) => dst <= a < dst + |data|
    case CopyD2H(_, _) => false
    case CopyD2D(dst, _, size) => dst <= a < dst + size
    case Compute(dst, size, _, _, _, _, _) => dst <= a < dst + size
  }

  /** The same memory as far as the command is concerned. */
  ghost predicate Agree(c: Command, m: map<nat, Byte>, m': map<nat, Byte>) {
    m.Keys == m'.Keys && forall a :: a in m && Names(c, a) ==> m[a] == m'[a]
  }

  /** A fault: of which execution, how far the command was, at which page, and which evictions were under way. */
  datatype Moment = Moment(attempt: nat, p: Progress, fault: nat, leaving: set<nat>)

  /** What the driver and other commands do after a fault: pages they move and bytes they write, and the pages whose
      evictions overlap with the next execution. */
  datatype Outside = Outside(moves: (Moment, Store) -> Store, shots: Moment -> set<nat>)

  /** The driver moves pages and other commands write, but not to this command's ranges. */
  ghost predicate Elsewhere(c: Command, world: Outside) {
    forall now: Moment, s: Store ::
        Sound(s) ==> Sound(world.moves(now, s)) && Agree(c, Mem(world.moves(now, s)), Mem(s))
  }

  /** No other command writes: every page keeps its bytes. */
  ghost predicate ContentPreserving(world: Outside) {
    forall now: Moment, s: Store :: Sound(s) ==> Sound(world.moves(now, s)) && Mem(world.moves(now, s)) == Mem(s)
  }

  /** The driver brings the page that faulted, and does not take away what the command needs next. */
  ghost predicate Feeds(c: Command, world: Outside) {
    forall now: Moment, s: Store, a: nat {:trigger Fed(now, s, a, world)} ::
        Sound(s) && a in Needs(c, now.p) && a in s.place ==> Fed(now, s, a, world)
  }

  ghost predicate Fed(now: Moment, s: Store, a: nat, world: Outside) {
    now.fault == PageFloor(a) || !BlockedIn(s, now.leaving, a) ==> !BlockedIn(world.moves(now, s), world.shots(now), a)
  }

  /** The memory without the command, after others have changed `m` outside its ranges. */
  ghost function Rebased(c: Command, m0: map<nat, Byte>, m: map<nat, Byte>): (r: map<nat, Byte>) {
    map a | a in m0 :: if Writes(c, a) || a !in m then m0[a] else m[a]
  }

  lemma AgreeOn(c: Command, x: map<nat, Byte>, y: map<nat, Byte>, z: map<nat, Byte>)
    requires Agree(c, x, y) && Agree(c, y, z)
    ensures Agree(c, x, z)
  {
  }

  lemma AgreeSlice(c: Command, m: map<nat, Byte>, m': map<nat, Byte>, va: nat, len: nat)
    requires Agree(c, m, m') && forall a :: va <= a < va + len ==> Names(c, a)
    ensures Slice(m, va, len) == Slice(m', va, len)
  {
    forall i | 0 <= i < len
      ensures Slice(m, va, len)[i] == Slice(m', va, len)[i]
    {
      assert Names(c, va + i);
    }
  }

  lemma MappedAlike(m: map<nat, Byte>, m': map<nat, Byte>)
    requires m.Keys == m'.Keys
    ensures forall va: nat, len: nat :: Mapped(m, va, len) <==> Mapped(m', va, len)
  {
    assert forall a: nat :: Has(m, a) <==> a in m.Keys;
    assert forall a: nat :: Has(m', a) <==> a in m'.Keys;
  }

  lemma AgreeProduces(c: Command, m: map<nat, Byte>, m': map<nat, Byte>)
    requires Agree(c, m, m')
    ensures Produced(c, m) == Produced(c, m') && (Addressable(c, m) <==> Addressable(c, m'))
    ensures forall va: nat, len: nat :: Mapped(m, va, len) <==> Mapped(m', va, len)
    ensures c.Compute? ==>
            Slice(m, c.src, c.len) == Slice(m', c.src, c.len) && Slice(m, c.src1, c.len1) == Slice(m', c.src1, c.len1)
  {
    MappedAlike(m, m');
    match c
    case CopyD2H(src, size) => AgreeSlice(c, m, m', src, size);
    case CopyD2D(_, src, size) => AgreeSlice(c, m, m', src, size);
    case Compute(_, _, src, len, src1, len1, _) =>
      AgreeSlice(c, m, m', src, len);
      AgreeSlice(c, m, m', src1, len1);
    case _ =>
  }

  /** What a command has stored so far stays stored on the new ground. */
  lemma StoredRebases(c: Command, m0: map<nat, Byte>, m: map<nat, Byte>, m': map<nat, Byte>, k: nat)
    requires !c.CopyD2H? && WellFormed(c) && Stored(c, m0, m, k) && Agree(c, m', m)
    ensures Agree(c, Rebased(c, m0, m'), m0) && Stored(c, Rebased(c, m0, m'), m', k)
  {
    ProducedFits(c, m0);
    PatchRebases(c, m0, m, m', Produced(c, m0), k);
    AgreeProduces(c, Rebased(c, m0, m'), m0);
  }

  lemma PatchRebases(c: Command, m0: map<nat, Byte>, m: map<nat, Byte>, m': map<nat, Byte>, r: Bytes, k: nat)
    requires !c.CopyD2H? && k <= |r| && m == Patch(m0, c.dst, r[..k]) && Agree(c, m', m)
    requires forall a: nat :: c.dst <= a < c.dst + |r| <==> Writes(c, a)
    ensures Agree(c, Rebased(c, m0, m'), m0) && m' == Patch(Rebased(c, m0, m'), c.dst, r[..k])
  {
    forall a | a in m0
      ensures Names(c, a) ==> Rebased(c, m0, m')[a] == m0[a]
      ensures m'[a] == Patch(Rebased(c, m0, m'), c.dst, r[..k])[a]
    {
      assert Writes(c, a) ==> Names(c, a);
      assert Names(c, a) ==> m'[a] == m[a];
    }
  }

  lemma ProducedFits(c: Command, m: map<nat, Byte>)
    requires !c.CopyD2H? && WellFormed(c)
    ensures forall a: nat :: c.dst <= a < c.dst + |Produced(c, m)| <==> Writes(c, a)
  {
    if c.Compute? {
      ProducedSize(c, m);
    }
  }

  /** Nothing stored yet: the new ground is the memory itself. */
  lemma UntouchedRebases(c: Command, m0: map<nat, Byte>, m': map<nat, Byte>)
    requires Agree(c, m', m0)
    ensures Rebased(c, m0, m') == m'
  {
    forall a | a in m0
      ensures Rebased(c, m0, m')[a] == m'[a]
    {
      assert Writes(c, a) ==> Names(c, a);
    }
  }

  lemma Rebases(c: Command, m0: map<nat, Byte>, out0: Bytes, m: map<nat, Byte>, m': map<nat, Byte>, out: Bytes,
                p: Progress)
    requires WellFormed(c) && Resumable(c, m0, out0, m, out, p) && Agree(c, m', m)
    ensures Agree(c, Rebased(c, m0, m'), m0) && Resumable(c, Rebased(c, m0, m'), out0, m', out, p)
  {
    var m0' := Rebased(c, m0, m');
    if m == m0 {
      UntouchedRebases(c, m0, m');
      AgreeProduces(c, m0', m0);
    }
    if !c.CopyD2H? && Stored(c, m0, m, p.done) {
      StoredRebases(c, m0, m, m', p.done);
      AgreeProduces(c, m0', m0);
    }
  }

  /** With no writes by others, the ground does not change. */
  lemma RebasedSame(c: Command, m0: map<nat, Byte>, out0: Bytes, m: map<nat, Byte>, out: Bytes, p: Progress)
    requires WellFormed(c) && Resumable(c, m0, out0, m, out, p)
    ensures Rebased(c, m0, m) == m0
  {
    if !c.CopyD2H? && Stored(c, m0, m, p.done) {
      ProducedFits(c, m0);
    }
  }

  lemma LoadsMore(s: Store, mem: map<nat, Byte>, va: nat, len: nat, k: nat, n: nat, base: nat)
    requires Sound(s) && Mem(s) == mem && k < n <= len && Resident(s, va + k, base, n - k)
    ensures base + n - k <= |s.vram|
            && Slice(mem, va, len)[..k] + s.vram[base..base + n - k] == Slice(mem, va, len)[..n]
  {
    ResidentIn(s, va + k, base, n - k);
    SliceOfSlice(mem, va, len, k, n - k);
  }

  lemma StartsResumable(c: Command, m0: map<nat, Byte>, out0: Bytes)
    requires c.CopyD2H? ==> |out0| == c.size
    ensures Resumable(c, m0, out0, m0, out0, FRESH)
  {
    if !c.CopyD2H? {
      NothingStored(c, m0);
    }
  }

  lemma NothingStored(c: Command, m0: map<nat, Byte>)
    requires !c.CopyD2H?
    ensures Stored(c, m0, m0, 0)
  {
    PatchNothing(m0, c.dst);
    assert Produced(c, m0)[..0] == [];
  }

  lemma MoveAtOnce(s: Store, c: Command, m0: map<nat, Byte>, dst: nat, src: nat)
    requires c.CopyD2D? && Sound(s) && m0 == Mem(s)
    requires Resident(s, c.dst, dst, c.size) && dst + c.size <= |s.vram| && Resident(s, c.src, src, c.size)
             && src + c.size <= |s.vram|
    ensures var s' := Poke(s, dst, s.vram[src..src + c.size]);
            Sound(s') && Mem(s') == Atomic(c, m0)
  {
    var data := Produced(c, m0);
    assert s.vram[src..src + c.size] == data by {
      LoadRun(s, c.src, src, c.size);
    }
    PokePatches(s, c.dst, dst, data);
  }

  /** What the kernel makes of the frames of its sources. */
  ghost function FromFrames(s: Store, c: Command, src: nat, src1: nat): (r: Bytes)
    requires c.Compute? && src + c.len <= |s.vram| && src1 + c.len1 <= |s.vram|
  {
    Applied(c.kernel, s.vram[src..src + c.len], s.vram[src1..src1 + c.len1])
  }

  lemma ComputeAtOnce(s: Store, c: Command, m0: map<nat, Byte>, dst: nat, src: nat, src1: nat)
    requires c.Compute? && WellFormed(c) && Sound(s) && m0 == Mem(s)
    requires Resident(s, c.dst, dst, c.size) && dst + c.size <= |s.vram|
    requires Resident(s, c.src, src, c.len) && src + c.len <= |s.vram|
    requires Resident(s, c.src1, src1, c.len1) && src1 + c.len1 <= |s.vram|
    ensures var data := FromFrames(s, c, src, src1);
            |data| == c.size && Sound(Poke(s, dst, data)) && Mem(Poke(s, dst, data)) == Atomic(c, m0)
  {
    var data := FromFrames(s, c, src, src1);
    assert data == Produced(c, m0) by {
      LoadRun(s, c.src, src, c.len);
      LoadRun(s, c.src1, src1, c.len1);
    }
    ProducedSize(c, m0);
    PokePatches(s, c.dst, dst, data);
  }

  lemma ProducedSize(c: Command, m: map<nat, Byte>)
    requires c.Compute? && WellFormed(c)
    ensures |Produced(c, m)| == c.size
  {
    if c.kernel.Each? {
      K.SumsSize(Slice(m, c.src, c.len), Slice(m, c.src1, c.len1), c.kernel.n, c.kernel.add);
    }
  }

  /** The kernel's first operand is the command's first source, and the second the second: a kernel that hands one of
      them through shows it. */
  lemma OperandsInOrder(c: Command, m: map<nat, Byte>)
    requires c.Compute? && (c.kernel.Each? ==> c.len == c.len1 == K.ELEMENT * c.kernel.n)
    requires var f := if c.kernel.Whole? then c.kernel.f else c.kernel.add; K.TakesFirst(f) || K.TakesSecond(f)
    ensures var f := if c.kernel.Whole? then c.kernel.f else c.kernel.add;
            && (K.TakesFirst(f) ==> Produced(c, m) == Slice(m, c.src, c.len))
            && (K.TakesSecond(f) ==> Produced(c, m) == Slice(m, c.src1, c.len1))
  {
    if c.kernel.Each? {
      var n, x, y := c.kernel.n, Slice(m, c.src, c.len), Slice(m, c.src1, c.len1);
      K.SumsOfOne(x, y, n, c.kernel.add);
      assert x[..K.ELEMENT * n] == x && y[..K.ELEMENT * n] == y;
    }
  }

  /** Frames of runs overlap as their addresses do. */
  lemma HarmlessFrames(s: Store, d: nat, a: nat, n: nat, dst: nat, src: nat)
    requires Placed(s) && Resident(s, d, dst, K.ELEMENT * n) && Resident(s, a, src, K.ELEMENT * n)
             && K.Harmless(d, a, n)
    ensures K.Harmless(dst, src, n)
  {
    SameShift(s, d, a, K.ELEMENT * n, dst, src);
  }

  lemma SameShift(s: Store, d: nat, a: nat, m: nat, dst: nat, src: nat)
    requires Placed(s) && Resident(s, d, dst, m) && Resident(s, a, src, m)
    ensures src <= dst < src + m ==> d == a + (dst - src)
  {
    if src <= dst < src + m {
      assert s.place[a + (dst - src)] == Some(dst) == s.place[d];
      assert Separate(s.place, d, a + (dst - src));
    }
  }

  /** The loop of VADD on the frames is the same store. */
  lemma InPlaceAtOnce(s: Store, c: Command, dst: nat, src: nat, src1: nat)
    requires c.Compute? && c.kernel.Each? && WellFormed(c) && Placed(s)
    requires Resident(s, c.dst, dst, c.size) && dst + c.size <= |s.vram|
    requires Resident(s, c.src, src, c.len) && src + c.len <= |s.vram|
    requires Resident(s, c.src1, src1, c.len1) && src1 + c.len1 <= |s.vram|
    requires |FromFrames(s, c, src, src1)| == c.size
    ensures K.Inside(s.vram, dst, src, src1, c.kernel.n)
    ensures s.(vram := K.After(s.vram, dst, src, src1, c.kernel.n, c.kernel.add))
            == Poke(s, dst, FromFrames(s, c, src, src1))
  {
    var n, add := c.kernel.n, c.kernel.add;
    HarmlessFrames(s, c.dst, c.src, n, dst, src);
    HarmlessFrames(s, c.dst, c.src1, n, dst, src1);
    K.InPlace(s.vram, dst, src, src1, n, add);
  }

  lemma LoadRun(s: Store, va: nat, base: nat, n: nat)
    requires Placed(s) && Resident(s, va, base, n) && base + n <= |s.vram|
    ensures s.vram[base..base + n] == Slice(Mem(s), va, n)
  {
    if n > 0 {
      ResidentIn(s, va, base, n);
    }
  }

  lemma NotAddressable(s: Store, c: Command, m0: map<nat, Byte>, k: nat)
    requires c.CopyD2D? && Placed(s) && Stored(c, m0, Mem(s), k) && k < c.size
    ensures c.dst + k !in s.place || c.src + k !in s.place ==> !Addressable(c, m0)
  {
    assert c.dst + k !in s.place ==> c.dst + k !in Mem(s) && !Has(m0, c.dst + k);
    assert c.src + k !in s.place ==> c.src + k !in Mem(s) && !Has(m0, c.src + k);
  }

  /** The source of a copy without overlap still has the bytes it had. */
  lemma CopyData(s: Store, c: Command, m0: map<nat, Byte>, k: nat, e: nat, src: nat)
    requires c.CopyD2D? && !Overlap(c.dst, c.src, c.size) && Sound(s) && Stored(c, m0, Mem(s), k) && k < e <= c.size
    requires Resident(s, c.src + k, src, e - k) && src + e - k <= |s.vram|
    ensures s.vram[src..src + e - k] == Produced(c, m0)[k..e]
  {
    var r, n := Produced(c, m0), e - k;
    ResidentIn(s, c.src + k, src, n);
    SlicePatched(m0, c.dst, r[..k], c.src + k, n);
    SliceOfSlice(m0, c.src, c.size, k, n);
  }

  lemma CopyStep(s: Store, c: Command, m0: map<nat, Byte>, k: nat, e: nat, dst: nat, data: Bytes)
    requires c.CopyD2D? && Sound(s) && Stored(c, m0, Mem(s), k) && k <= e <= c.size && data == Produced(c, m0)[k..e]
    requires Resident(s, c.dst + k, dst, e - k) && dst + e - k <= |s.vram|
    ensures Sound(Poke(s, dst, data)) && Stored(c, m0, Mem(Poke(s, dst, data)), e)
  {
    PokesMore(s, m0, c.dst, dst, Produced(c, m0), k, e);
  }

  lemma CopyAdvances(s: Store, c: Command, m0: map<nat, Byte>, k: nat, n: nat, dst: nat, src: nat)
    requires c.CopyD2D? && !Overlap(c.dst, c.src, c.size) && Sound(s) && Stored(c, m0, Mem(s), k)
    requires 0 < n && k + n <= c.size && Mapped(m0, c.src, k)
    requires Resident(s, c.src + k, src, n) && src + n <= |s.vram|
    requires Resident(s, c.dst + k, dst, n) && dst + n <= |s.vram|
    ensures var s' := Poke(s, dst, s.vram[src..src + n]); Sound(s') && Stored(c, m0, Mem(s'), k + n)
    ensures Mapped(m0, c.src, k + n)
  {
    CopyData(s, c, m0, k, k + n, src);
    CopyStep(s, c, m0, k, k + n, dst, s.vram[src..src + n]);
    MappedOn(s, m0, c.src, src, k, k + n);
  }

  lemma SliceOfSlice(m: map<nat, Byte>, va: nat, len: nat, k: nat, n: nat)
    requires k + n <= len
    ensures Slice(m, va, len)[k..k + n] == Slice(m, va + k, n)
    ensures Slice(m, va, len)[..k] + Slice(m, va + k, n) == Slice(m, va, len)[..k + n]
  {
  }
}
