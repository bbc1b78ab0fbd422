/**
  Kernels on memory. VADD reads and writes element by element, so that a destination that overlaps a source may be
  read after it has been written. Through scratch buffers it is not.
*/
module Kernel {
  import opened Base

  type Bytes = seq<Byte>

  /** sizeof(float) */
  const ELEMENT: nat := 4

  /** The bytes of one element each, from the bytes of the two operands. Any arithmetic. */
  type Add = (Bytes, Bytes) -> Bytes

  ghost predicate Sized(add: Add) {
    forall x, y :: |add(x, y)| == ELEMENT
  }

  /** Element `i` of the operand at `at`. */
  function Element(v: Bytes, at: nat, i: nat): (r: Bytes)
    requires at + ELEMENT * (i + 1) <= |v|
  {
    v[at + ELEMENT * i..at + ELEMENT * i + ELEMENT]
  }

  function Splice(v: Bytes, at: nat, data: Bytes): (r: Bytes)
    requires at + |data| <= |v|
  {
    v[..at] + data + v[at + |data|..]
  }

  /** What VADD means: every element from the operands as they were. */
  function Sums(x: Bytes, y: Bytes, n: nat, add: Add): (r: Bytes)
    requires ELEMENT * n <= |x| && ELEMENT * n <= |y|
  {
    if n == 0 then [] else Sums(x, y, n - 1, add) + add(Element(x, 0, n - 1), Element(y, 0, n - 1))
  }

  lemma {:induction false} SumsAt(x: Bytes, y: Bytes, n: nat, add: Add, e: nat, o: nat)
    requires ELEMENT * n <= |x| && ELEMENT * n <= |y| && Sized(add) && e < n && o < ELEMENT
    ensures |Sums(x, y, n, add)| == ELEMENT * n
            && Sums(x, y, n, add)[ELEMENT * e + o] == add(Element(x, 0, e), Element(y, 0, e))[o]
  {
    if n > 1 {
      SumsAt(x, y, n - 1, add, if e < n - 1 then e else 0, o);
    }
  }

  ghost predicate TakesFirst(f: (Bytes, Bytes) -> Bytes) {
    forall x, y :: f(x, y) == x
  }

  ghost predicate TakesSecond(f: (Bytes, Bytes) -> Bytes) {
    forall x, y :: f(x, y) == y
  }

  lemma {:induction false} SumsOfOne(x: Bytes, y: Bytes, n: nat, add: Add)
    requires ELEMENT * n <= |x| && ELEMENT * n <= |y|
    ensures TakesFirst(add) ==> Sums(x, y, n, add) == x[..ELEMENT * n]
    ensures TakesSecond(add) ==> Sums(x, y, n, add) == y[..ELEMENT * n]
  {
    if n > 0 {
      SumsOfOne(x, y, n - 1, add);
    }
  }

  lemma SumsSize(x: Bytes, y: Bytes, n: nat, add: Add)
    requires ELEMENT * n <= |x| && ELEMENT * n <= |y| && Sized(add)
    ensures |Sums(x, y, n, add)| == ELEMENT * n
  {
    if n > 0 {
      SumsAt(x, y, n, add, 0, 0);
    }
  }

  /** The three ranges of `n` elements lie in memory. */
  ghost predicate Inside(v: Bytes, d: nat, a: nat, b: nat, n: nat) {
    d + ELEMENT * n <= |v| && a + ELEMENT * n <= |v| && b + ELEMENT * n <= |v|
  }

  ghost function AtOnce(v: Bytes, d: nat, a: nat, b: nat, n: nat, add: Add): (r: Bytes)
    requires Inside(v, d, a, b, n) && Sized(add)
  {
    var m := ELEMENT * n;
    SumsSize(v[a..a + m], v[b..b + m], n, add);
    Splice(v, d, Sums(v[a..a + m], v[b..b + m], n, add))
  }

  /** Memory after `i` elements of the loop, each read from memory as it is then. */
  ghost function After(v: Bytes, d: nat, a: nat, b: nat, i: nat, add: Add): (r: Bytes)
    requires Inside(v, d, a, b, i) && Sized(add)
    ensures |r| == |v|
  {
    if i == 0 then v
    else
      var w := After(v, d, a, b, i - 1, add);
      Splice(w, d + ELEMENT * (i - 1), add(Element(w, a, i - 1), Element(w, b, i - 1)))
  }

  /** The loop of the kernel, on memory. */
  method Loop(v0: Bytes, d: nat, a: nat, b: nat, n: nat, add: Add) returns (v: Bytes)
    requires Inside(v0, d, a, b, n) && Sized(add)
    ensures v == After(v0, d, a, b, n, add)
  {
    v := v0;
    for i := 0 to n
      invariant Inside(v0, d, a, b, i) && v == After(v0, d, a, b, i, add)
    {
      v := Splice(v, d + ELEMENT * i, add(Element(v, a, i), Element(v, b, i)));
    }
  }

  /** No element of the source is read after it has been written. */
  predicate Harmless(d: nat, a: nat, n: nat) {
    n <= 1 || d <= a || a + ELEMENT * n <= d
  }

  /** The loop has stored the first `i` elements of the result, and nothing else. */
  lemma {:induction false} LoopSoFar(v: Bytes, d: nat, a: nat, b: nat, n: nat, i: nat, add: Add, x: Bytes, y: Bytes)
    requires Inside(v, d, a, b, n) && Sized(add) && i <= n && Harmless(d, a, n) && Harmless(d, b, n)
    requires x == v[a..a + ELEMENT * n] && y == v[b..b + ELEMENT * n]
    ensures |Sums(x, y, i, add)| == ELEMENT * i && After(v, d, a, b, i, add) == Splice(v, d, Sums(x, y, i, add))
  {
    SumsSize(x, y, i, add);
    if i > 0 {
      LoopSoFar(v, d, a, b, n, i - 1, add, x, y);
      var sums := Sums(x, y, i - 1, add);
      ReadsOld(v, d, a, n, i - 1, sums);
      ReadsOld(v, d, b, n, i - 1, sums);
      SpliceMore(v, d, sums, add(Element(x, 0, i - 1), Element(y, 0, i - 1)));
    } else {
      assert Splice(v, d, []) == v;
    }
  }

  lemma ReadsOld(v: Bytes, d: nat, a: nat, n: nat, i: nat, sums: Bytes)
    requires d + ELEMENT * n <= |v| && a + ELEMENT * n <= |v| && i < n && |sums| == ELEMENT * i && Harmless(d, a, n)
    ensures Element(Splice(v, d, sums), a, i) == Element(v[a..a + ELEMENT * n], 0, i)
  {
    var w := Splice(v, d, sums);
    forall k | 0 <= k < ELEMENT
      ensures Element(w, a, i)[k] == Element(v, a, i)[k]
    {
      assert w[a + ELEMENT * i + k] == v[a + ELEMENT * i + k];
    }
    ElementOf(v, a, n, i);
  }

  lemma ElementOf(v: Bytes, a: nat, n: nat, i: nat)
    requires a + ELEMENT * n <= |v| && i < n
    ensures Element(v[a..a + ELEMENT * n], 0, i) == Element(v, a, i)
  {
    forall k | 0 <= k < ELEMENT
      ensures Element(v[a..a + ELEMENT * n], 0, i)[k] == Element(v, a, i)[k]
    {
      assert v[a..a + ELEMENT * n][ELEMENT * i + k] == v[a + ELEMENT * i + k];
    }
  }

  lemma SpliceMore(v: Bytes, d: nat, x: Bytes, y: Bytes)
    requires d + |x| + |y| <= |v|
    ensures Splice(Splice(v, d, x), d + |x|, y) == Splice(v, d, x + y)
  {
  }

  // ---------------------------------------------------------------------------------------------
  // Otherwise
  // ---------------------------------------------------------------------------------------------

  function Next(x: Byte): (r: Byte) {
    if x == 255 then 0 else x + 1
  }

  /** Adds one to every byte of one of the operands. */
  ghost predicate Probes(add: Add, first: bool) {
    && Sized(add)
    && forall x, y, o ::
        |x| == |y| == ELEMENT && 0 <= o < ELEMENT ==> add(x, y)[o] == Next(if first then x[o] else y[o])
  }

  function Probe(first: bool): (r: Add)
    ensures Probes(r, first)
  {
    (x: Bytes, y: Bytes) => var z := if first then x else y; seq(ELEMENT, i => if 0 <= i < |z| then Next(z[i]) else 0)
  }

  ghost predicate Zeroes(v: Bytes) {
    forall i :: 0 <= i < |v| ==> v[i] == 0
  }

  /** What the loop has stored it does not touch again. */
  lemma {:induction false} StoredStays(v: Bytes, d: nat, a: nat, b: nat, k: nat, n: nat, add: Add, j: nat)
    requires Inside(v, d, a, b, n) && Sized(add) && k <= n && j < ELEMENT * k
    ensures After(v, d, a, b, n, add)[d + j] == After(v, d, a, b, k, add)[d + j]
  {
    if k < n {
      StoredStays(v, d, a, b, k, n - 1, add, j);
    }
  }

  lemma LoopStores(v: Bytes, d: nat, a: nat, b: nat, n: nat, add: Add, e: nat, o: nat)
    requires Inside(v, d, a, b, n) && Sized(add) && e < n && o < ELEMENT
    ensures var w := After(v, d, a, b, e, add);
            After(v, d, a, b, n, add)[d + ELEMENT * e + o] == add(Element(w, a, e), Element(w, b, e))[o]
  {
    StoredStays(v, d, a, b, e + 1, n, add, ELEMENT * e + o);
  }

  /** Byte `o` of element `e` of a harmful source is one of the four bytes stored first. */
  function Clash(d: nat, a: nat, n: nat): (r: (nat, nat))
    requires !Harmless(d, a, n)
    ensures 1 <= r.0 < n && r.1 < ELEMENT && d <= a + ELEMENT * r.0 + r.1 < d + ELEMENT
  {
    if d - a < ELEMENT then (1, 0) else ((d - a) / ELEMENT, (d - a) % ELEMENT)
  }

  lemma ProbeAt(first: bool, add: Add, v: Bytes, a: nat, b: nat, i: nat, o: nat)
    requires Probes(add, first) && a + ELEMENT * (i + 1) <= |v| && b + ELEMENT * (i + 1) <= |v| && o < ELEMENT
    ensures add(Element(v, a, i), Element(v, b, i))[o] == Next(v[(if first then a else b) + ELEMENT * i + o])
  {
  }

  /** On zeroes the loop stores ones first, and reads one of them back. */
  lemma LoopReadsBack(v: Bytes, d: nat, a: nat, b: nat, n: nat, first: bool, add: Add, e: nat, o: nat)
    requires Inside(v, d, a, b, n) && Zeroes(v) && Probes(add, first)
    requires 1 <= e < n && o < ELEMENT && d <= (if first then a else b) + ELEMENT * e + o < d + ELEMENT
    ensures After(v, d, a, b, n, add)[d + ELEMENT * e + o] == 2
  {
    var q := (if first then a else b) + ELEMENT * e + o - d;
    var w := After(v, d, a, b, e, add);
    assert w[d + q] == 1 by {
      LoopStores(v, d, a, b, e, add, 0, q);
      ProbeAt(first, add, v, a, b, 0, q);
    }
    LoopStores(v, d, a, b, n, add, e, o);
    ProbeAt(first, add, w, a, b, e, o);
  }

  lemma OnceIsOne(v: Bytes, d: nat, a: nat, b: nat, n: nat, first: bool, add: Add, e: nat, o: nat)
    requires Inside(v, d, a, b, n) && Zeroes(v) && Probes(add, first) && e < n && o < ELEMENT
    ensures AtOnce(v, d, a, b, n, add)[d + ELEMENT * e + o] == 1
  {
    var m := ELEMENT * n;
    var x, y := v[a..a + m], v[b..b + m];
    SumsAt(x, y, n, add, e, o);
    ElementOf(v, a, n, e);
    ElementOf(v, b, n, e);
    ProbeAt(first, add, v, a, b, e, o);
  }

  lemma Clobbers(v: Bytes, d: nat, a: nat, b: nat, n: nat, first: bool, add: Add)
    requires Inside(v, d, a, b, n) && !Harmless(d, if first then a else b, n) && Zeroes(v) && Probes(add, first)
    ensures After(v, d, a, b, n, add) != AtOnce(v, d, a, b, n, add)
  {
    var (e, o) := Clash(d, if first then a else b, n);
    LoopReadsBack(v, d, a, b, n, first, add, e, o);
    OnceIsOne(v, d, a, b, n, first, add, e, o);
  }

  /** Exactly when VADD in place is VADD, for every memory and every arithmetic: when neither source starts before
      the destination and reaches into it. */
  lemma InPlaceIff(d: nat, a: nat, b: nat, n: nat)
    ensures Harmless(d, a, n) && Harmless(d, b, n) <==>
              forall v: Bytes, add: Add ::
                  Inside(v, d, a, b, n) && Sized(add) ==> After(v, d, a, b, n, add) == AtOnce(v, d, a, b, n, add)
  {
    if Harmless(d, a, n) && Harmless(d, b, n) {
      forall v: Bytes, add: Add | Inside(v, d, a, b, n) && Sized(add)
        ensures After(v, d, a, b, n, add) == AtOnce(v, d, a, b, n, add)
      {
        InPlace(v, d, a, b, n, add);
      }
    } else {
      var v, add := NotInPlace(d, a, b, n);
    }
  }

  lemma InPlace(v: Bytes, d: nat, a: nat, b: nat, n: nat, add: Add)
    requires Inside(v, d, a, b, n) && Sized(add) && Harmless(d, a, n) && Harmless(d, b, n)
    ensures After(v, d, a, b, n, add) == AtOnce(v, d, a, b, n, add)
  {
    LoopSoFar(v, d, a, b, n, n, add, v[a..a + ELEMENT * n], v[b..b + ELEMENT * n]);
  }

  lemma NotInPlace(d: nat, a: nat, b: nat, n: nat) returns (v: Bytes, add: Add)
    requires !Harmless(d, a, n) || !Harmless(d, b, n)
    ensures Inside(v, d, a, b, n) && Sized(add) && After(v, d, a, b, n, add) != AtOnce(v, d, a, b, n, add)
  {
    v := seq(d + a + b + ELEMENT * n, _ => 0);
    var first := !Harmless(d, a, n);
    add := Probe(first);
    Clobbers(v, d, a, b, n, first, add);
  }
}
