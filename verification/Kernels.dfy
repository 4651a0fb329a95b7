/** The 8-wide reduction kernels: each thread of the grid updates up to eight elements, through two
    4-wide vectors when they all lie inside the tensor and one by one otherwise.  Index arithmetic
    is 32-bit, as in the shader. */
module Kernels {
  import opened Common

  const WIDTH := 8

  /** Threads dispatched for `count` elements. */
  function Grid(count: nat): nat {
    (count + 7) / 8
  }

  function Base(gid: nat): nat {
    gid * WIDTH % U32
  }

  predicate Vector(gid: nat, count: nat) {
    (Base(gid) + WIDTH) % U32 <= count
  }

  /** One past the last element thread `gid` updates. */
  function End(gid: nat, count: nat): nat {
    if Vector(gid, count) then Base(gid) + WIDTH else count
  }

  /** The window of a dispatched thread when nothing wraps. */
  lemma WindowOf(gid: nat, count: nat)
    requires gid < Grid(count) && count <= U32 - WIDTH
    ensures Base(gid) == gid * WIDTH < count
    ensures End(gid, count) == if gid * WIDTH + WIDTH <= count then gid * WIDTH + WIDTH else count
  {
  }

  /** Together the threads update exactly [0, count), each element once: element `e` belongs to
      thread `e / 8` and to no other. */
  lemma WindowsPartition(count: nat, e: nat, gid: nat)
    requires count <= U32 - WIDTH && gid < Grid(count)
    ensures Base(gid) <= e < End(gid, count) <==> e < count && gid == e / WIDTH
    ensures e < count ==> e / WIDTH < Grid(count)
  {
    WindowOf(gid, count);
  }

  /** The exact bound: no thread steps outside the tensor if and only if `count <= 2^32 - 8`.
      Above it the last thread's `base + 8` wraps to zero and takes the vector path. */
  lemma InBoundsIff(count: nat)
    requires count < U32
    ensures (forall gid: nat :: gid < Grid(count) ==> End(gid, count) <= count) <==> count <= U32 - WIDTH
  {
    if count <= U32 - WIDTH {
      forall gid: nat | gid < Grid(count) ensures End(gid, count) <= count {
        WindowOf(gid, count);
      }
    } else {
      var last := Grid(count) - 1;
      assert last == U32 / WIDTH - 1;
      assert Base(last) == U32 - WIDTH;
      assert End(last, count) == U32;
    }
  }

  method Load4<T>(a: array<T>, at: nat) returns (v: seq<T>)
    requires at + 4 <= a.Length
    ensures v == a[at..at + 4]
  {
    v := [a[at], a[at + 1], a[at + 2], a[at + 3]];
  }

  method Store4<T>(a: array<T>, at: nat, v: seq<T>)
    requires at + 4 <= a.Length && |v| == 4
    modifies a
    ensures forall i :: 0 <= i < a.Length ==> a[i] == if at <= i < at + 4 then v[i - at] else old(a[i])
  {
    a[at] := v[0];
    a[at + 1] := v[1];
    a[at + 2] := v[2];
    a[at + 3] := v[3];
  }

  function Apply4<T>(f: (T, T) -> T, d: seq<T>, s: seq<T>): (v: seq<T>)
    requires |d| == |s| == 4
    ensures |v| == 4 && forall i :: 0 <= i < 4 ==> v[i] == f(d[i], s[i])
  {
    [f(d[0], s[0]), f(d[1], s[1]), f(d[2], s[2]), f(d[3], s[3])]
  }

  /** Two vectors of four, read before anything is written. */
  method Vectors<T>(f: (T, T) -> T, dst: array<T>, src: array<T>, at: nat)
    requires at + 8 <= dst.Length && at + 8 <= src.Length
    modifies dst
    ensures forall i :: 0 <= i < dst.Length ==>
              dst[i] == if at <= i < at + 8 then f(old(dst[i]), old(src[i])) else old(dst[i])
  {
    var d0 := Load4(dst, at);
    var d1 := Load4(dst, at + 4);
    var s0 := Load4(src, at);
    var s1 := Load4(src, at + 4);
    Store4(dst, at, Apply4(f, d0, s0));
    Store4(dst, at + 4, Apply4(f, d1, s1));
  }

  /** `ApplyBinaryTail`: one by one up to the end of the tensor. */
  method Tail<T>(f: (T, T) -> T, dst: array<T>, src: array<T>, base: nat, count: nat)
    requires base < U32 && base <= count <= dst.Length && count <= src.Length
    requires count < (base + WIDTH) % U32
    modifies dst
    ensures forall i :: 0 <= i < dst.Length ==>
              dst[i] == if base <= i < count then f(old(dst[i]), old(src[i])) else old(dst[i])
  {
    var i := base;
    while i < (base + WIDTH) % U32 && i < count
      invariant base <= i <= count
      invariant forall j :: i <= j < src.Length ==> src[j] == old(src[j])
      invariant forall j :: 0 <= j < dst.Length ==>
                  dst[j] == if base <= j < i then f(old(dst[j]), old(src[j])) else old(dst[j])
    {
      dst[i] := f(dst[i], src[i]);
      i := i + 1;
    }
  }

  /** `binary_vec_op`: aligned or not, the thread's window becomes `f(dst, src)` and nothing else
      changes. */
  method RunThread<T>(f: (T, T) -> T, dst: array<T>, src: array<T>, aligned: bool, count: nat, gid: nat)
    requires count < U32 && gid < U32 / WIDTH
    requires Base(gid) <= End(gid, count) <= dst.Length && End(gid, count) <= src.Length
    modifies dst
    ensures forall i :: 0 <= i < dst.Length ==>
              dst[i] == if Base(gid) <= i < End(gid, count) then f(old(dst[i]), old(src[i])) else old(dst[i])
  {
    var base := gid * WIDTH % U32;
    if (base + WIDTH) % U32 <= count {
      if aligned {
        // Index of the first of two whole vectors; the second one follows it.
        var vecIndex := gid * 2 % U32;
        assert (vecIndex + 1) % U32 * 4 == vecIndex * 4 + 4;
        Vectors(f, dst, src, vecIndex * 4);
      } else {
        Vectors(f, dst, src, base);
      }
    } else {
      Tail(f, dst, src, base, count);
    }
  }

  predicate Permutation(order: seq<nat>, n: nat) {
    && |order| == n
    && (forall i :: 0 <= i < n ==> order[i] < n)
    && (forall i, j :: 0 <= i < j < n ==> order[i] != order[j])
    && (forall g: nat :: g < n ==> g in order)
  }

  /** The whole grid, threads in any order: the elementwise op on the first `count` elements. */
  method RunGrid<T>(f: (T, T) -> T, dst: array<T>, src: array<T>, aligned: bool, count: nat, order: seq<nat>)
    requires count <= dst.Length && count <= src.Length
    requires count <= U32 - WIDTH && Permutation(order, Grid(count))
    modifies dst
    ensures forall i :: 0 <= i < dst.Length ==> dst[i] == if i < count then f(old(dst[i]), old(src[i])) else old(dst[i])
  {
    for k := 0 to |order|
      invariant forall i: nat :: i < dst.Length ==>
                  dst[i] == if i < count && i / WIDTH in order[..k] then f(old(dst[i]), old(src[i])) else old(dst[i])
    {
      WindowOf(order[k], count);
      ghost var before := dst[..];
      RunThread(f, dst, src, aligned, count, order[k]);
      assert order[..k + 1] == order[..k] + [order[k]];
      forall i: nat | i < dst.Length
        ensures dst[i] == if i < count && i / WIDTH in order[..k + 1] then f(old(dst[i]), old(src[i])) else old(dst[i])
      {
        WindowsPartition(count, i, order[k]);
        assert order[k] !in order[..k];
        assert before[i] == if i < count && i / WIDTH in order[..k] then f(old(dst[i]), old(src[i])) else old(dst[i]);
      }
    }
    assert order[..|order|] == order;
    forall i: nat | i < count ensures i / WIDTH in order {
      assert i / WIDTH < Grid(count);
    }
  }
}
