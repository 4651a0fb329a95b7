/** How a tensor is cut into one chunk per rank (`chunkize`), and the elementwise steps a rank
    does on its own memory.  Trailing chunks may be empty even when there are at least as many
    elements as ranks: five elements over four ranks give 2, 2, 1, 0. */
module Chunks {
  import opened Network

  /** One allreduce: the element count the algorithm is given, how many more elements the tensor has,
      the number of ranks, the binary op, and the elementwise step at the end (the 1/world scaling of
      AVG; the identity for every other op). */
  datatype Setup<!T> = Setup(numel: nat, extra: nat, world: nat, f: (T, T) -> T, g: T -> T) {
    /** The elements of the tensor.  In a rank's memory scratch starts here. */
    function Count(): nat {
      numel + extra
    }
  }

  /** Inside the part of the tensor that is counted. */
  predicate InTensor<T>(J: Setup<T>, g: Region) {
    g.Within(J.numel)
  }

  /** Inside a scratch buffer of `len` elements. */
  predicate InScratch<T>(J: Setup<T>, len: nat, g: Region) {
    J.Count() <= g.lo && g.Within(J.Count() + len)
  }

  function Min(a: nat, b: nat): nat {
    if a < b then a else b
  }

  /** `n * len` and the rounded-up quotient, by recursion: linear for the solver. */
  function Times(n: nat, len: nat): nat {
    if n == 0 then 0 else Times(n - 1, len) + len
  }

  function Per(numel: nat, world: nat): nat
    requires world > 0
  {
    if numel == 0 then 0 else if numel <= world then 1 else 1 + Per(numel - world, world)
  }

  lemma {:induction false} TimesIsProduct(n: nat, len: nat)
    ensures Times(n, len) == n * len
  {
    if n > 0 {
      TimesIsProduct(n - 1, len);
      assert (n - 1) * len + len == n * len;
    }
  }

  lemma MulMono(i: nat, j: nat, per: nat)
    requires i <= j
    ensures i * per <= j * per
  {
  }

  lemma DivMod(q: nat, r: nat, d: nat)
    requires r < d
    ensures (q * d + r) / d == q
    ensures (q * d + r) % d == r
  {
    var x := (q * d + r) / d;
    assert q * d + r == x * d + (q * d + r) % d;
    if x < q { MulMono(x + 1, q, d); } else if x > q { MulMono(q + 1, x, d); }
  }

  lemma {:induction false} PerIsCeiling(numel: nat, world: nat)
    requires world > 0
    ensures Per(numel, world) == (numel + world - 1) / world
  {
    if numel == 0 {
      DivMod(0, world - 1, world);
    } else if numel <= world {
      DivMod(1, numel - 1, world);
    } else {
      PerIsCeiling(numel - world, world);
      var q, t := (numel - 1) / world, (numel - 1) % world;
      assert numel - 1 == q * world + t;
      assert (q + 1) * world == q * world + world;
      DivMod(q + 1, t, world);
    }
  }

  lemma {:induction false} TimesMono(i: nat, j: nat, len: nat)
    requires i <= j
    ensures Times(i, len) <= Times(j, len)
    decreases j
  {
    if i < j { TimesMono(i, j - 1, len); }
  }

  lemma {:induction false} TimesLen(n: nat, a: nat, b: nat)
    requires a <= b
    ensures Times(n, a) <= Times(n, b)
  {
    if n > 0 { TimesLen(n - 1, a, b); }
  }

  lemma {:induction false} TimesMore(n: nat, len: nat)
    ensures Times(n, len + 1) == Times(n, len) + n
  {
    if n > 0 { TimesMore(n - 1, len); }
  }

  lemma {:induction false} CeilCovers(numel: nat, world: nat)
    requires world > 0
    ensures numel <= Times(world, Per(numel, world))
    ensures numel > 0 ==> Per(numel, world) > 0
  {
    if numel > world { CeilCovers(numel - world, world); }
    if numel > 0 { TimesMore(world, Per(numel, world) - 1); }
  }

  lemma {:induction false} PerMono(m: nat, n: nat, world: nat)
    requires world > 0 && m <= n
    ensures Per(m, world) <= Per(n, world)
    decreases n
  {
    if m > world { PerMono(m - world, n - world, world); }
  }

  function Chunk(numel: nat, world: nat, i: nat): Region
    requires world > 0
  {
    var per := Per(numel, world);
    var s := Min(Times(i, per), numel);
    Region(s, Min(Times(i + 1, per), numel) - s)
  }

  function Row(e: nat, per: nat): (c: nat)
    requires per > 0
    ensures Times(c, per) <= e < Times(c + 1, per)
  {
    if e < per then 0 else 1 + Row(e - per, per)
  }

  /** The rank whose chunk holds element `e`. */
  function Home(numel: nat, world: nat, e: nat): (c: nat)
    requires world > 0 && e < numel
    ensures c < world && Chunk(numel, world, c).Has(e)
  {
    CeilCovers(numel, world);
    var c := Row(e, Per(numel, world));
    assert c < world by {
      if c >= world { TimesMono(world, c, Per(numel, world)); }
    }
    c
  }

  /** Chunks lie inside the tensor, are no longer than `Per`, and do not overlap: with `Home`,
      every element lies in exactly one of them. */
  lemma ChunkBounds(numel: nat, world: nat, i: nat)
    requires world > 0
    ensures Chunk(numel, world, i).Within(numel)
    ensures Chunk(numel, world, i).len <= Per(numel, world)
  {
  }

  lemma ChunksApart(numel: nat, world: nat, i: nat, j: nat)
    requires world > 0 && i != j
    ensures Chunk(numel, world, i).Apart(Chunk(numel, world, j))
  {
    var per := Per(numel, world);
    if i < j { TimesMono(i + 1, j, per); } else { TimesMono(j + 1, i, per); }
  }

  lemma HomeUnique(numel: nat, world: nat, e: nat, c: nat)
    requires world > 0 && e < numel && Chunk(numel, world, c).Has(e)
    ensures c == Home(numel, world, e)
  {
    if c != Home(numel, world, e) { ChunksApart(numel, world, c, Home(numel, world, e)); }
  }

  /** When the world divides the tensor the chunks are all alike. */
  lemma EvenChunk(per: nat, world: nat, i: nat)
    requires i < world
    ensures Per(Times(world, per), world) == per
    ensures Chunk(Times(world, per), world, i) == Region(Times(i, per), per)
  {
    EvenPer(per, world);
    TimesMono(i + 1, world, per);
  }

  lemma {:induction false} EvenPer(per: nat, world: nat)
    requires world > 0
    ensures Per(Times(world, per), world) == per
  {
    if per == 0 {
      TimesIsProduct(world, 0);
    } else {
      TimesMore(world, per - 1);
      EvenPer(per - 1, world);
    }
  }

  datatype ChunkInfo = ChunkInfo(elemStart: nat, elemCount: nat, byteOff: nat, byteLen: nat)

  function Info(c: Region, elemSize: nat): ChunkInfo {
    ChunkInfo(c.lo, c.len, Times(c.lo, elemSize), Times(c.len, elemSize))
  }

  lemma {:induction false} TimesSum(a: nat, b: nat, len: nat)
    ensures Times(a, len) + Times(b, len) == Times(a + b, len)
  {
    if b > 0 { TimesSum(a, b - 1, len); }
  }

  /** The loop of the source.  The byte ranges follow one another with no gap and no overlap, and
      together they cover the tensor. */
  method Chunkize(numel: nat, elemSize: nat, world: nat) returns (chunks: seq<ChunkInfo>)
    requires world > 0
    ensures |chunks| == world
    ensures forall i :: 0 <= i < world ==> chunks[i] == Info(Chunk(numel, world, i), elemSize)
    ensures chunks[0].byteOff == 0
    ensures forall i :: 0 < i < world ==> chunks[i].byteOff == chunks[i - 1].byteOff + chunks[i - 1].byteLen
    ensures chunks[world - 1].byteOff + chunks[world - 1].byteLen == numel * elemSize
  {
    var per := (numel + world - 1) / world;
    PerIsCeiling(numel, world);
    chunks := [];
    for i := 0 to world
      invariant |chunks| == i
      invariant forall j :: 0 <= j < i ==> chunks[j] == Info(Chunk(numel, world, j), elemSize)
    {
      var c := OneChunk(numel, elemSize, world, per, i);
      chunks := chunks + [c];
    }
    forall i | 0 < i < world
      ensures chunks[i].byteOff == chunks[i - 1].byteOff + chunks[i - 1].byteLen
    {
      TimesSum(chunks[i - 1].elemStart, chunks[i - 1].elemCount, elemSize);
    }
    CeilCovers(numel, world);
    TimesSum(chunks[world - 1].elemStart, chunks[world - 1].elemCount, elemSize);
    TimesIsProduct(numel, elemSize);
  }

  method OneChunk(numel: nat, elemSize: nat, world: nat, per: nat, i: nat) returns (c: ChunkInfo)
    requires world > 0 && per == Per(numel, world)
    ensures c == Info(Chunk(numel, world, i), elemSize)
  {
    TimesIsProduct(i, per);
    TimesIsProduct(i + 1, per);
    var s := Min(i * per, numel);
    var e := Min((i + 1) * per, numel);
    TimesIsProduct(s, elemSize);
    TimesIsProduct(e - s, elemSize);
    c := ChunkInfo(s, e - s, s * elemSize, (e - s) * elemSize);
  }

  /** `metal_reduce_op_view`: `m[dst + i] := f(m[dst + i], m[src + i])` for every `i < len`. */
  function Reduce<T>(f: (T, T) -> T, m: seq<T>, dst: nat, src: nat, len: nat): (m': seq<T>)
    ensures |m'| == |m|
  {
    seq(|m|, i requires 0 <= i < |m| =>
      if dst <= i < dst + len && src + (i - dst) < |m| then f(m[i], m[src + (i - dst)]) else m[i])
  }

  /** `metal_scale_inplace_view` on the tensor, for any elementwise `g`. */
  function Scale<T>(g: T -> T, m: seq<T>, numel: nat): (m': seq<T>)
    ensures |m'| == |m|
  {
    seq(|m|, i requires 0 <= i < |m| => if i < numel then g(m[i]) else m[i])
  }

  /** `memcpy` inside a rank's memory. */
  function Copy<T>(m: seq<T>, dst: nat, src: nat, len: nat): (m': seq<T>)
    ensures |m'| == |m|
  {
    seq(|m|, i requires 0 <= i < |m| =>
      if dst <= i < dst + len && src + (i - dst) < |m| then m[src + (i - dst)] else m[i])
  }

  /** Left fold: f(... f(f(x, ys[0]), ys[1]) ..., ys[last]). */
  function Fold<T>(f: (T, T) -> T, x: T, ys: seq<T>): T {
    if ys == [] then x else f(Fold(f, x, ys[..|ys| - 1]), ys[|ys| - 1])
  }

  /** `slots` buffers of the length of `own`, laid out from `base` on, reduced into `own` in turn. */
  function FoldSlots<T>(f: (T, T) -> T, m: seq<T>, own: Region, base: nat, slots: nat): (m': seq<T>)
    ensures |m'| == |m|
  {
    if slots == 0 then m
    else Reduce(f, FoldSlots(f, m, own, base, slots - 1), own.lo, base + Times(slots - 1, own.len), own.len)
  }

  lemma {:induction false} FoldElsewhere<T>(f: (T, T) -> T, m: seq<T>, own: Region, base: nat, slots: nat, i: nat)
    requires i < |m| && !own.Has(i)
    ensures FoldSlots(f, m, own, base, slots)[i] == m[i]
    decreases slots
  {
    if slots > 0 { FoldElsewhere(f, m, own, base, slots - 1, i); }
  }

  /** Slot `s` holds `v` in the place of element `e` of `own`. */
  ghost predicate SlotHolds<T(!new)>(m: seq<T>, own: Region, base: nat, s: nat, e: nat, v: T)
    requires own.Has(e)
  {
    var at := base + Times(s, own.len) + (e - own.lo);
    at < |m| && m[at] == v
  }

  lemma FoldStep<T(!new)>(f: (T, T) -> T, m: seq<T>, own: Region, base: nat, s: nat, e: nat, v: T)
    requires own.lo + own.len <= base && own.Has(e) && e < |m| && SlotHolds(m, own, base, s, e, v)
    ensures FoldSlots(f, m, own, base, s + 1)[e] == f(FoldSlots(f, m, own, base, s)[e], v)
  {
    FoldElsewhere(f, m, own, base, s, base + Times(s, own.len) + (e - own.lo));
  }

  /** Reducing the slots in turn leaves, at each element, the fold of what the slots hold there. */
  lemma {:induction false} FoldAt<T(!new)>(f: (T, T) -> T, m: seq<T>, own: Region, base: nat, ys: seq<T>, e: nat)
    requires own.lo + own.len <= base && own.Has(e) && e < |m|
    requires forall s: nat :: s < |ys| ==> SlotHolds(m, own, base, s, e, ys[s])
    ensures FoldSlots(f, m, own, base, |ys|)[e] == Fold(f, m[e], ys)
    decreases |ys|
  {
    if ys != [] {
      var s := |ys| - 1;
      forall t: nat | t < s ensures SlotHolds(m, own, base, t, e, ys[..s][t]) {
        assert SlotHolds(m, own, base, t, e, ys[t]);
      }
      FoldAt(f, m, own, base, ys[..s], e);
      FoldStep(f, m, own, base, s, e, ys[s]);
    }
  }

  /** What the ranks hold at element `e`, in rank order. */
  function Column<T>(xs: Memories<T>, e: nat): (col: seq<T>)
    requires forall r :: 0 <= r < |xs| ==> e < |xs[r]|
    ensures |col| == |xs| && forall r :: 0 <= r < |xs| ==> col[r] == xs[r][e]
  {
    seq(|xs|, r requires 0 <= r < |xs| => xs[r][e])
  }

  function Others<T>(col: seq<T>, c: nat): seq<T>
    requires c < |col|
  {
    col[..c] + col[c + 1..]
  }
}
