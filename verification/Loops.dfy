/** The control flow of the three allreduce functions, loop by loop, recording what a rank would
    do instead of doing it.  Nothing in these loops depends on tensor contents, so a rank's plan is
    fixed by its rank, the number of ranks, the element count, and where scratch starts in memory,
    which is after the whole tensor.  Each method is proved to produce exactly the rounds of the
    protocol that the other modules reason about. */
module Loops {
  import opened Common
  import opened Network
  import opened Chunks
  import Ring
  import Tree
  import Butterfly

  /** `metal_reduce_op_view` on `dst`, from the memory that starts at `src`. */
  datatype Combine = Combine(dst: Region, src: nat)

  /** Threads started together and joined, then reductions in order. */
  datatype Step = Step(sends: map<nat, Region>, recvs: map<nat, Region>, combines: seq<Combine>)

  const IDLE := Step(map[], map[], [])

  function At(m: map<nat, Region>, p: nat): Region {
    if p in m then m[p] else NOTHING
  }

  function Run<T>(f: (T, T) -> T, m: seq<T>, cs: seq<Combine>): seq<T> {
    if cs == [] then m
    else
      var c := cs[|cs| - 1];
      Reduce(f, Run(f, m, cs[..|cs| - 1]), c.dst.lo, c.src, c.dst.len)
  }

  /** A reduction that reads and writes the counted part of the tensor, and reads scratch, a buffer of
      `len` elements that starts at `count`. */
  predicate Bounded(c: Combine, numel: nat, count: nat, len: nat) {
    c.dst.Within(numel) && count <= c.src && c.src + c.dst.len <= count + len
  }

  predicate AllBounded(cs: seq<Combine>, numel: nat, count: nat, len: nat) {
    forall i :: 0 <= i < |cs| ==> Bounded(cs[i], numel, count, len)
  }

  // ---------------------------------------------------------------- ring

  predicate RingStep(numel: nat, count: nat, world: nat, rank: nat, k: nat, st: Step)
    requires world > 0
  {
    && (forall p: nat :: p < world ==> At(st.sends, p) == Ring.Sends(numel, world, rank, k, p))
    && (forall p: nat :: p < world ==> At(st.recvs, p) == Ring.Recvs(numel, count, world, rank, k, p))
    && st.combines == if k < world - 1 then [Combine(Chunk(numel, world, Ring.RecvIdx(rank, k, world)), count)] else []
  }

  function RingTurn(numel: nat, count: nat, world: nat, rank: nat, k: nat): Step
    requires world > 0
  {
    var s, r := Chunk(numel, world, Ring.SendIdx(rank, k, world)), Chunk(numel, world, Ring.RecvIdx(rank, k, world));
    var next, prev := Ring.Next(rank, world), Ring.Prev(rank, world);
    if k < world - 1 then Step(map[next := s], map[prev := Region(count, r.len)], [Combine(r, count)])
    else Step(map[next := s], map[prev := r], [])
  }

  predicate Cut(chunks: seq<ChunkInfo>, numel: nat, elemSize: nat, world: nat)
    requires world > 0
  {
    |chunks| == world && forall i :: 0 <= i < world ==> chunks[i] == Info(Chunk(numel, world, i), elemSize)
  }

  method RingScatter(numel: nat, count: nat, elemSize: nat, rank: nat, world: nat, chunks: seq<ChunkInfo>)
    returns (plan: seq<Step>)
    requires world > 1 && rank < world && Cut(chunks, numel, elemSize, world)
    ensures |plan| == world - 1
    ensures forall k: nat :: k < world - 1 ==> plan[k] == RingTurn(numel, count, world, rank, k)
  {
    var next := (rank + 1) % world;
    var prev := (rank - 1 + world) % world;
    plan := [];
    for k := 0 to world - 1
      invariant |plan| == k
      invariant forall j: nat :: j < k ==> plan[j] == RingTurn(numel, count, world, rank, j)
    {
      var s := chunks[(rank - k + world) % world];
      var r := chunks[(rank - k - 1 + world) % world];
      plan := plan + [Step(map[next := Region(s.elemStart, s.elemCount)],
                           map[prev := Region(count, r.elemCount)],
                           [Combine(Region(r.elemStart, r.elemCount), count)])];
    }
  }

  method RingGather(numel: nat, count: nat, elemSize: nat, rank: nat, world: nat, chunks: seq<ChunkInfo>)
    returns (plan: seq<Step>)
    requires world > 1 && rank < world && Cut(chunks, numel, elemSize, world)
    ensures |plan| == world - 1
    ensures forall k: nat :: k < world - 1 ==> plan[k] == RingTurn(numel, count, world, rank, world - 1 + k)
  {
    var next := (rank + 1) % world;
    var prev := (rank - 1 + world) % world;
    plan := [];
    for k := 0 to world - 1
      invariant |plan| == k
      invariant forall j: nat :: j < k ==> plan[j] == RingTurn(numel, count, world, rank, world - 1 + j)
    {
      var s := chunks[(rank - k + 1 + world) % world];
      var r := chunks[(rank - k + world) % world];
      plan := plan + [Step(map[next := Region(s.elemStart, s.elemCount)],
                           map[prev := Region(r.elemStart, r.elemCount)], [])];
    }
  }

  method RingLoop(numel: nat, count: nat, elemSize: nat, rank: nat, world: nat) returns (plan: seq<Step>)
    requires world > 1 && rank < world && numel <= count
    ensures |plan| == 2 * (world - 1)
    ensures forall k: nat :: k < |plan| ==> RingStep(numel, count, world, rank, k, plan[k])
    ensures forall k: nat :: k < |plan| ==> AllBounded(plan[k].combines, numel, count, Per(count, world))
  {
    var chunks := Chunkize(numel, elemSize, world);
    var scatter := RingScatter(numel, count, elemSize, rank, world, chunks);
    var gather := RingGather(numel, count, elemSize, rank, world, chunks);
    plan := scatter + gather;
    forall k: nat | k < |plan|
      ensures RingStep(numel, count, world, rank, k, plan[k])
      ensures AllBounded(plan[k].combines, numel, count, Per(count, world))
    {
      RingTurnOk(numel, count, world, rank, k);
      RingBounded(numel, count, world, rank, k);
      assert k >= world - 1 ==> plan[k] == gather[k - (world - 1)];
    }
  }

  lemma RingTurnOk(numel: nat, count: nat, world: nat, rank: nat, k: nat)
    requires world > 1 && rank < world && k < 2 * (world - 1)
    ensures RingStep(numel, count, world, rank, k, RingTurn(numel, count, world, rank, k))
  {
  }

  lemma RingBounded(numel: nat, count: nat, world: nat, rank: nat, k: nat)
    requires world > 0 && numel <= count
    ensures AllBounded(RingTurn(numel, count, world, rank, k).combines, numel, count, Per(count, world))
  {
    ChunkBounds(numel, world, Ring.RecvIdx(rank, k, world));
    PerMono(numel, count, world);
  }

  lemma RingCombines<T>(J: Setup<T>, r: nat, k: nat, st: Step, m: seq<T>)
    requires J.world > 1 && k < 2 * (J.world - 1) && RingStep(J.numel, J.Count(), J.world, r, k, st)
    ensures Run(J.f, m, st.combines) == Ring.Locals(J, r, k, m)
  {
    if k < J.world - 1 {
      assert st.combines[..0] == [];
    }
  }

  // ---------------------------------------------------------------- tree

  predicate TreeStep(numel: nat, count: nat, world: nat, rank: nat, k: nat, st: Step) {
    && (forall p: nat :: p < world ==> At(st.sends, p) == Tree.Sends(numel, world, rank, k, p))
    && (forall p: nat :: p < world ==> At(st.recvs, p) == Tree.Recvs(numel, count, world, rank, k, p))
    && st.combines == if k < Tree.Levels(world) && Tree.Above(rank, Tree.Mask(world, k), world)
                      then [Combine(Region(0, numel), count)] else []
  }

  /** `rank & mask`, for a mask that is a power of two. */
  predicate BitSet(rank: nat, mask: nat)
    requires mask > 0
  {
    (rank / mask) % 2 == 1
  }

  lemma BitIsBelow(r: nat, m: nat)
    requires m > 0 && r % m == 0
    ensures BitSet(r, m) <==> Tree.Below(r, m)
    ensures !BitSet(r, m) <==> r % (2 * m) == 0
  {
    Tree.Halves(r, m);
    var q, t := r / (2 * m), r % (2 * m);
    assert r == (2 * m) * q + t;
    if t == 0 {
      assert r == (2 * q) * m + 0;
      DivMod(2 * q, 0, m);
    } else {
      assert r == (2 * q + 1) * m + 0;
      DivMod(2 * q + 1, 0, m);
    }
  }

  method TreeUp(numel: nat, count: nat, rank: nat, world: nat) returns (plan: seq<Step>)
    requires world > 1 && rank < world
    ensures |plan| == Tree.Levels(world)
    ensures forall k: nat :: k < |plan| ==> TreeStep(numel, count, world, rank, k, plan[k])
  {
    plan := [];
    var active := true;
    var mask := 1;
    while mask < world
      invariant |plan| <= Tree.Levels(world) && mask == Pow2(|plan|)
      invariant active <==> rank % mask == 0
      invariant forall k: nat :: k < |plan| ==> TreeStep(numel, count, world, rank, k, plan[k])
      decreases world - mask
    {
      ghost var k := |plan|;
      LevelCount(world, k);
      assert Tree.Mask(world, k) == mask;
      Tree.Halves(rank, mask);
      if !active {
        // The source leaves the loop here; the rank has nothing to do until the broadcast.
        plan := plan + [IDLE];
      } else {
        BitIsBelow(rank, mask);
        if BitSet(rank, mask) {
          Tree.Edges(rank, mask, world);
          plan := plan + [Step(map[(rank - mask) as nat := Region(0, numel)], map[], [])];
          active := false;
        } else {
          var src := rank + mask;
          if src < world {
            plan := plan + [Step(map[], map[src := Region(count, numel)], [Combine(Region(0, numel), count)])];
          } else {
            plan := plan + [IDLE];
          }
        }
      }
      assert TreeStep(numel, count, world, rank, k, plan[k]);
      mask := mask * 2;
    }
    LevelCount(world, |plan|);
  }

  /** The reduce loop runs exactly `Levels(world)` times. */
  lemma LevelCount(world: nat, k: nat)
    ensures k >= Tree.Levels(world) <==> world <= Pow2(k)
  {
    var n := Tree.Levels(world);
    if k > n {
      Tree.Pow2Grows(n, k);
    } else if k + 1 < n {
      Tree.Pow2Grows(k, n - 1);
    }
  }

  method TopMask(world: nat) returns (top: nat)
    requires world > 1
    ensures Tree.Levels(world) > 0 && top == Pow2(Tree.Levels(world) - 1)
  {
    top := 1;
    ghost var k := 0;
    while top * 2 < world
      invariant top == Pow2(k) < world
      decreases world - top
    {
      top := top * 2;
      k := k + 1;
    }
    LevelCount(world, k);
    LevelCount(world, k + 1);
  }

  /** One broadcast round, with the mask of round `k`. */
  method TreeDown(numel: nat, count: nat, rank: nat, world: nat, mask: nat, ghost k: nat) returns (st: Step)
    requires rank < world && Tree.Levels(world) <= k < 2 * Tree.Levels(world) && mask == Tree.Mask(world, k)
    ensures TreeStep(numel, count, world, rank, k, st)
  {
    var twomask := mask * 2;
    Tree.Edges(rank, mask, world);
    if rank % twomask == 0 && rank + mask < world {
      st := Step(map[rank + mask := Region(0, numel)], map[], []);
    } else if rank % twomask == mask {
      st := Step(map[], map[(rank - mask) as nat := Region(0, numel)], []);
    } else {
      st := IDLE;
    }
  }

  method TreeLoop(numel: nat, count: nat, rank: nat, world: nat) returns (plan: seq<Step>)
    requires world > 1 && rank < world && numel <= count
    ensures |plan| == 2 * Tree.Levels(world)
    ensures forall k: nat :: k < |plan| ==> TreeStep(numel, count, world, rank, k, plan[k])
    ensures forall k: nat :: k < |plan| ==> AllBounded(plan[k].combines, numel, count, count)
  {
    plan := TreeUp(numel, count, rank, world);
    var mask := TopMask(world);
    ghost var n := Tree.Levels(world);
    while mask >= 1
      invariant n <= |plan| <= 2 * n
      invariant mask == if |plan| < 2 * n then Pow2(2 * n - 1 - |plan|) else 0
      invariant forall k: nat :: k < |plan| ==> TreeStep(numel, count, world, rank, k, plan[k])
      decreases mask
    {
      var st := TreeDown(numel, count, rank, world, mask, |plan|);
      plan := plan + [st];
      mask := mask / 2;
    }
    forall k: nat | k < |plan| ensures AllBounded(plan[k].combines, numel, count, count) {
      TreeBounded(numel, count, world, rank, k, plan[k]);
    }
  }

  lemma TreeBounded(numel: nat, count: nat, world: nat, rank: nat, k: nat, st: Step)
    requires numel <= count && TreeStep(numel, count, world, rank, k, st)
    ensures AllBounded(st.combines, numel, count, count)
  {
  }

  lemma TreeCombines<T>(J: Setup<T>, r: nat, k: nat, st: Step, m: seq<T>)
    requires k < 2 * Tree.Levels(J.world) && TreeStep(J.numel, J.Count(), J.world, r, k, st)
    ensures Run(J.f, m, st.combines) == Tree.Locals(J, r, k, m)
  {
    if st.combines != [] {
      assert st.combines[..0] == [];
    }
  }

  // ---------------------------------------------------------------- butterfly

  predicate ButterflyStep(numel: nat, count: nat, world: nat, rank: nat, k: nat, st: Step)
    requires world > 0
  {
    && (forall p: nat :: p < world ==> At(st.sends, p) == Butterfly.Sends(numel, world, rank, k, p))
    && (forall p: nat :: p < world ==> At(st.recvs, p) == Butterfly.Recvs(numel, count, world, rank, k, p))
  }

  predicate SlotsInOrder(numel: nat, count: nat, world: nat, rank: nat, cs: seq<Combine>)
    requires world > 0
  {
    forall s: nat :: s < |cs| ==>
      cs[s] == Combine(Chunk(numel, world, rank), Butterfly.SlotRegion(numel, count, world, rank, s).lo)
  }

  method ButterflyScatter(numel: nat, count: nat, rank: nat, world: nat, chunks: seq<ChunkInfo>, elemSize: nat)
    returns (sends: map<nat, Region>, recvs: map<nat, Region>)
    requires world > 1 && rank < world && Cut(chunks, numel, elemSize, world)
    ensures ButterflyStep(numel, count, world, rank, 0, Step(sends, recvs, []))
  {
    var mine := chunks[rank];
    sends, recvs := map[], map[];
    var slot := 0;
    for p := 0 to world
      invariant slot == if p <= rank then p else p - 1
      invariant forall q: nat :: q < p ==> At(sends, q) == Butterfly.Sends(numel, world, rank, 0, q)
      invariant forall q: nat :: q < p ==> At(recvs, q) == Butterfly.Recvs(numel, count, world, rank, 0, q)
      invariant forall q: nat :: q >= p ==> q !in sends && q !in recvs
    {
      if p != rank {
        TimesIsProduct(slot, mine.elemCount);
        sends := sends[p := Region(chunks[p].elemStart, chunks[p].elemCount)];
        recvs := recvs[p := Region(count + slot * mine.elemCount, mine.elemCount)];
        slot := slot + 1;
      }
    }
  }

  method ButterflyGather(numel: nat, count: nat, rank: nat, world: nat, chunks: seq<ChunkInfo>, elemSize: nat)
    returns (sends: map<nat, Region>, recvs: map<nat, Region>)
    requires world > 1 && rank < world && Cut(chunks, numel, elemSize, world)
    ensures ButterflyStep(numel, count, world, rank, 1, Step(sends, recvs, []))
  {
    var mine := chunks[rank];
    sends, recvs := map[], map[];
    for p := 0 to world
      invariant forall q: nat :: q < p ==> At(sends, q) == Butterfly.Sends(numel, world, rank, 1, q)
      invariant forall q: nat :: q < p ==> At(recvs, q) == Butterfly.Recvs(numel, count, world, rank, 1, q)
      invariant forall q: nat :: q >= p ==> q !in sends && q !in recvs
    {
      if p != rank {
        sends := sends[p := Region(mine.elemStart, mine.elemCount)];
        recvs := recvs[p := Region(chunks[p].elemStart, chunks[p].elemCount)];
      }
    }
  }

  method ButterflyLoop(numel: nat, count: nat, elemSize: nat, rank: nat, world: nat) returns (plan: seq<Step>)
    requires world > 1 && rank < world && numel <= count
    ensures |plan| == 2
    ensures AllBounded(plan[0].combines, numel, count, Times(world - 1, Per(count, world)))
    ensures ButterflyStep(numel, count, world, rank, 0, plan[0]) && ButterflyStep(numel, count, world, rank, 1, plan[1])
    ensures |plan[0].combines| == world - 1 && SlotsInOrder(numel, count, world, rank, plan[0].combines)
    ensures plan[1].combines == []
  {
    var chunks := Chunkize(numel, elemSize, world);
    var mine := chunks[rank];
    var sends, recvs := ButterflyScatter(numel, count, rank, world, chunks, elemSize);
    var combines := [];
    for slot := 0 to world - 1
      invariant |combines| == slot && SlotsInOrder(numel, count, world, rank, combines)
    {
      TimesIsProduct(slot, mine.elemCount);
      combines := combines + [Combine(Region(mine.elemStart, mine.elemCount), count + slot * mine.elemCount)];
    }
    var sends', recvs' := ButterflyGather(numel, count, rank, world, chunks, elemSize);
    plan := [Step(sends, recvs, combines), Step(sends', recvs', [])];
    SlotsBounded(numel, count, world, rank, combines);
  }

  lemma SlotsBounded(numel: nat, count: nat, world: nat, rank: nat, cs: seq<Combine>)
    requires world > 1 && numel <= count && |cs| <= world - 1 && SlotsInOrder(numel, count, world, rank, cs)
    ensures AllBounded(cs, numel, count, Times(world - 1, Per(count, world)))
  {
    ChunkBounds(numel, world, rank);
    forall i | 0 <= i < |cs| ensures Bounded(cs[i], numel, count, Times(world - 1, Per(count, world))) {
      Butterfly.SlotBounds(numel, count, world, rank, i);
    }
  }

  lemma {:induction false} ButterflyCombines<T>(J: Setup<T>, r: nat, cs: seq<Combine>, m: seq<T>)
    requires J.world > 1 && SlotsInOrder(J.numel, J.Count(), J.world, r, cs)
    ensures Run(J.f, m, cs) == FoldSlots(J.f, m, Chunk(J.numel, J.world, r), J.Count(), |cs|)
    decreases |cs|
  {
    if cs != [] {
      ButterflyCombines(J, r, cs[..|cs| - 1], m);
      var slot := Butterfly.SlotRegion(J.numel, J.Count(), J.world, r, |cs| - 1);
      assert cs[|cs| - 1] == Combine(Chunk(J.numel, J.world, r), slot.lo);
    }
  }
}
