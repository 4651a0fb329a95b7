/** Full-mesh "butterfly" allreduce: every rank collects its own chunk from all peers at once,
    folds the copies in ascending peer order, and hands the result to all peers at once. */
module Butterfly {
  import opened Network
  import opened Chunks

  /** Scratch slots are numbered over the peers, leaving the rank itself out. */
  function Slot(r: nat, p: nat): int {
    if p < r then p else p - 1
  }

  function Peer(r: nat, slot: nat): nat {
    if slot < r then slot else slot + 1
  }

  function SlotRegion(numel: nat, scratch: nat, world: nat, r: nat, slot: nat): Region
    requires world > 0
  {
    var len := Chunk(numel, world, r).len;
    Region(scratch + Times(slot, len), len)
  }

  function Sends(numel: nat, world: nat, r: nat, k: nat, p: nat): Region
    requires world > 0
  {
    if p == r then NOTHING
    else if k == 0 then Chunk(numel, world, p)
    else if k == 1 then Chunk(numel, world, r)
    else NOTHING
  }

  function Recvs(numel: nat, scratch: nat, world: nat, r: nat, k: nat, p: nat): Region
    requires world > 0
  {
    if p == r then NOTHING
    else if k == 0 then SlotRegion(numel, scratch, world, r, Slot(r, p))
    else if k == 1 then Chunk(numel, world, p)
    else NOTHING
  }

  function Locals<T>(J: Setup<T>, r: nat, k: nat, m: seq<T>): (m': seq<T>)
    requires J.world > 0
    ensures |m'| == |m|
  {
    if k == 0 then FoldSlots(J.f, m, Chunk(J.numel, J.world, r), J.Count(), J.world - 1)
    else if k == 2 then Scale(J.g, m, J.numel)
    else m
  }

  function Allreduce<T>(J: Setup<T>): Protocol<T>
    requires J.world > 0
  {
    Protocol(J.world, 3, J.Count() + Times(J.world - 1, Per(J.Count(), J.world)),
             (r: nat, k: nat, p: nat) => Sends(J.numel, J.world, r, k, p),
             (r: nat, k: nat, p: nat) => Recvs(J.numel, J.Count(), J.world, r, k, p),
             (r: nat, k: nat, m: seq<T>) => Locals(J, r, k, m),
             false)
  }

  /** All slots lie in a scratch buffer for `count` elements. */
  lemma SlotBounds(numel: nat, count: nat, world: nat, r: nat, slot: nat)
    requires world > 1 && slot < world - 1 && numel <= count
    ensures count <= SlotRegion(numel, count, world, r, slot).lo
    ensures SlotRegion(numel, count, world, r, slot).Within(count + Times(world - 1, Per(count, world)))
  {
    ChunkBounds(numel, world, r);
    PerMono(numel, count, world);
    var len := Chunk(numel, world, r).len;
    TimesMono(slot + 1, world - 1, len);
    TimesLen(world - 1, len, Per(count, world));
  }

  lemma SlotsApart(numel: nat, scratch: nat, world: nat, r: nat, i: nat, j: nat)
    requires world > 0 && i != j
    ensures SlotRegion(numel, scratch, world, r, i).Apart(SlotRegion(numel, scratch, world, r, j))
  {
    var len := Chunk(numel, world, r).len;
    if i < j { TimesMono(i + 1, j, len); } else { TimesMono(j + 1, i, len); }
  }

  lemma Links<T(!new)>(J: Setup<T>, r: nat, k: nat, p: nat)
    requires J.world > 1 && r < J.world && p < J.world && k < 3
    ensures LinkOk(Allreduce(J), r, k, p)
  {
    ChunkBounds(J.numel, J.world, r);
    ChunkBounds(J.numel, J.world, p);
    if p != r {
      SlotBounds(J.numel, J.Count(), J.world, r, Slot(r, p));
    }
  }

  lemma Clashes(numel: nat, scratch: nat, world: nat, r: nat, k: nat, p: nat, q: nat)
    requires world > 1 && r < world && p < world && q < world && k < 3 && numel <= scratch
    ensures Recvs(numel, scratch, world, r, k, p).Apart(Sends(numel, world, r, k, q))
    ensures p != q ==> Recvs(numel, scratch, world, r, k, p).Apart(Recvs(numel, scratch, world, r, k, q))
  {
    if p != r && k == 0 {
      ChunkBounds(numel, world, q);
      if p != q && q != r { SlotsApart(numel, scratch, world, r, Slot(r, p), Slot(r, q)); }
    } else if p != r && k == 1 {
      ChunksApart(numel, world, p, r);
      if p != q { ChunksApart(numel, world, p, q); }
    }
  }

  lemma WellFormedButterfly<T(!new)>(J: Setup<T>)
    requires J.world > 1
    ensures WellFormed(Allreduce(J))
  {
    var P := Allreduce(J);
    forall r: nat, k: nat, p: nat | r < P.n && k < P.rounds && p < P.n ensures LinkOk(P, r, k, p) {
      Links(J, r, k, p);
    }
    forall r: nat, k: nat, p: nat, q: nat | r < P.n && k < P.rounds && p < P.n && q < P.n
      ensures NoClash(P, r, k, p, q)
    {
      Clashes(J.numel, J.Count(), J.world, r, k, p, q);
    }
  }

  // ---------------------------------------------------------------- what the rounds compute

  lemma SlotLink(numel: nat, scratch: nat, world: nat, r: nat, s: nat)
    requires world > 1 && r < world && s < world - 1
    ensures Peer(r, s) < world
    ensures Recvs(numel, scratch, world, r, 0, Peer(r, s)) == SlotRegion(numel, scratch, world, r, s)
    ensures Sends(numel, world, Peer(r, s), 0, r) == Chunk(numel, world, r)
  {
  }

  lemma SlotArrives<T(!new)>(J: Setup<T>, h: History<T>, r: nat, s: nat, e: nat)
    requires J.world > 1 && r < J.world && s < J.world - 1 && e < J.numel && Chunk(J.numel, J.world, r).Has(e)
    requires Trace(Allreduce(J), h)
    ensures var own := Chunk(J.numel, J.world, r);
            SlotHolds(h.landed[0][r], own, J.Count(), s, e, h.mems[0][Peer(r, s)][e])
  {
    SlotLink(J.numel, J.Count(), J.world, r, s);
    Hit(Allreduce(J), h, 0, r, Peer(r, s), e - Chunk(J.numel, J.world, r).lo);
  }

  lemma SlotsArrive<T(!new)>(J: Setup<T>, h: History<T>, r: nat, e: nat)
    requires J.world > 1 && r < J.world && e < J.numel && Chunk(J.numel, J.world, r).Has(e)
    requires Trace(Allreduce(J), h)
    ensures h.landed[0][r][e] == h.mems[0][r][e]
    ensures var own, ys := Chunk(J.numel, J.world, r), Others(Column(h.mems[0], e), r);
            forall s: nat :: s < |ys| ==> SlotHolds(h.landed[0][r], own, J.Count(), s, e, ys[s])
  {
    var own, ys := Chunk(J.numel, J.world, r), Others(Column(h.mems[0], e), r);
    forall s: nat | s < |ys| ensures SlotHolds(h.landed[0][r], own, J.Count(), s, e, ys[s]) {
      SlotArrives(J, h, r, s, e);
    }
    Miss(Allreduce(J), h, 0, r, e);
  }

  /** After the first round every rank's own chunk is folded over all ranks: the owner's share
      first, then its peers in ascending order. */
  lemma AfterReduceScatter<T(!new)>(J: Setup<T>, h: History<T>, r: nat, e: nat)
    requires J.world > 1 && r < J.world && Chunk(J.numel, J.world, r).Has(e) && Trace(Allreduce(J), h)
    ensures e < J.numel
    ensures h.mems[1][r][e] == Fold(J.f, h.mems[0][r][e], Others(Column(h.mems[0], e), r))
  {
    ChunkBounds(J.numel, J.world, r);
    SlotsArrive(J, h, r, e);
    Local(Allreduce(J), h, 0, r);
    OwnFolded(J, r, h.landed[0][r], Others(Column(h.mems[0], e), r), e);
  }

  lemma OwnFolded<T(!new)>(J: Setup<T>, r: nat, m: seq<T>, ys: seq<T>, e: nat)
    requires J.world > 1 && Chunk(J.numel, J.world, r).Has(e) && e < |m| && |ys| == J.world - 1
    requires forall s: nat :: s < |ys| ==> SlotHolds(m, Chunk(J.numel, J.world, r), J.Count(), s, e, ys[s])
    ensures Locals(J, r, 0, m)[e] == Fold(J.f, m[e], ys)
  {
    ChunkBounds(J.numel, J.world, r);
    FoldAt(J.f, m, Chunk(J.numel, J.world, r), J.Count(), ys, e);
  }

  function Value<T>(J: Setup<T>, xs: Memories<T>, e: nat): T
    requires J.world > 1 && e < J.numel && |xs| == J.world && forall q :: 0 <= q < J.world ==> J.numel <= |xs[q]|
  {
    var c := Home(J.numel, J.world, e);
    J.g(Fold(J.f, xs[c][e], Others(Column(xs, e), c)))
  }

  lemma AfterGather<T(!new)>(J: Setup<T>, h: History<T>, r: nat, e: nat)
    requires J.world > 1 && r < J.world && e < J.numel && Trace(Allreduce(J), h)
    ensures h.mems[2][r][e] == h.mems[1][Home(J.numel, J.world, e)][e]
  {
    var P, c := Allreduce(J), Home(J.numel, J.world, e);
    Local(P, h, 1, r);
    if c == r {
      forall p: nat | p < J.world ensures !P.recv(r, 1, p).Has(e) {
        if p != r { ChunksApart(J.numel, J.world, p, r); }
      }
      Miss(P, h, 1, r, e);
    } else {
      Hit(P, h, 1, r, c, e - Chunk(J.numel, J.world, c).lo);
    }
  }

  lemma Result<T(!new)>(J: Setup<T>, h: History<T>, r: nat, e: nat)
    requires J.world > 1 && r < J.world && e < J.numel && Trace(Allreduce(J), h)
    ensures h.mems[3][r][e] == Value(J, h.mems[0], e)
  {
    var P := Allreduce(J);
    AfterGather(J, h, r, e);
    AfterReduceScatter(J, h, Home(J.numel, J.world, e), e);
    Local(P, h, 2, r);
    Miss(P, h, 2, r, e);
  }

  /** What the count leaves out is left alone: no round receives, reduces or scales it. */
  lemma LeavesRest<T(!new)>(J: Setup<T>, h: History<T>, k: nat, r: nat, e: nat)
    requires J.world > 1 && k < 3 && r < J.world && J.numel <= e < J.Count() && Trace(Allreduce(J), h)
    ensures h.mems[k + 1][r][e] == h.mems[k][r][e]
  {
    var P, own := Allreduce(J), Chunk(J.numel, J.world, r);
    ChunkBounds(J.numel, J.world, r);
    forall p: nat | p < J.world ensures !P.recv(r, k, p).Has(e) {
      ChunkBounds(J.numel, J.world, p);
    }
    Miss(P, h, k, r, e);
    Local(P, h, k, r);
    FoldElsewhere(J.f, h.landed[k][r], own, J.Count(), J.world - 1, e);
  }

  /** Sends read the counted part of the tensor; receives fill it, or scratch as it was allocated. */
  lemma InBounds<T(!new)>(J: Setup<T>, r: nat, k: nat, p: nat)
    requires J.world > 1 && r < J.world && p < J.world
    ensures InTensor(J, Sends(J.numel, J.world, r, k, p))
    ensures InTensor(J, Recvs(J.numel, J.Count(), J.world, r, k, p))
         || InScratch(J, Times(J.world - 1, Per(J.Count(), J.world)), Recvs(J.numel, J.Count(), J.world, r, k, p))
  {
    ChunkBounds(J.numel, J.world, r);
    ChunkBounds(J.numel, J.world, p);
    if p != r { SlotBounds(J.numel, J.Count(), J.world, r, Slot(r, p)); }
  }

  /** The source's own check of the scratch size never fires. */
  lemma ScratchSuffices(numel: nat, count: nat, world: nat, r: nat)
    requires world > 1 && numel <= count
    ensures (world - 1) * Chunk(numel, world, r).len <= (world - 1) * Per(count, world)
  {
    var len, per := Chunk(numel, world, r).len, Per(count, world);
    ChunkBounds(numel, world, r);
    PerMono(numel, count, world);
    MulMono(len, per, world - 1);
    assert len * (world - 1) == (world - 1) * len && per * (world - 1) == (world - 1) * per;
  }
}
