/** Reduce-scatter and allgather on the same mesh.  One thread serves each peer and finishes its
    send before it receives, so these collectives are `sendFirst`. */
module Collectives {
  import opened Network
  import opened Chunks
  import Butterfly

  /** A finished run, whatever the channel capacity, ends as the simple form does. */
  lemma FinishedRun<T(!new)>(P: Protocol<T>, cap: nat, init: Memories<T>, moves: seq<Move>)
    requires WellFormed(P) && Shaped(P, init) && Legal(P, cap, Initial(P, init), moves)
    requires Finished(P, Outcome(P, cap, init, moves))
    ensures forall r: nat :: r < P.n ==> Outcome(P, cap, init, moves).ranks[r].mem == Lockstep(P, init, P.rounds)[r]
  {
    RunBound(P, cap, init, moves);
    FinishedIsLockstep(P, init, Outcome(P, cap, init, moves));
  }

  // ---------------------------------------------------------------- reduce-scatter

  /** Memory: `world` input shares, the output, then one receive buffer per peer. */
  function OutRegion(chunk: nat, world: nat): Region {
    Region(Times(world, chunk), chunk)
  }

  function Buffers(chunk: nat, world: nat): nat {
    Times(world + 1, chunk)
  }

  function ScatterSends(chunk: nat, world: nat, r: nat, k: nat, p: nat): Region {
    if k == 1 && p != r then Region(Times(p, chunk), chunk) else NOTHING
  }

  function ScatterRecvs(chunk: nat, world: nat, r: nat, k: nat, p: nat): Region {
    if k == 1 && p != r then Region(Buffers(chunk, world) + Times(Butterfly.Slot(r, p), chunk), chunk) else NOTHING
  }

  function ScaleOut<T>(g: T -> T, m: seq<T>, own: Region): (m': seq<T>)
    ensures |m'| == |m|
  {
    seq(|m|, i requires 0 <= i < |m| => if own.Has(i) then g(m[i]) else m[i])
  }

  /** Round 0 seeds the output with the rank's own share; round 1 folds the peers' shares into it. */
  function ScatterLocals<T>(chunk: nat, world: nat, f: (T, T) -> T, g: T -> T, r: nat, k: nat, m: seq<T>): (m': seq<T>)
    requires world > 0
    ensures |m'| == |m|
  {
    var out := OutRegion(chunk, world);
    if k == 0 then Copy(m, out.lo, Times(r, chunk), chunk)
    else ScaleOut(g, FoldSlots(f, m, out, Buffers(chunk, world), world - 1), out)
  }

  function ReduceScatter<T>(chunk: nat, world: nat, f: (T, T) -> T, g: T -> T): Protocol<T>
    requires world > 0
  {
    Protocol(world, 2, Times(world + world, chunk),
             (r: nat, k: nat, p: nat) => ScatterSends(chunk, world, r, k, p),
             (r: nat, k: nat, p: nat) => ScatterRecvs(chunk, world, r, k, p),
             (r: nat, k: nat, m: seq<T>) => ScatterLocals(chunk, world, f, g, r, k, m),
             true)
  }

  lemma ScatterLink(chunk: nat, world: nat, r: nat, p: nat, q: nat)
    requires world > 1 && r < world && p < world && q < world && p != r
    ensures ScatterSends(chunk, world, r, 1, p).Within(Times(world, chunk))
    ensures Times(world, chunk) + chunk == Buffers(chunk, world) <= ScatterRecvs(chunk, world, r, 1, p).lo
    ensures ScatterRecvs(chunk, world, r, 1, p).Within(Times(world + world, chunk))
    ensures p != q && q != r ==> ScatterRecvs(chunk, world, r, 1, p).Apart(ScatterRecvs(chunk, world, r, 1, q))
  {
    var s, t := Butterfly.Slot(r, p), Butterfly.Slot(r, q);
    TimesMono(p + 1, world, chunk);
    TimesSum(world + 1, world - 1, chunk);
    TimesMono(s + 1, world - 1, chunk);
    if p != q && q != r {
      if s < t { TimesMono(s + 1, t, chunk); } else { TimesMono(t + 1, s, chunk); }
    }
  }

  lemma WellFormedScatter<T(!new)>(chunk: nat, world: nat, f: (T, T) -> T, g: T -> T)
    requires world > 1
    ensures WellFormed(ReduceScatter(chunk, world, f, g))
  {
    var P := ReduceScatter(chunk, world, f, g);
    forall r: nat, k: nat, p: nat | r < P.n && k < P.rounds && p < P.n ensures LinkOk(P, r, k, p) {
      if p != r {
        ScatterLink(chunk, world, r, p, p);
        TimesMono(world, world + world, chunk);
      }
    }
    forall r: nat, k: nat, p: nat, q: nat | r < P.n && k < P.rounds && p < P.n && q < P.n
      ensures NoClash(P, r, k, p, q)
    {
      if p != r {
        ScatterLink(chunk, world, r, p, q);
        if q != r { ScatterLink(chunk, world, r, q, p); }
      }
    }
  }

  lemma ScatterSlot<T(!new)>(chunk: nat, world: nat, f: (T, T) -> T, g: T -> T, h: History<T>, r: nat, s: nat, o: nat)
    requires world > 1 && r < world && s < world - 1 && o < chunk && Trace(ReduceScatter(chunk, world, f, g), h)
    ensures Times(r, chunk) + o < Times(world + world, chunk)
    ensures SlotHolds(h.landed[1][r], OutRegion(chunk, world), Buffers(chunk, world), s, Times(world, chunk) + o,
                      h.mems[1][Butterfly.Peer(r, s)][Times(r, chunk) + o])
  {
    var P, p := ReduceScatter(chunk, world, f, g), Butterfly.Peer(r, s);
    TimesMono(r + 1, world + world, chunk);
    Hit(P, h, 1, r, p, o);
  }

  lemma Untouched<T(!new)>(chunk: nat, world: nat, f: (T, T) -> T, g: T -> T, h: History<T>, k: nat, r: nat, i: nat)
    requires world > 1 && r < world && k < 2 && i < Buffers(chunk, world) && Trace(ReduceScatter(chunk, world, f, g), h)
    ensures i < Times(world + world, chunk)
    ensures h.landed[k][r][i] == h.mems[k][r][i]
  {
    var P := ReduceScatter(chunk, world, f, g);
    TimesMono(world + 1, world + world, chunk);
    forall p: nat | p < world ensures !P.recv(r, k, p).Has(i) {
      if p != r { ScatterLink(chunk, world, r, p, p); }
    }
    Miss(P, h, k, r, i);
  }

  /** Seeding changes the output only: inputs stay, and the output is the rank's own share. */
  lemma Seeded<T(!new)>(chunk: nat, world: nat, f: (T, T) -> T, g: T -> T, h: History<T>, r: nat, i: nat)
    requires world > 1 && r < world && i < Times(world, chunk) && Trace(ReduceScatter(chunk, world, f, g), h)
    ensures Times(world, chunk) + chunk == Buffers(chunk, world) <= Times(world + world, chunk)
    ensures h.mems[1][r][i] == h.mems[0][r][i]
    ensures Region(Times(r, chunk), chunk).Has(i) ==>
              h.mems[1][r][Times(world, chunk) + (i - Times(r, chunk))] == h.mems[0][r][i]
  {
    TimesMono(world + 1, world + world, chunk);
    Untouched(chunk, world, f, g, h, 0, r, i);
    Local(ReduceScatter(chunk, world, f, g), h, 0, r);
    if Region(Times(r, chunk), chunk).Has(i) {
      Untouched(chunk, world, f, g, h, 0, r, Times(world, chunk) + (i - Times(r, chunk)));
    }
  }

  lemma SlotsFilled<T(!new)>(chunk: nat, world: nat, f: (T, T) -> T, g: T -> T, h: History<T>, r: nat, e: nat)
    requires world > 1 && r < world && Region(Times(r, chunk), chunk).Has(e) && e < Times(world, chunk)
    requires Times(world, chunk) <= Times(world + world, chunk)
    requires Trace(ReduceScatter(chunk, world, f, g), h)
    ensures var ys := Others(Column(h.mems[0], e), r);
            forall s: nat :: s < |ys| ==>
              SlotHolds(h.landed[1][r], OutRegion(chunk, world), Buffers(chunk, world), s, Times(world, chunk)
                  + (e - Times(r, chunk)), ys[s])
  {
    var ys := Others(Column(h.mems[0], e), r);
    forall s: nat | s < |ys|
      ensures SlotHolds(h.landed[1][r], OutRegion(chunk, world), Buffers(chunk, world), s, Times(world, chunk)
          + (e - Times(r, chunk)), ys[s])
    {
      ScatterSlot(chunk, world, f, g, h, r, s, e - Times(r, chunk));
      Seeded(chunk, world, f, g, h, Butterfly.Peer(r, s), e);
    }
  }

  lemma FoldedOut<T(!new)>(chunk: nat, world: nat, f: (T, T) -> T, g: T -> T, r: nat, m: seq<T>, ys: seq<T>, i: nat)
    requires world > 1 && OutRegion(chunk, world).Has(i) && i < |m| && |ys| == world - 1
    requires forall s: nat :: s < |ys| ==> SlotHolds(m, OutRegion(chunk, world), Buffers(chunk, world), s, i, ys[s])
    ensures ScatterLocals(chunk, world, f, g, r, 1, m)[i] == g(Fold(f, m[i], ys))
  {
    FoldAt(f, m, OutRegion(chunk, world), Buffers(chunk, world), ys, i);
  }

  /** Where element `e` of rank `r`'s share lies in the output. */
  function OutOf(chunk: nat, world: nat, r: nat, e: nat): int {
    Times(world, chunk) + (e - Times(r, chunk))
  }

  lemma OutBounds(chunk: nat, world: nat, r: nat, e: nat)
    requires world > 1 && r < world && Region(Times(r, chunk), chunk).Has(e)
    ensures e < Times(world, chunk) <= OutOf(chunk, world, r, e) < Buffers(chunk, world) <= Times(world + world, chunk)
    ensures OutRegion(chunk, world).Has(OutOf(chunk, world, r, e))
  {
    TimesMono(r + 1, world, chunk);
    TimesMono(world + 1, world + world, chunk);
  }

  /** The output before the fold: the rank's own share. */
  lemma OutSeeded<T(!new)>(chunk: nat, world: nat, f: (T, T) -> T, g: T -> T, h: History<T>, r: nat, e: nat)
    requires world > 1 && r < world && Region(Times(r, chunk), chunk).Has(e)
    requires Trace(ReduceScatter(chunk, world, f, g), h)
    ensures e < Times(world, chunk) <= OutOf(chunk, world, r, e) < Times(world + world, chunk)
    ensures h.landed[1][r][OutOf(chunk, world, r, e)] == h.mems[0][r][e]
  {
    OutBounds(chunk, world, r, e);
    Seeded(chunk, world, f, g, h, r, e);
    Untouched(chunk, world, f, g, h, 1, r, OutOf(chunk, world, r, e));
  }

  /** Rank `r` ends with each element of its share reduced over all ranks: its own copy first, then
      its peers' in ascending order. */
  lemma ScatterResult<T(!new)>(chunk: nat, world: nat, f: (T, T) -> T, g: T -> T, h: History<T>, r: nat, e: nat)
    requires world > 1 && r < world && Region(Times(r, chunk), chunk).Has(e)
    requires Trace(ReduceScatter(chunk, world, f, g), h)
    ensures e < Times(world, chunk) <= OutOf(chunk, world, r, e) < Times(world + world, chunk)
    ensures h.mems[2][r][OutOf(chunk, world, r, e)] == g(Fold(f, h.mems[0][r][e], Others(Column(h.mems[0], e), r)))
  {
    OutBounds(chunk, world, r, e);
    OutSeeded(chunk, world, f, g, h, r, e);
    SlotsFilled(chunk, world, f, g, h, r, e);
    Local(ReduceScatter(chunk, world, f, g), h, 1, r);
    FoldedOut(chunk, world, f, g, r, h.landed[1][r], Others(Column(h.mems[0], e), r), OutOf(chunk, world, r, e));
  }

  // ---------------------------------------------------------------- allgather

  /** Memory: the input, then the staging buffer for `world` shares. */
  function GatherSends(chunk: nat, r: nat, k: nat, p: nat): Region {
    if k == 1 && p != r then Region(0, chunk) else NOTHING
  }

  function GatherRecvs(chunk: nat, r: nat, k: nat, p: nat): Region {
    if k == 1 && p != r then Region(Times(p + 1, chunk), chunk) else NOTHING
  }

  /** Round 0 copies the rank's own share into place. */
  function GatherLocals<T>(chunk: nat, r: nat, k: nat, m: seq<T>): (m': seq<T>)
    ensures |m'| == |m|
  {
    if k == 0 then Copy(m, Times(r + 1, chunk), 0, chunk) else m
  }

  function Allgather<T>(chunk: nat, world: nat): Protocol<T> {
    Protocol(world, 2, Times(world + 1, chunk),
             (r: nat, k: nat, p: nat) => GatherSends(chunk, r, k, p),
             (r: nat, k: nat, p: nat) => GatherRecvs(chunk, r, k, p),
             (r: nat, k: nat, m: seq<T>) => GatherLocals(chunk, r, k, m),
             true)
  }

  lemma SharesApart(chunk: nat, p: nat, q: nat)
    requires p != q
    ensures Region(Times(p + 1, chunk), chunk).Apart(Region(Times(q + 1, chunk), chunk))
    ensures Region(Times(p + 1, chunk), chunk).Apart(Region(0, chunk))
  {
    TimesMono(1, p + 1, chunk);
    if p < q { TimesMono(p + 2, q + 1, chunk); } else { TimesMono(q + 2, p + 1, chunk); }
  }

  lemma WellFormedGather<T(!new)>(chunk: nat, world: nat)
    ensures WellFormed<T>(Allgather(chunk, world))
  {
    var P: Protocol<T> := Allgather(chunk, world);
    forall r: nat, k: nat, p: nat | r < P.n && k < P.rounds && p < P.n ensures LinkOk(P, r, k, p) {
      TimesMono(p + 2, world + 1, chunk);
      TimesMono(1, world + 1, chunk);
    }
    forall r: nat, k: nat, p: nat, q: nat | r < P.n && k < P.rounds && p < P.n && q < P.n
      ensures NoClash(P, r, k, p, q)
    {
      if p != q { SharesApart(chunk, p, q); } else { SharesApart(chunk, p, p + 1); }
    }
  }

  /** After the own copy: the input is still there, and the own share is in place. */
  lemma OwnCopied<T(!new)>(chunk: nat, world: nat, h: History<T>, r: nat, o: nat)
    requires r < world && o < chunk && Trace(Allgather(chunk, world), h)
    ensures o < Times(r + 1, chunk) && Times(r + 1, chunk) + o < Times(world + 1, chunk)
    ensures h.mems[1][r][o] == h.mems[0][r][o] && h.mems[1][r][Times(r + 1, chunk) + o] == h.mems[0][r][o]
  {
    var P: Protocol<T> := Allgather(chunk, world);
    TimesMono(1, r + 1, chunk);
    TimesMono(r + 2, world + 1, chunk);
    Local(P, h, 0, r);
    Miss(P, h, 0, r, o);
  }

  /** Every rank ends with every rank's input, in rank order. */
  lemma GatherResult<T(!new)>(chunk: nat, world: nat, h: History<T>, r: nat, p: nat, o: nat)
    requires r < world && p < world && o < chunk && Trace(Allgather(chunk, world), h)
    ensures Times(p + 1, chunk) + o < Times(world + 1, chunk) && o < Times(world + 1, chunk)
    ensures h.mems[2][r][Times(p + 1, chunk) + o] == h.mems[0][p][o]
  {
    var P: Protocol<T> := Allgather(chunk, world);
    TimesMono(p + 2, world + 1, chunk);
    OwnCopied(chunk, world, h, p, o);
    Local(P, h, 1, r);
    if p == r {
      forall q: nat | q < world ensures !P.recv(r, 1, q).Has(Times(p + 1, chunk) + o) {
        if q != p { SharesApart(chunk, q, p); }
      }
      Miss(P, h, 1, r, Times(p + 1, chunk) + o);
    } else {
      Hit(P, h, 1, r, p, o);
    }
  }

  // ---------------------------------------------------------------- together

  /** What rank `c` holds after a reduce-scatter is the butterfly's value of chunk `c`. */
  lemma ScatteredShare<T(!new)>(chunk: nat, world: nat, f: (T, T) -> T, g: T -> T, h: History<T>, c: nat, o: nat)
    requires world > 1 && c < world && o < chunk && Trace(ReduceScatter(chunk, world, f, g), h)
    ensures Times(c, chunk) + o < Times(world, chunk) <= Times(world + world, chunk)
    ensures Times(world, chunk) + o < Times(world + world, chunk)
    ensures h.mems[2][c][Times(world, chunk) + o]
         == Butterfly.Value(Setup(Times(world, chunk), 0, world, f, g), h.mems[0], Times(c, chunk) + o)
  {
    ScatterResult(chunk, world, f, g, h, c, Times(c, chunk) + o);
    EvenChunk(chunk, world, c);
    HomeUnique(Times(world, chunk), world, Times(c, chunk) + o, c);
  }

  /** Reduce-scatter and then allgather end, on every rank and at every element, with exactly the
      value of butterfly allreduce, for any op: both seed with the owner's share and fold the peers
      in ascending order. */
  lemma ScatterGatherIsButterfly<T(!new)>(chunk: nat, world: nat, f: (T, T) -> T, g: T -> T,
                                          h1: History<T>, h2: History<T>, r: nat, c: nat, o: nat)
    requires world > 1 && r < world && c < world && o < chunk
    requires Trace(ReduceScatter(chunk, world, f, g), h1) && Trace(Allgather(chunk, world), h2)
    requires Times(world, chunk) + o < Times(world + world, chunk) && o < Times(world + 1, chunk)
    requires h2.mems[0][c][o] == h1.mems[2][c][Times(world, chunk) + o]
    ensures Times(c, chunk) + o < Times(world, chunk) <= Times(world + world, chunk)
    ensures Times(c + 1, chunk) + o < Times(world + 1, chunk)
    ensures h2.mems[2][r][Times(c + 1, chunk) + o]
         == Butterfly.Value(Setup(Times(world, chunk), 0, world, f, g), h1.mems[0], Times(c, chunk) + o)
  {
    GatherResult(chunk, world, h2, r, c, o);
    ScatteredShare(chunk, world, f, g, h1, c, o);
  }

  /** The same over runs: any finished reduce-scatter, followed by any finished allgather of its
      outputs, leaves butterfly's value everywhere. */
  lemma RunsScatterGather<T(!new)>(chunk: nat, world: nat, f: (T, T) -> T, g: T -> T, cap: nat,
                                   init1: Memories<T>, moves1: seq<Move>, init2: Memories<T>, moves2: seq<Move>,
                                   r: nat, c: nat, o: nat)
    requires world > 1 && r < world && c < world && o < chunk
    requires var P := ReduceScatter(chunk, world, f, g);
             && WellFormed(P) && Shaped(P, init1)
             && Legal(P, cap, Initial(P, init1), moves1) && Finished(P, Outcome(P, cap, init1, moves1))
    requires var P: Protocol<T> := Allgather(chunk, world);
             && WellFormed(P) && Shaped(P, init2)
             && Legal(P, cap, Initial(P, init2), moves2) && Finished(P, Outcome(P, cap, init2, moves2))
    requires Times(world, chunk) + o < Times(world + world, chunk) && o < Times(world + 1, chunk)
    requires init2[c][o]
          == Outcome(ReduceScatter(chunk, world, f, g), cap, init1, moves1).ranks[c].mem[Times(world, chunk) + o]
    ensures Times(c, chunk) + o < Times(world, chunk) <= Times(world + world, chunk)
    ensures Times(c + 1, chunk) + o < Times(world + 1, chunk)
    ensures Outcome(Allgather(chunk, world), cap, init2, moves2).ranks[r].mem[Times(c + 1, chunk) + o]
         == Butterfly.Value(Setup(Times(world, chunk), 0, world, f, g), init1, Times(c, chunk) + o)
  {
    var h1 := LockstepTrace(ReduceScatter(chunk, world, f, g), init1);
    var h2 := LockstepTrace(Allgather(chunk, world), init2);
    FinishedRun(ReduceScatter(chunk, world, f, g), cap, init1, moves1);
    FinishedRun(Allgather(chunk, world), cap, init2, moves2);
    ScatterGatherIsButterfly(chunk, world, f, g, h1, h2, r, c, o);
  }
}
