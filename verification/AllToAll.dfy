/** All-to-all with per-peer splits: prefix-sum offsets, a staged output, and one thread per peer. */
module AllToAll {
  import opened Common
  import opened Network
  import opened Chunks

  datatype Result<T> = Ok(value: T) | Err(error: string)

  function Prefix(splits: seq<nat>, p: nat): nat
    requires p <= |splits|
  {
    if p == 0 then 0 else Prefix(splits, p - 1) + splits[p - 1]
  }

  lemma {:induction false} PrefixMono(splits: seq<nat>, p: nat, q: nat)
    requires p <= q <= |splits|
    ensures Prefix(splits, p) <= Prefix(splits, q)
    decreases q
  {
    if p < q { PrefixMono(splits, p, q - 1); }
  }

  predicate InSegment(splits: seq<nat>, p: nat, e: nat)
    requires p < |splits|
  {
    Prefix(splits, p) <= e < Prefix(splits, p + 1)
  }

  lemma OneSegment(splits: seq<nat>, p: nat, q: nat, e: nat)
    requires p < |splits| && q < |splits| && InSegment(splits, p, e) && InSegment(splits, q, e)
    ensures p == q
  {
    if p < q { PrefixMono(splits, p + 1, q); } else if q < p { PrefixMono(splits, q + 1, p); }
  }

  /** Consecutive, gap-free segments: every element below the total lies in exactly one. */
  lemma {:induction false} SegmentsTile(splits: seq<nat>, n: nat, e: nat) returns (p: nat)
    requires n <= |splits| && e < Prefix(splits, n)
    ensures p < n && InSegment(splits, p, e)
    ensures forall q: nat :: q < |splits| && InSegment(splits, q, e) ==> q == p
    decreases n
  {
    if e >= Prefix(splits, n - 1) {
      p := n - 1;
    } else {
      p := SegmentsTile(splits, n - 1, e);
    }
    forall q: nat | q < |splits| && InSegment(splits, q, e) ensures q == p {
      OneSegment(splits, p, q, e);
    }
  }

  function Even(per: nat, world: nat): (splits: seq<nat>)
    ensures |splits| == world && forall p :: 0 <= p < world ==> splits[p] == per
  {
    seq<nat>(world, _ => per)
  }

  /** The same sums for the signed sizes that callers pass. */
  function Signed(splits: seq<int>, p: nat): int
    requires p <= |splits|
  {
    if p == 0 then 0 else Signed(splits, p - 1) + splits[p - 1]
  }

  lemma {:induction false} SignedIsPrefix(splits: seq<nat>, p: nat)
    requires p <= |splits|
    ensures Signed(splits, p) == Prefix(splits, p)
  {
    if p > 0 { SignedIsPrefix(splits, p - 1); }
  }

  /** `n` elements in bytes, as a 64-bit number. */
  function Bytes(n: int, elemSize: nat): nat {
    (n * elemSize) % U64
  }

  predicate OffsetsOf(off: seq<nat>, splits: seq<int>, elemSize: nat) {
    |off| == |splits| + 1 && forall p: nat :: p <= |splits| ==> off[p] == Bytes(Signed(splits, p), elemSize)
  }

  lemma Wraps(x: int, y: int)
    ensures (x % U64 + y) % U64 == (x + y) % U64 && (x % U64 + y % U64) % U64 == (x + y) % U64
  {
  }

  lemma OffsetStep(sum: int, split: int, elemSize: nat)
    ensures (Bytes(sum, elemSize) + Bytes(split, elemSize)) % U64 == Bytes(sum + split, elemSize)
    ensures Bytes(0, elemSize) == 0
  {
    assert (sum + split) * elemSize == sum * elemSize + split * elemSize;
    Wraps(sum * elemSize, split * elemSize);
  }

  /** The running sums; `lens[p]` is the length of segment `p` in bytes. */
  method RunningOffsets(lens: seq<nat>, ghost splits: seq<int>, ghost elemSize: nat) returns (off: seq<nat>)
    requires |lens| == |splits| && forall p :: 0 <= p < |splits| ==> lens[p] == Bytes(splits[p], elemSize)
    ensures OffsetsOf(off, splits, elemSize)
  {
    off := [0];
    OffsetStep(0, 0, elemSize);
    for p := 0 to |lens|
      invariant |off| == p + 1
      invariant forall q: nat :: q <= p ==> off[q] == Bytes(Signed(splits, q), elemSize)
    {
      OffsetStep(Signed(splits, p), splits[p], elemSize);
      off := off + [(off[p] + lens[p]) % U64];
    }
  }

  method SplitOffsets(splits: seq<int>, elemSize: nat) returns (off: seq<nat>)
    ensures OffsetsOf(off, splits, elemSize)
  {
    var lens := seq<nat>(|splits|, p requires 0 <= p < |splits| => Bytes(splits[p], elemSize));
    off := RunningOffsets(lens, splits, elemSize);
  }

  method EvenOffsets(each: nat, elemSize: nat, world: nat) returns (off: seq<nat>)
    ensures OffsetsOf(off, Even(each, world), elemSize)
  {
    var per := Bytes(each, elemSize);
    var lens := seq<nat>(world, _ => per);
    off := RunningOffsets(lens, Even(each, world), elemSize);
  }

  /** The byte offsets of one side.  Empty `splits` means equal shares of the tensor.  Sizes are not
      checked: negative ones and sums past 64 bits wrap. */
  method Offsets(splits: seq<int>, numel: nat, elemSize: nat, nbytes: nat, world: nat, side: string)
    returns (off: Result<seq<nat>>)
    requires world > 0 && elemSize > 0 && nbytes == numel * elemSize < U64
    ensures off.Ok? <==> (if splits == [] then numel % world == 0 else |splits| == world)
    ensures off.Ok? ==> OffsetsOf(off.value, if splits == [] then Even(numel / world, world) else splits, elemSize)
  {
    if splits == [] {
      var per := Bytes(numel / world, elemSize);
      ShareFits(numel, world, elemSize);
      DividesIff(numel, world, elemSize);
      if (per * world) % U64 != nbytes {
        return Err("alltoall_base: " + side + " not divisible by world");
      }
      var even := EvenOffsets(numel / world, elemSize, world);
      off := Ok(even);
    } else {
      if |splits| != world {
        return Err("alltoall_base: " + side + "_split_sizes wrong length");
      }
      var given := SplitOffsets(splits, elemSize);
      off := Ok(given);
    }
  }

  /** An even share does not wrap, nor do all of them together. */
  lemma ShareFits(numel: nat, world: nat, elemSize: nat)
    requires world > 0 && numel * elemSize < U64
    ensures Bytes(numel / world, elemSize) == numel / world * elemSize
    ensures (Bytes(numel / world, elemSize) * world) % U64 == (numel / world * elemSize) * world
  {
    var q := numel / world;
    assert numel == q * world + numel % world;
    MulMono(q * world, numel, elemSize);
    assert q * world * elemSize == (q * elemSize) * world;
    assert q * elemSize >= 0;
    MulMono(1, world, q * elemSize);
    assert 1 * (q * elemSize) == q * elemSize && world * (q * elemSize) == (q * elemSize) * world;
  }

  /** The length of segment `p` that the code works with: a difference of 64-bit offsets. */
  function LengthOf(off: seq<nat>, p: nat): nat
    requires p + 1 < |off|
  {
    (off[p + 1] - off[p]) % U64
  }

  /** Wherever the offsets have wrapped to, each length is the caller's size in bytes, modulo 2^64. */
  lemma LengthIs(off: seq<nat>, splits: seq<int>, elemSize: nat, p: nat)
    requires OffsetsOf(off, splits, elemSize) && p < |splits|
    ensures LengthOf(off, p) == Bytes(splits[p], elemSize)
  {
    var before, size := Signed(splits, p) * elemSize, splits[p] * elemSize;
    assert off[p] == Bytes(Signed(splits, p), elemSize) && off[p + 1] == Bytes(Signed(splits, p + 1), elemSize);
    assert Signed(splits, p + 1) * elemSize == before + size by {
      Distribute(Signed(splits, p), splits[p], elemSize);
    }
    WrapsAway(before, size);
  }

  lemma WrapsAway(x: int, y: int)
    ensures ((x + y) % U64 - x % U64) % U64 == y % U64
  {
  }

  lemma Unwrapped(x: int)
    ensures x % U64 == x <==> 0 <= x < U64
  {
  }

  lemma SignOf(x: int, elemSize: nat)
    requires elemSize > 0
    ensures x >= 0 <==> x * elemSize >= 0
  {
    if x < 0 { assert (-x) * elemSize >= elemSize; assert x * elemSize == -((-x) * elemSize); }
  }

  predicate NonNegative(splits: seq<int>) {
    forall p :: 0 <= p < |splits| ==> splits[p] >= 0
  }

  lemma {:induction false} SignedMono(splits: seq<int>, p: nat, q: nat)
    requires p <= q <= |splits| && NonNegative(splits)
    ensures 0 <= Signed(splits, p) <= Signed(splits, q)
    decreases q
  {
    if p < q {
      SignedMono(splits, p, q - 1);
    } else if p > 0 {
      SignedMono(splits, p - 1, q - 1);
    }
  }

  /** Every segment starts and ends where its caller's sizes put it, in bytes, and is as long as they say. */
  predicate Exact(off: seq<nat>, splits: seq<int>, elemSize: nat) {
    && |off| == |splits| + 1
    && (forall p: nat :: p <= |splits| ==> off[p] == Signed(splits, p) * elemSize)
    && (forall p: nat :: p < |splits| ==> LengthOf(off, p) == splits[p] * elemSize)
  }

  lemma ProductBetween(x: nat, y: nat, elemSize: nat)
    requires x <= y && y * elemSize < U64
    ensures 0 <= x * elemSize < U64
  {
    MulMono(x, y, elemSize);
  }

  /** No prefix of non-negative sizes leaves 64 bits if their total does not, nor does a single size. */
  lemma PrefixFits(splits: seq<int>, elemSize: nat, p: nat)
    requires NonNegative(splits) && Signed(splits, |splits|) * elemSize < U64 && p <= |splits|
    ensures 0 <= Signed(splits, p) * elemSize < U64
    ensures p < |splits| ==> 0 <= splits[p] * elemSize < U64
  {
    var total := Signed(splits, |splits|);
    SignedMono(splits, p, |splits|);
    ProductBetween(Signed(splits, p), total, elemSize);
    if p < |splits| {
      SignedMono(splits, p + 1, |splits|);
      ProductBetween(splits[p], total, elemSize);
    }
  }

  /** The segments are the callers' if and only if no size is negative and all of them together stay in
      64 bits. */
  lemma ExactIff(off: seq<nat>, splits: seq<int>, elemSize: nat)
    requires OffsetsOf(off, splits, elemSize) && elemSize > 0
    ensures Exact(off, splits, elemSize) <==> NonNegative(splits) && Signed(splits, |splits|) * elemSize < U64
  {
    if NonNegative(splits) && Signed(splits, |splits|) * elemSize < U64 {
      forall p: nat | p <= |splits| ensures off[p] == Signed(splits, p) * elemSize {
        PrefixFits(splits, elemSize, p);
        Unwrapped(Signed(splits, p) * elemSize);
      }
      forall p: nat | p < |splits| ensures LengthOf(off, p) == splits[p] * elemSize {
        PrefixFits(splits, elemSize, p);
        LengthIs(off, splits, elemSize, p);
        Unwrapped(splits[p] * elemSize);
      }
    }
    if Exact(off, splits, elemSize) {
      forall p: nat | p < |splits| ensures splits[p] >= 0 {
        assert LengthOf(off, p) == splits[p] * elemSize;
        SignOf(splits[p], elemSize);
      }
      assert off[|splits|] == Bytes(Signed(splits, |splits|), elemSize);
    }
  }

  /** The offsets alone do not show it: sizes 2 and -1 have the right offsets, and a length of nearly
      2^64 bytes. */
  lemma NegativeSizeHides(off: seq<nat>)
    requires OffsetsOf(off, [2, -1], 4)
    ensures off == [0, 8, 4] && LengthOf(off, 1) == U64 - 4
  {
    var splits := [2, -1];
    assert Signed(splits, 0) == 0 && Signed(splits, 1) == 2 && Signed(splits, 2) == 1;
    assert off[0] == Bytes(0, 4) && off[1] == Bytes(2, 4) && off[2] == Bytes(1, 4);
  }

  lemma Distribute(a: int, b: int, c: nat)
    ensures (a + b) * c == a * c + b * c
  {
  }

  lemma DividesIff(numel: nat, world: nat, elemSize: nat)
    requires world > 0 && elemSize > 0
    ensures (numel / world * elemSize) * world == numel * elemSize <==> numel % world == 0
  {
    var q, t := numel / world, numel % world;
    assert numel == q * world + t;
    assert (q * elemSize) * world == (q * world) * elemSize;
    Distribute(q * world, t, elemSize);
    if t > 0 { assert t * elemSize > 0; }
  }

  // ---------------------------------------------------------------- the exchange

  /** `ins[r][p]` elements go from `r` to `p`; `outs[r][p]` are expected from `p`.  A rank's memory
      is its input (`inSize`), the staging buffer (`outSize`) and the output tensor (`outSize`);
      with `alias` the output tensor is the input tensor. */
  datatype Exchange = Exchange(
    world: nat, ins: seq<seq<nat>>, outs: seq<seq<nat>>, inSize: nat, outSize: nat, alias: bool)

  /** What the callers owe each other: splits that fit the buffers and agree pairwise. */
  predicate Agreed(X: Exchange) {
    && |X.ins| == |X.outs| == X.world
    && (forall r :: 0 <= r < X.world ==> |X.ins[r]| == |X.outs[r]| == X.world)
    && (forall r :: 0 <= r < X.world ==> Prefix(X.ins[r], X.world) <= X.inSize)
    && (forall r :: 0 <= r < X.world ==> Prefix(X.outs[r], X.world) <= X.outSize)
    && (forall r, p :: 0 <= r < X.world && 0 <= p < X.world ==> X.ins[r][p] == X.outs[p][r])
    && (X.alias ==> X.outSize <= X.inSize)
  }

  function Segment(splits: seq<seq<nat>>, r: nat, p: nat): Region {
    if r < |splits| && p < |splits[r]| then Region(Prefix(splits[r], p), splits[r][p]) else NOTHING
  }

  function Sends(X: Exchange, r: nat, k: nat, p: nat): Region {
    if k == 1 && p != r then Segment(X.ins, r, p) else NOTHING
  }

  function Staged(X: Exchange, r: nat, p: nat): Region {
    Region(X.inSize + Segment(X.outs, r, p).lo, Segment(X.outs, r, p).len)
  }

  function Recvs(X: Exchange, r: nat, k: nat, p: nat): Region {
    if k == 1 && p != r then Staged(X, r, p) else NOTHING
  }

  function OutAt(X: Exchange): nat {
    if X.alias then 0 else X.inSize + X.outSize
  }

  /** Round 0 is the rank's own segment, round 2 writes the staged output to the output tensor. */
  function Locals<T>(X: Exchange, r: nat, k: nat, m: seq<T>): (m': seq<T>)
    ensures |m'| == |m|
  {
    if k == 0 then Copy(m, Staged(X, r, r).lo, Segment(X.ins, r, r).lo, Segment(X.ins, r, r).len)
    else if k == 2 then Copy(m, OutAt(X), X.inSize, X.outSize)
    else m
  }

  function Alltoall<T>(X: Exchange): Protocol<T> {
    Protocol(X.world, 3, X.inSize + X.outSize + X.outSize,
             (r: nat, k: nat, p: nat) => Sends(X, r, k, p),
             (r: nat, k: nat, p: nat) => Recvs(X, r, k, p),
             (r: nat, k: nat, m: seq<T>) => Locals(X, r, k, m),
             true)
  }

  lemma SegmentBounds(splits: seq<seq<nat>>, world: nat, r: nat, p: nat, size: nat)
    requires r < |splits| && |splits[r]| == world && p < world && Prefix(splits[r], world) <= size
    ensures Segment(splits, r, p).Within(size)
  {
    PrefixMono(splits[r], p + 1, world);
  }

  lemma SegmentsApart(splits: seq<seq<nat>>, r: nat, p: nat, q: nat)
    requires r < |splits| && p < |splits[r]| && q < |splits[r]| && p != q
    ensures Segment(splits, r, p).Apart(Segment(splits, r, q))
  {
    if p < q { PrefixMono(splits[r], p + 1, q); } else { PrefixMono(splits[r], q + 1, p); }
  }

  /** The byte ranges the code reads are the segments of the exchange, for sizes that fit the buffer. */
  lemma OffsetsAreSegments(splits: seq<seq<nat>>, world: nat, r: nat, size: nat, elemSize: nat, off: seq<nat>, p: nat)
    requires r < |splits| && |splits[r]| == world && p < world && Prefix(splits[r], world) <= size
    requires elemSize > 0 && size * elemSize < U64 && OffsetsOf(off, splits[r], elemSize)
    ensures off[p] == Segment(splits, r, p).lo * elemSize
    ensures LengthOf(off, p) == Segment(splits, r, p).len * elemSize
  {
    SignedIsPrefix(splits[r], world);
    SignedIsPrefix(splits[r], p);
    MulMono(Prefix(splits[r], world), size, elemSize);
    ExactIff(off, splits[r], elemSize);
  }

  lemma WellFormedAlltoall<T(!new)>(X: Exchange)
    requires Agreed(X)
    ensures WellFormed<T>(Alltoall(X))
  {
    var P: Protocol<T> := Alltoall(X);
    forall r: nat, k: nat, p: nat | r < P.n && k < P.rounds && p < P.n ensures LinkOk(P, r, k, p) {
      SegmentBounds(X.ins, X.world, r, p, X.inSize);
      SegmentBounds(X.outs, X.world, r, p, X.outSize);
    }
    forall r: nat, k: nat, p: nat, q: nat | r < P.n && k < P.rounds && p < P.n && q < P.n
      ensures NoClash(P, r, k, p, q)
    {
      SegmentBounds(X.ins, X.world, r, q, X.inSize);
      if p != q { SegmentsApart(X.outs, r, p, q); }
    }
  }

  lemma OwnSegment<T(!new)>(X: Exchange, h: History<T>, r: nat, i: nat)
    requires Agreed(X) && r < X.world && Trace(Alltoall(X), h) && i < X.inSize
    ensures h.mems[1][r][i] == h.mems[0][r][i]
    ensures Segment(X.ins, r, r).Has(i) ==>
              var j := Staged(X, r, r).lo + (i - Segment(X.ins, r, r).lo);
              j < X.inSize + X.outSize && h.mems[1][r][j] == h.mems[0][r][i]
  {
    var P: Protocol<T> := Alltoall(X);
    SegmentBounds(X.outs, X.world, r, r, X.outSize);
    Miss(P, h, 0, r, i);
    Local(P, h, 0, r);
    assert X.ins[r][r] == X.outs[r][r];
  }

  /** After the exchange the staging buffer holds, in segment `p`, what `p` sent. */
  lemma StagedResult<T(!new)>(X: Exchange, h: History<T>, r: nat, p: nat, o: nat)
    requires Agreed(X) && r < X.world && p < X.world && Trace(Alltoall(X), h) && o < X.outs[r][p]
    ensures Segment(X.ins, p, r).lo + o < X.inSize && Staged(X, r, p).lo + o < X.inSize + X.outSize
    ensures h.mems[2][r][Staged(X, r, p).lo + o] == h.mems[0][p][Segment(X.ins, p, r).lo + o]
  {
    var P: Protocol<T> := Alltoall(X);
    assert X.ins[p][r] == X.outs[r][p];
    SegmentBounds(X.ins, X.world, p, r, X.inSize);
    SegmentBounds(X.outs, X.world, r, p, X.outSize);
    OwnSegment(X, h, p, Segment(X.ins, p, r).lo + o);
    Local(P, h, 1, r);
    if p == r {
      var i := Staged(X, r, p).lo + o;
      forall q: nat | q < X.world ensures !P.recv(r, 1, q).Has(i) {
        if q != r { SegmentsApart(X.outs, r, q, r); }
      }
      Miss(P, h, 1, r, i);
    } else {
      Hit(P, h, 1, r, p, o);
    }
  }

  /** All-to-all is a transpose: segment `p` of rank `r`'s output is segment `r` of rank `p`'s input,
      also when input and output are the same tensor. */
  lemma Transpose<T(!new)>(X: Exchange, h: History<T>, r: nat, p: nat, o: nat)
    requires Agreed(X) && r < X.world && p < X.world && Trace(Alltoall(X), h) && o < X.outs[r][p]
    ensures Segment(X.ins, p, r).lo + o < X.inSize && Segment(X.outs, r, p).lo + o < X.outSize
    ensures h.mems[3][r][OutAt(X) + Segment(X.outs, r, p).lo + o] == h.mems[0][p][Segment(X.ins, p, r).lo + o]
  {
    var P: Protocol<T> := Alltoall(X);
    StagedResult(X, h, r, p, o);
    SegmentBounds(X.outs, X.world, r, p, X.outSize);
    Miss(P, h, 2, r, Staged(X, r, p).lo + o);
    Local(P, h, 2, r);
  }

  /** With equal shares, doing it twice restores every rank's input. */
  lemma TwiceIsIdentity<T(!new)>(X: Exchange, per: nat, h1: History<T>, h2: History<T>, r: nat, p: nat, o: nat)
    requires Agreed(X) && Trace(Alltoall(X), h1) && Trace(Alltoall(X), h2)
    requires forall q :: 0 <= q < X.world ==> X.ins[q] == X.outs[q] == Even(per, X.world)
    requires X.inSize == X.outSize
    requires forall q: nat, i: nat :: q < X.world && i < X.inSize ==> h2.mems[0][q][i] == h1.mems[3][q][OutAt(X) + i]
    requires r < X.world && p < X.world && o < per
    ensures Segment(X.ins, r, p).lo + o < X.inSize
    ensures h2.mems[3][r][OutAt(X) + Segment(X.ins, r, p).lo + o] == h1.mems[0][r][Segment(X.ins, r, p).lo + o]
  {
    Transpose(X, h2, r, p, o);
    Transpose(X, h1, p, r, o);
  }

  /** Over runs: whatever the interleaving, a finished all-to-all is the transpose. */
  lemma RunsTranspose<T(!new)>(X: Exchange, cap: nat, init: Memories<T>, moves: seq<Move>, r: nat, p: nat, o: nat)
    requires Agreed(X) && r < X.world && p < X.world && o < X.outs[r][p]
    requires var P: Protocol<T> := Alltoall(X);
             WellFormed(P) && Shaped(P, init) && Legal(P, cap, Initial(P, init), moves)
                 && Finished(P, Outcome(P, cap, init, moves))
    ensures Segment(X.ins, p, r).lo + o < X.inSize && Segment(X.outs, r, p).lo + o < X.outSize
    ensures Outcome(Alltoall(X), cap, init, moves).ranks[r].mem[OutAt(X) + Segment(X.outs, r, p).lo + o]
         == init[p][Segment(X.ins, p, r).lo + o]
  {
    var P: Protocol<T> := Alltoall(X);
    var h := LockstepTrace(P, init);
    RunBound(P, cap, init, moves);
    FinishedIsLockstep(P, init, Outcome(P, cap, init, moves));
    Transpose(X, h, r, p, o);
  }
}
