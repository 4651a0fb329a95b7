/** Ring allreduce: world-1 reduce-scatter rounds, then world-1 allgather rounds.  Every round
    sends one chunk to the next rank while one chunk arrives from the previous rank. */
module Ring {
  import opened Network
  import opened Chunks

  function Next(r: nat, world: nat): nat
    requires world > 0
  {
    (r + 1) % world
  }

  function Prev(r: nat, world: nat): nat
    requires world > 0
  {
    (r - 1 + world) % world
  }

  /** Chunk sent in round `k`; the rounds from `world - 1` on are the allgather. */
  function SendIdx(r: nat, k: nat, world: nat): nat
    requires world > 0
  {
    if k < world - 1 then (r - k + world) % world else (r - (k - (world - 1)) + 1 + world) % world
  }

  function RecvIdx(r: nat, k: nat, world: nat): nat
    requires world > 0
  {
    if k < world - 1 then (r - k - 1 + world) % world else (r - (k - (world - 1)) + world) % world
  }

  function Sends(numel: nat, world: nat, r: nat, k: nat, p: nat): Region
    requires world > 0
  {
    if k < 2 * (world - 1) && p == Next(r, world) then Chunk(numel, world, SendIdx(r, k, world)) else NOTHING
  }

  /** Reduce-scatter receives into scratch, which starts at `scratch`; allgather into the tensor. */
  function Recvs(numel: nat, scratch: nat, world: nat, r: nat, k: nat, p: nat): Region
    requires world > 0
  {
    if k >= 2 * (world - 1) || p != Prev(r, world) then NOTHING
    else
      var c := Chunk(numel, world, RecvIdx(r, k, world));
      if k < world - 1 then Region(scratch, c.len) else c
  }

  function Locals<T>(J: Setup<T>, r: nat, k: nat, m: seq<T>): (m': seq<T>)
    requires J.world > 0
    ensures |m'| == |m|
  {
    if k < J.world - 1 then
      var c := Chunk(J.numel, J.world, RecvIdx(r, k, J.world));
      Reduce(J.f, m, c.lo, J.Count(), c.len)
    else if k == 2 * (J.world - 1) then Scale(J.g, m, J.numel)
    else m
  }

  function Allreduce<T>(J: Setup<T>): Protocol<T>
    requires J.world > 0
  {
    Protocol(J.world, 2 * (J.world - 1) + 1, J.Count() + Per(J.Count(), J.world),
             (r: nat, k: nat, p: nat) => Sends(J.numel, J.world, r, k, p),
             (r: nat, k: nat, p: nat) => Recvs(J.numel, J.Count(), J.world, r, k, p),
             (r: nat, k: nat, m: seq<T>) => Locals(J, r, k, m),
             false)
  }

  lemma Wrap(a: int, n: int)
    requires n > 0 && -n <= a < 2 * n
    ensures (a + n) % n == Turn(a, n)
  {
    assert a + n == Turn(a, n) + n * (if a < 0 then 0 else if a < n then 1 else 2);
    ModUnique(Turn(a, n), if a < 0 then 0 else if a < n then 1 else 2, n);
  }

  function Turn(a: int, n: int): int {
    if a < 0 then a + n else if a < n then a else a - n
  }

  lemma ModUnique(r: nat, q: nat, n: int)
    requires n > 0 && r < n && q <= 2
    ensures (r + n * q) % n == r
  {
  }

  /** How far rank `r` is behind chunk `c`'s first rank, going round the ring. */
  function Dist(r: nat, c: nat, world: nat): nat
    requires r < world && c < world
  {
    if r >= c then r - c else r + world - c
  }

  /** The index arithmetic of the source, in one place. */
  lemma Indices(r: nat, k: nat, world: nat)
    requires world > 1 && r < world && k < 2 * (world - 1)
    ensures Next(r, world) < world && Prev(r, world) < world
    ensures Prev(Next(r, world), world) == r && Next(Prev(r, world), world) == r
    ensures SendIdx(r, k, world) < world && RecvIdx(r, k, world) < world
    ensures SendIdx(r, k, world) != RecvIdx(r, k, world)
    ensures RecvIdx(Next(r, world), k, world) == SendIdx(r, k, world)
    ensures SendIdx(Prev(r, world), k, world) == RecvIdx(r, k, world)
  {
    Forms(r, k, world);
    Forms(Next(r, world), k, world);
    Forms(Prev(r, world), k, world);
  }

  /** Which chunk a round touches, in terms of distances on the ring. */
  lemma Places(r: nat, k: nat, c: nat, world: nat)
    requires world > 1 && r < world && c < world && k < 2 * (world - 1)
    ensures Prev(r, world) < world && Next(r, world) < world && Next(Prev(r, world), world) == r
    ensures Dist(r, c, world) > 0 ==>
              Dist(Prev(r, world), c, world) == Dist(r, c, world) - 1 && Turn(c + Dist(r, c, world), world) == r
    ensures Dist(r, c, world) == 0 ==> r == c
    ensures Dist(r, c, world) < world
    ensures Dist(Next(r, world), c, world) == 0 ==> Dist(r, c, world) == world - 1
    ensures k < world - 1 ==> (c == RecvIdx(r, k, world) <==> Dist(r, c, world) == k + 1)
    ensures k >= world - 1 ==> (c == RecvIdx(r, k, world) <==> Dist(Next(r, world), c, world) == k - (world - 1) + 1)
  {
    Forms(r, k, world);
    Forms(Prev(r, world), k, world);
  }

  lemma Forms(r: nat, k: nat, world: nat)
    requires world > 1 && r < world && k < 2 * (world - 1)
    ensures Next(r, world) == Turn(r + 1, world) && Prev(r, world) == Turn(r - 1, world)
    ensures k < world - 1 ==>
              && SendIdx(r, k, world) == Turn(r - k, world)
              && RecvIdx(r, k, world) == Turn(r - k - 1, world)
    ensures k >= world - 1 ==>
              && SendIdx(r, k, world) == Turn(r - (k - (world - 1)) + 1, world)
              && RecvIdx(r, k, world) == Turn(r - (k - (world - 1)), world)
  {
    ModUnique(Turn(r + 1, world), if r + 1 < world then 0 else 1, world);
    Wrap(r - 1, world);
    if k < world - 1 {
      Wrap(r - k, world);
      Wrap(r - k - 1, world);
    } else {
      Wrap(r - (k - (world - 1)) + 1, world);
      Wrap(r - (k - (world - 1)), world);
    }
  }

  lemma Links<T(!new)>(J: Setup<T>, r: nat, k: nat, p: nat)
    requires J.world > 1 && r < J.world && p < J.world && k < 2 * (J.world - 1)
    ensures LinkOk(Allreduce(J), r, k, p)
  {
    Indices(r, k, J.world);
    Indices(p, k, J.world);
    PerMono(J.numel, J.Count(), J.world);
    ChunkBounds(J.numel, J.world, SendIdx(r, k, J.world));
    ChunkBounds(J.numel, J.world, RecvIdx(r, k, J.world));
  }

  lemma Clashes<T(!new)>(J: Setup<T>, r: nat, k: nat, p: nat, q: nat)
    requires J.world > 1 && r < J.world && p < J.world && q < J.world && k < 2 * (J.world - 1)
    ensures NoClash(Allreduce(J), r, k, p, q)
  {
    Indices(r, k, J.world);
    ChunkBounds(J.numel, J.world, SendIdx(r, k, J.world));
    ChunksApart(J.numel, J.world, RecvIdx(r, k, J.world), SendIdx(r, k, J.world));
  }

  lemma WellFormedRing<T(!new)>(J: Setup<T>)
    requires J.world > 1
    ensures WellFormed(Allreduce(J))
  {
    var P := Allreduce(J);
    forall r: nat, k: nat, p: nat | r < P.n && k < P.rounds && p < P.n ensures LinkOk(P, r, k, p) {
      if k < 2 * (J.world - 1) { Links(J, r, k, p); }
    }
    forall r: nat, k: nat, p: nat, q: nat | r < P.n && k < P.rounds && p < P.n && q < P.n
      ensures NoClash(P, r, k, p, q)
    {
      if k < 2 * (J.world - 1) { Clashes(J, r, k, p, q); }
    }
  }

  // ---------------------------------------------------------------- what the rounds compute

  /** Chunk `c` starts at rank `c` and meets `i` more ranks: the nested fold
      f(x[c+i], ... f(x[c+1], x[c])), ranks taken round the ring. */
  function Nested<T>(f: (T, T) -> T, col: seq<T>, c: nat, i: nat): T
    requires c < |col| && i < |col|
  {
    if i == 0 then col[c] else f(col[Turn(c + i, |col|)], Nested(f, col, c, i - 1))
  }

  lemma ScratchArrives<T(!new)>(J: Setup<T>, h: History<T>, k: nat, r: nat, e: nat)
    requires J.world > 1 && k < J.world - 1 && r < J.world && e < J.numel && Trace(Allreduce(J), h)
    ensures Prev(r, J.world) < J.world
    ensures h.landed[k][r][e] == h.mems[k][r][e]
    ensures var home := Chunk(J.numel, J.world, RecvIdx(r, k, J.world));
            home.Has(e) ==>
              && e - home.lo < Per(J.Count(), J.world)
              && h.landed[k][r][J.Count() + (e - home.lo)] == h.mems[k][Prev(r, J.world)][e]
  {
    var P := Allreduce(J);
    Indices(r, k, J.world);
    PerMono(J.numel, J.Count(), J.world);
    Miss(P, h, k, r, e);
    var d, prev := RecvIdx(r, k, J.world), Prev(r, J.world);
    var home := Chunk(J.numel, J.world, d);
    ChunkBounds(J.numel, J.world, d);
    if home.Has(e) {
      Hit(P, h, k, r, prev, e - home.lo);
    }
  }

  /** One reduce-scatter round: the chunk received is combined, every other one is left alone. */
  lemma ReduceRound<T(!new)>(J: Setup<T>, h: History<T>, k: nat, r: nat, c: nat, e: nat)
    requires J.world > 1 && k < J.world - 1 && r < J.world && c < J.world && Chunk(J.numel, J.world, c).Has(e)
    requires Trace(Allreduce(J), h)
    ensures e < J.numel && Prev(r, J.world) < J.world
    ensures h.mems[k + 1][r][e]
         == if c == RecvIdx(r, k, J.world)
             then J.f(h.mems[k][r][e], h.mems[k][Prev(r, J.world)][e]) else h.mems[k][r][e]
  {
    ChunkBounds(J.numel, J.world, c);
    Indices(r, k, J.world);
    ScratchArrives(J, h, k, r, e);
    Local(Allreduce(J), h, k, r);
    Combined(J, k, r, c, e, h.landed[k][r]);
  }

  /** The reduction of a round touches the received chunk only. */
  lemma Combined<T>(J: Setup<T>, k: nat, r: nat, c: nat, e: nat, m: seq<T>)
    requires J.world > 1 && k < J.world - 1 && Chunk(J.numel, J.world, c).Has(e) && e < |m|
    ensures var home := Chunk(J.numel, J.world, RecvIdx(r, k, J.world));
            && (c != RecvIdx(r, k, J.world) ==> Locals(J, r, k, m)[e] == m[e])
            && (c == RecvIdx(r, k, J.world) && J.Count() + (e - home.lo) < |m| ==>
                  Locals(J, r, k, m)[e] == J.f(m[e], m[J.Count() + (e - home.lo)]))
  {
    if c != RecvIdx(r, k, J.world) { ChunksApart(J.numel, J.world, c, RecvIdx(r, k, J.world)); }
  }

  /** After `j` reduce-scatter rounds rank `r` holds, in the chunk `i` places behind it, the nested
      fold of ranks r-i..r when i <= j; every other chunk still holds its own input. */
  lemma {:induction false} AfterReduceScatter<T(!new)>(J: Setup<T>, h: History<T>, j: nat, r: nat, c: nat, e: nat)
    requires J.world > 1 && j <= J.world - 1 && r < J.world && c < J.world && Chunk(J.numel, J.world, c).Has(e)
    requires Trace(Allreduce(J), h)
    ensures e < J.numel
    ensures h.mems[j][r][e]
         == if Dist(r, c, J.world) <= j
             then Nested(J.f, Column(h.mems[0], e), c, Dist(r, c, J.world)) else h.mems[0][r][e]
    decreases j
  {
    ChunkBounds(J.numel, J.world, c);
    if j > 0 {
      var k := j - 1;
      Places(r, k, c, J.world);
      ReduceRound(J, h, k, r, c, e);
      AfterReduceScatter(J, h, k, r, c, e);
      AfterReduceScatter(J, h, k, Prev(r, J.world), c, e);
    }
  }

  /** One allgather round copies the received chunk and leaves every other one alone. */
  lemma GatherRound<T(!new)>(J: Setup<T>, h: History<T>, k: nat, r: nat, c: nat, e: nat)
    requires J.world > 1 && J.world - 1 <= k < 2 * (J.world - 1) && r < J.world && c < J.world
    requires Chunk(J.numel, J.world, c).Has(e) && Trace(Allreduce(J), h)
    ensures e < J.numel && Prev(r, J.world) < J.world
    ensures h.mems[k + 1][r][e]
         == if c == RecvIdx(r, k, J.world) then h.mems[k][Prev(r, J.world)][e] else h.mems[k][r][e]
  {
    var P := Allreduce(J);
    Indices(r, k, J.world);
    ChunkBounds(J.numel, J.world, c);
    var d, prev := RecvIdx(r, k, J.world), Prev(r, J.world);
    var home := Chunk(J.numel, J.world, d);
    Local(P, h, k, r);
    if c == d {
      Hit(P, h, k, r, prev, e - home.lo);
    } else {
      ChunksApart(J.numel, J.world, c, d);
      Miss(P, h, k, r, e);
    }
  }

  /** After reduce-scatter rank `r` owns chunk `r + 1`.  After `j` more rounds every rank has the
      owner's copy of that chunk and of the chunks of the `j` ranks behind it, and the others as
      reduce-scatter left them. */
  lemma {:induction false} AfterGather<T(!new)>(J: Setup<T>, h: History<T>, j: nat, r: nat, c: nat, e: nat)
    requires J.world > 1 && j <= J.world - 1 && r < J.world && c < J.world && Chunk(J.numel, J.world, c).Has(e)
    requires Trace(Allreduce(J), h)
    ensures e < J.numel && Next(r, J.world) < J.world && Prev(c, J.world) < J.world
    ensures h.mems[J.world - 1 + j][r][e]
         == h.mems[J.world - 1][if Dist(Next(r, J.world), c, J.world) <= j then Prev(c, J.world) else r][e]
    decreases j
  {
    ChunkBounds(J.numel, J.world, c);
    Behind(r, c, J.world);
    if j > 0 {
      var k := J.world - 1 + j - 1;
      Places(r, k, c, J.world);
      GatherRound(J, h, k, r, c, e);
      AfterGather(J, h, j - 1, r, c, e);
      AfterGather(J, h, j - 1, Prev(r, J.world), c, e);
    }
  }

  lemma Behind(r: nat, c: nat, world: nat)
    requires world > 1 && r < world && c < world
    ensures Next(r, world) < world && Prev(r, world) < world && Prev(c, world) < world
    ensures Next(Prev(r, world), world) == r
    ensures Dist(Next(r, world), c, world) == 0 <==> r == Prev(c, world)
    ensures Dist(Next(r, world), c, world) > 0 ==> Dist(r, c, world) == Dist(Next(r, world), c, world) - 1
    ensures Dist(Next(r, world), c, world) < world && Dist(Prev(c, world), c, world) == world - 1
  {
    Forms(r, 0, world);
    Forms(c, 0, world);
    Forms(Prev(r, world), 0, world);
  }

  /** The value every rank ends with at element `e`. */
  function Value<T>(J: Setup<T>, xs: Memories<T>, e: nat): T
    requires J.world > 1 && e < J.numel && |xs| == J.world && forall r :: 0 <= r < J.world ==> J.numel <= |xs[r]|
  {
    J.g(Nested(J.f, Column(xs, e), Home(J.numel, J.world, e), J.world - 1))
  }

  lemma Result<T(!new)>(J: Setup<T>, h: History<T>, r: nat, e: nat)
    requires J.world > 1 && r < J.world && e < J.numel && Trace(Allreduce(J), h)
    ensures h.mems[2 * (J.world - 1) + 1][r][e] == Value(J, h.mems[0], e)
  {
    var P, c, k := Allreduce(J), Home(J.numel, J.world, e), 2 * (J.world - 1);
    Behind(r, c, J.world);
    AfterGather(J, h, J.world - 1, r, c, e);
    AfterReduceScatter(J, h, J.world - 1, Prev(c, J.world), c, e);
    Local(P, h, k, r);
    Miss(P, h, k, r, e);
  }

  /** What the count leaves out is left alone: no round receives, reduces or scales it. */
  lemma LeavesRest<T(!new)>(J: Setup<T>, h: History<T>, k: nat, r: nat, e: nat)
    requires J.world > 1 && k < 2 * (J.world - 1) + 1 && r < J.world && J.numel <= e < J.Count()
    requires Trace(Allreduce(J), h)
    ensures h.mems[k + 1][r][e] == h.mems[k][r][e]
  {
    var P := Allreduce(J);
    ChunkBounds(J.numel, J.world, RecvIdx(r, k, J.world));
    Miss(P, h, k, r, e);
    Local(P, h, k, r);
  }

  /** Sends read the counted part of the tensor; receives fill it, or scratch as it was allocated. */
  lemma InBounds<T(!new)>(J: Setup<T>, r: nat, k: nat, p: nat)
    requires J.world > 1
    ensures InTensor(J, Sends(J.numel, J.world, r, k, p))
    ensures InTensor(J, Recvs(J.numel, J.Count(), J.world, r, k, p))
         || InScratch(J, Per(J.Count(), J.world), Recvs(J.numel, J.Count(), J.world, r, k, p))
  {
    ChunkBounds(J.numel, J.world, SendIdx(r, k, J.world));
    ChunkBounds(J.numel, J.world, RecvIdx(r, k, J.world));
    PerMono(J.numel, J.Count(), J.world);
  }
}
