/** Binomial-tree allreduce for any number of ranks: reduce towards rank 0 over masks 1, 2, 4, ...,
    then broadcast back over the same masks in reverse. */
module Tree {
  import opened Common
  import opened Network
  import opened Chunks

  /** How many masks the reduce loop runs through: ceil(log2 world). */
  function Levels(world: nat): (n: nat)
    ensures world <= Pow2(n)
    ensures n > 0 ==> Pow2(n - 1) < world
  {
    LevelsFrom(0, world)
  }

  function LevelsFrom(k: nat, world: nat): (n: nat)
    requires k > 0 ==> Pow2(k - 1) < world
    ensures n >= k && world <= Pow2(n)
    ensures n > 0 ==> Pow2(n - 1) < world
    decreases world - Pow2(k)
  {
    if Pow2(k) < world then LevelsFrom(k + 1, world) else k
  }

  /** The mask of round `k`, up for the reduction and then down for the broadcast. */
  function Mask(world: nat, k: nat): (m: nat)
    ensures m >= 1
  {
    var n := Levels(world);
    if k < n then Pow2(k) else if k < 2 * n then Pow2(2 * n - 1 - k) else 1
  }

  /** With mask `m`, rank `r` hangs below `r - m`, or has `r + m` below it. */
  predicate Below(r: nat, m: nat)
    requires m > 0
  {
    r % (2 * m) == m
  }

  predicate Above(r: nat, m: nat, world: nat)
    requires m > 0
  {
    r % (2 * m) == 0 && r + m < world
  }

  function Sends(numel: nat, world: nat, r: nat, k: nat, p: nat): Region {
    var n, m := Levels(world), Mask(world, k);
    if k < n && Below(r, m) && p + m == r then Region(0, numel)
    else if n <= k < 2 * n && Above(r, m, world) && p == r + m then Region(0, numel)
    else NOTHING
  }

  function Recvs(numel: nat, scratch: nat, world: nat, r: nat, k: nat, p: nat): Region {
    var n, m := Levels(world), Mask(world, k);
    if k < n && Above(r, m, world) && p == r + m then Region(scratch, numel)
    else if n <= k < 2 * n && Below(r, m) && p + m == r then Region(0, numel)
    else NOTHING
  }

  function Locals<T>(J: Setup<T>, r: nat, k: nat, m: seq<T>): (m': seq<T>)
    ensures |m'| == |m|
  {
    if k < Levels(J.world) && Above(r, Mask(J.world, k), J.world) then Reduce(J.f, m, 0, J.Count(), J.numel)
    else if k == 2 * Levels(J.world) then Scale(J.g, m, J.numel)
    else m
  }

  function Allreduce<T>(J: Setup<T>): Protocol<T> {
    Protocol(J.world, 2 * Levels(J.world) + 1, J.Count() + J.Count(),
             (r: nat, k: nat, p: nat) => Sends(J.numel, J.world, r, k, p),
             (r: nat, k: nat, p: nat) => Recvs(J.numel, J.Count(), J.world, r, k, p),
             (r: nat, k: nat, m: seq<T>) => Locals(J, r, k, m),
             false)
  }

  lemma ModAdd(r: nat, d: nat, n: nat)
    requires n > 0 && d < n
    ensures r % n == 0 ==> (r + d) % n == d
    ensures r % n == d ==> r >= d && (r - d) % n == 0
  {
    var q := r / n;
    assert r == n * q + r % n;
    ModOf(q, d, n);
    ModOf(q, 0, n);
  }

  lemma ModOf(q: nat, d: nat, n: nat)
    requires d < n
    ensures (n * q + d) % n == d
  {
    assert n * q == q * n;
    DivMod(q, d, n);
  }

  /** The two ends of an edge agree on it. */
  lemma Edges(r: nat, m: nat, world: nat)
    requires m > 0 && r < world
    ensures Below(r, m) ==> r >= m && Above(r - m, m, world)
    ensures Above(r, m, world) ==> Below(r + m, m)
  {
    ModAdd(r, m, 2 * m);
  }

  lemma {:induction false} ModShift(x: nat, d: nat)
    requires d > 0
    ensures (x + d) % d == x % d
  {
    var q := x / d;
    assert x + d == (q + 1) * d + x % d;
    DivMod(q + 1, x % d, d);
  }

  lemma Small(x: nat, d: nat)
    requires x < d
    ensures x % d == x
  {
    DivMod(0, x, d);
  }

  lemma {:induction false} Halves(r: nat, m: nat)
    requires m > 0
    ensures r % m == 0 <==> Below(r, m) || r % (2 * m) == 0
    decreases r
  {
    if r >= 2 * m {
      Halves(r - 2 * m, m);
      ModShift(r - 2 * m, 2 * m);
      ModShift(r - 2 * m, m);
      ModShift(r - m, m);
    } else {
      Small(r, 2 * m);
      if r < m {
        Small(r, m);
      } else {
        Small(r - m, m);
        ModShift(r - m, m);
      }
    }
  }

  lemma WellFormedTree<T(!new)>(J: Setup<T>)
    ensures WellFormed(Allreduce(J))
  {
    var P := Allreduce(J);
    forall r: nat, k: nat, p: nat | r < P.n && k < P.rounds && p < P.n ensures LinkOk(P, r, k, p) {
      Edges(r, Mask(J.world, k), J.world);
      Edges(p, Mask(J.world, k), J.world);
    }
    forall r: nat, k: nat, p: nat, q: nat | r < P.n && k < P.rounds && p < P.n && q < P.n
      ensures NoClash(P, r, k, p, q)
    {
    }
  }

  // ---------------------------------------------------------------- what the rounds compute

  /** The fold of the subtree of `r` after `k` masks: ranks r .. min(r + 2^k, world) - 1. */
  function Subtree<T>(f: (T, T) -> T, col: seq<T>, r: nat, k: nat): T
    requires r < |col|
    decreases k
  {
    if k == 0 then col[r]
    else if r + Pow2(k - 1) < |col| then f(Subtree(f, col, r, k - 1), Subtree(f, col, r + Pow2(k - 1), k - 1))
    else Subtree(f, col, r, k - 1)
  }

  lemma UpRound<T(!new)>(J: Setup<T>, h: History<T>, k: nat, r: nat, e: nat)
    requires k < Levels(J.world) && r < J.world && e < J.numel && Trace(Allreduce(J), h)
    ensures var m := Mask(J.world, k);
            h.mems[k + 1][r][e]
              == if Above(r, m, J.world) then J.f(h.mems[k][r][e], h.mems[k][r + m][e]) else h.mems[k][r][e]
  {
    var P, m := Allreduce(J), Mask(J.world, k);
    Local(P, h, k, r);
    Miss(P, h, k, r, e);
    if Above(r, m, J.world) {
      Edges(r, m, J.world);
      Hit(P, h, k, r, r + m, e);
    }
  }

  /** Before mask 2^j every rank that is still active is a multiple of 2^j and holds its subtree. */
  lemma {:induction false} AfterUp<T(!new)>(J: Setup<T>, h: History<T>, j: nat, r: nat, e: nat)
    requires j <= Levels(J.world) && r < J.world && e < J.numel && Trace(Allreduce(J), h)
    requires r % Pow2(j) == 0
    ensures h.mems[j][r][e] == Subtree(J.f, Column(h.mems[0], e), r, j)
    decreases j
  {
    if j > 0 {
      var m := Pow2(j - 1);
      UpRound(J, h, j - 1, r, e);
      Halves(r, m);
      AfterUp(J, h, j - 1, r, e);
      if r + m < J.world {
        Edges(r, m, J.world);
        Halves(r + m, m);
        AfterUp(J, h, j - 1, r + m, e);
      }
    }
  }

  lemma DownRound<T(!new)>(J: Setup<T>, h: History<T>, k: nat, r: nat, e: nat)
    requires Levels(J.world) <= k < 2 * Levels(J.world) && r < J.world && e < J.numel
    requires Trace(Allreduce(J), h)
    ensures var m := Mask(J.world, k);
            Below(r, m) ==> r >= m && h.mems[k + 1][r][e] == h.mems[k][r - m][e]
    ensures !Below(r, Mask(J.world, k)) ==> h.mems[k + 1][r][e] == h.mems[k][r][e]
  {
    var P, m := Allreduce(J), Mask(J.world, k);
    Local(P, h, k, r);
    if Below(r, m) {
      Edges(r, m, J.world);
      Hit(P, h, k, r, r - m, e);
    } else {
      Miss(P, h, k, r, e);
    }
  }

  /** Each broadcast round extends "holds the result" from multiples of 2*mask to multiples of mask. */
  lemma {:induction false} AfterDown<T(!new)>(J: Setup<T>, h: History<T>, j: nat, r: nat, e: nat)
    requires j <= Levels(J.world) && r < J.world && e < J.numel && Trace(Allreduce(J), h)
    requires r % Pow2(Levels(J.world) - j) == 0
    ensures h.mems[Levels(J.world) + j][r][e] == Subtree(J.f, Column(h.mems[0], e), 0, Levels(J.world))
    decreases j
  {
    var n := Levels(J.world);
    if j == 0 {
      ModOf(0, r, Pow2(n));
      AfterUp(J, h, n, r, e);
    } else {
      var k := n + j - 1;
      var m := Mask(J.world, k);
      assert Pow2(n - (j - 1)) == 2 * m;
      Halves(r, m);
      DownRound(J, h, k, r, e);
      if Below(r, m) {
        Edges(r, m, J.world);
        AfterDown(J, h, j - 1, r - m, e);
      } else {
        AfterDown(J, h, j - 1, r, e);
      }
    }
  }

  function Value<T>(J: Setup<T>, xs: Memories<T>, e: nat): T
    requires J.world > 0 && |xs| == J.world && forall q :: 0 <= q < J.world ==> e < |xs[q]|
  {
    J.g(Subtree(J.f, Column(xs, e), 0, Levels(J.world)))
  }

  lemma Result<T(!new)>(J: Setup<T>, h: History<T>, r: nat, e: nat)
    requires r < J.world && e < J.numel && Trace(Allreduce(J), h)
    ensures h.mems[2 * Levels(J.world) + 1][r][e] == Value(J, h.mems[0], e)
  {
    var P, k := Allreduce(J), 2 * Levels(J.world);
    AfterDown(J, h, Levels(J.world), r, e);
    Local(P, h, k, r);
    Miss(P, h, k, r, e);
  }

  lemma {:induction false} Pow2Grows(j: nat, k: nat)
    requires j < k
    ensures Pow2(j) < Pow2(k)
    decreases k
  {
    if j < k - 1 { Pow2Grows(j, k - 1); }
  }

  /** Each directed link carries at most one message in the whole call. */
  lemma LinkUsedOnce(numel: nat, world: nat, r: nat, p: nat, j: nat, k: nat)
    requires j < k && Sends(numel, world, r, j, p) != NOTHING
    ensures Sends(numel, world, r, k, p) == NOTHING
  {
    var n := Levels(world);
    if k < n { Pow2Grows(j, k); } else if n <= j && k < 2 * n { Pow2Grows(2 * n - 1 - k, 2 * n - 1 - j); }
  }

  /** What the count leaves out is left alone: no round receives, reduces or scales it. */
  lemma LeavesRest<T(!new)>(J: Setup<T>, h: History<T>, k: nat, r: nat, e: nat)
    requires k < 2 * Levels(J.world) + 1 && r < J.world && J.numel <= e < J.Count() && Trace(Allreduce(J), h)
    ensures h.mems[k + 1][r][e] == h.mems[k][r][e]
  {
    Miss(Allreduce(J), h, k, r, e);
    Local(Allreduce(J), h, k, r);
  }

  /** Sends read the counted part of the tensor; receives fill it, or scratch as it was allocated. */
  lemma InBounds<T(!new)>(J: Setup<T>, r: nat, k: nat, p: nat)
    ensures InTensor(J, Sends(J.numel, J.world, r, k, p))
    ensures InTensor(J, Recvs(J.numel, J.Count(), J.world, r, k, p))
         || InScratch(J, J.Count(), Recvs(J.numel, J.Count(), J.world, r, k, p))
  {
  }
}
