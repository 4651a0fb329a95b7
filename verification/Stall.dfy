/** When a protocol whose threads send before they receive can hang.  A pair that exchanges two
    messages of which neither fits the channel blocks for ever, on every schedule; without such a pair
    every run finishes.  The condition is worked out for allgather, reduce-scatter and all-to-all. */
module Stall {
  import opened Network
  import opened Collectives
  import AllToAll

  /** Rank `a` has not got past round `k`, nor received anything from `b` in it. */
  predicate Waits<T>(P: Protocol<T>, s: State<T>, k: nat, a: nat, b: nat)
    requires Typed(P, s) && a < P.n && b < P.n
  {
    s.ranks[a].round <= k && (s.ranks[a].round == k ==> s.ranks[a].got[b] == 0)
  }

  ghost predicate Blocked<T(!new)>(P: Protocol<T>, cap: nat, s: State<T>, k: nat, a: nat, b: nat) {
    && Typed(P, s) && a < P.n && b < P.n
    && Waits(P, s, k, a, b) && Waits(P, s, k, b, a)
    && |s.chan[(a, b)]| <= cap && |s.chan[(b, a)]| <= cap
  }

  /** What `a` still has to write before it may read does not fit. */
  lemma CannotReceive<T(!new)>(P: Protocol<T>, init: Memories<T>, cap: nat, s: State<T>, k: nat, a: nat, b: nat)
    requires Inv(P, init, s) && Blocked(P, cap, s, k, a, b) && k < P.rounds && s.ranks[a].round == k
    requires P.send(a, k, b).len > cap
    ensures s.ranks[a].sent[b] < P.send(a, k, b).len
  {
    assert ChanOk(P, init, s, a, b);
    CountsOf(P, init, s, b);
    if s.ranks[b].round < k {
      assert LinkOk(P, a, s.ranks[b].round, b);
      StreamPrefix(P, init, a, b, s.ranks[b].round + 1, k);
    }
  }

  lemma BlockedStep<T(!new)>(P: Protocol<T>, init: Memories<T>, cap: nat, s: State<T>, m: Move, k: nat, a: nat, b: nat)
    requires Inv(P, init, s) && Blocked(P, cap, s, k, a, b) && Enabled(P, cap, s, m)
    requires P.sendFirst && k < P.rounds && !PairRoom(P, cap, a, k, b)
    ensures Blocked(P, cap, Apply(P, cap, s, m), k, a, b)
  {
    assert LinkOk(P, a, k, b) && LinkOk(P, b, k, a);
    if s.ranks[a].round == k { CannotReceive(P, init, cap, s, k, a, b); }
    if s.ranks[b].round == k { CannotReceive(P, init, cap, s, k, b, a); }
  }

  lemma {:induction false} BlockedRun<T(!new)>(P: Protocol<T>, init: Memories<T>, cap: nat, s: State<T>,
                                               moves: seq<Move>, k: nat, a: nat, b: nat)
    requires Inv(P, init, s) && Blocked(P, cap, s, k, a, b) && Legal(P, cap, s, moves)
    requires P.sendFirst && k < P.rounds && !PairRoom(P, cap, a, k, b)
    ensures Blocked(P, cap, Exec(P, cap, s, moves), k, a, b)
    decreases |moves|
  {
    if moves != [] {
      StepInv(P, init, cap, s, moves[0]);
      BlockedStep(P, init, cap, s, moves[0], k, a, b);
      BlockedRun(P, init, cap, Apply(P, cap, s, moves[0]), moves[1..], k, a, b);
    }
  }

  /** A pair without room: no run at all finishes. */
  lemma NoRunFinishes<T(!new)>(P: Protocol<T>, cap: nat, init: Memories<T>, moves: seq<Move>, k: nat, a: nat, b: nat)
    requires WellFormed(P) && Shaped(P, init) && Legal(P, cap, Initial(P, init), moves)
    requires P.sendFirst && a < P.n && b < P.n && k < P.rounds && !PairRoom(P, cap, a, k, b)
    ensures !Finished(P, Outcome(P, cap, init, moves))
  {
    InitialInv(P, init);
    BlockedRun(P, init, cap, Initial(P, init), moves, k, a, b);
  }

  /** The exact condition, for every protocol: all runs finish if and only if no pair is without room,
      and otherwise none does. */
  lemma FinishesIffRoom<T(!new)>(P: Protocol<T>, cap: nat, init: Memories<T>)
    requires WellFormed(P) && Shaped(P, init) && cap >= 1
    ensures (forall moves :: Maximal(P, cap, init, moves) ==> Finished(P, Outcome(P, cap, init, moves)))
       <==> Room(P, cap)
    ensures (exists moves :: Maximal(P, cap, init, moves) && Finished(P, Outcome(P, cap, init, moves)))
       <==> Room(P, cap)
  {
    var some := SomeRun(P, cap, init);
    if Room(P, cap) {
      forall moves | Maximal(P, cap, init, moves) ensures Finished(P, Outcome(P, cap, init, moves)) {
        EveryRunIsLockstep(P, cap, init, moves);
      }
    } else {
      var a: nat, k: nat, b: nat :| a < P.n && k < P.rounds && b < P.n && !PairRoom(P, cap, a, k, b);
      forall moves | Maximal(P, cap, init, moves) ensures !Finished(P, Outcome(P, cap, init, moves)) {
        NoRunFinishes(P, cap, init, moves, k, a, b);
      }
    }
  }

  // ---------------------------------------------------------------- the three collectives

  /** Allgather: a socket buffers one whole share. */
  lemma AllgatherRoom<T(!new)>(chunk: nat, world: nat, cap: nat)
    requires world > 1 && cap >= 1
    ensures Room<T>(Allgather(chunk, world), cap) <==> chunk <= cap
  {
    var P: Protocol<T> := Allgather(chunk, world);
    assert chunk > cap ==> !PairRoom(P, cap, 0, 1, 1);
  }

  /** Reduce-scatter: the same. */
  lemma ScatterRoom<T(!new)>(chunk: nat, world: nat, f: (T, T) -> T, g: T -> T, cap: nat)
    requires world > 1 && cap >= 1
    ensures Room(ReduceScatter(chunk, world, f, g), cap) <==> chunk <= cap
  {
    var P := ReduceScatter(chunk, world, f, g);
    assert chunk > cap ==> !PairRoom(P, cap, 0, 1, 1);
  }

  predicate FitsOneWay(X: AllToAll.Exchange, cap: nat, r: nat, p: nat)
    requires r < |X.ins| && p < |X.ins| && r < |X.ins[p]| && p < |X.ins[r]|
  {
    X.ins[r][p] <= cap || X.ins[p][r] <= cap
  }

  /** All-to-all: of the two segments any two ranks exchange, one fits the buffer. */
  lemma AlltoallRoom<T(!new)>(X: AllToAll.Exchange, cap: nat)
    requires AllToAll.Agreed(X) && cap >= 1
    ensures Room<T>(AllToAll.Alltoall(X), cap)
       <==> forall r: nat, p: nat :: r < X.world && p < X.world && r != p ==> FitsOneWay(X, cap, r, p)
  {
    var P: Protocol<T> := AllToAll.Alltoall(X);
    forall r: nat, p: nat | r < X.world && p < X.world && r != p
      ensures PairRoom(P, cap, r, 1, p) <==> FitsOneWay(X, cap, r, p)
    {
    }
    if forall r: nat, p: nat :: r < X.world && p < X.world && r != p ==> FitsOneWay(X, cap, r, p) {
      forall r: nat, k: nat, p: nat | r < P.n && k < P.rounds && p < P.n ensures PairRoom(P, cap, r, k, p) {
        assert k == 1 && r != p ==> FitsOneWay(X, cap, r, p);
      }
    } else {
      var r: nat, p: nat :| r < X.world && p < X.world && r != p && !FitsOneWay(X, cap, r, p);
      assert !PairRoom(P, cap, r, 1, p);
    }
  }
}
