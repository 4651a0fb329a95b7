/** Protocols one after the other on the same links, each in its own part of memory and with nothing in
    between: a fast rank may be several protocols ahead of a slow one.  Every run still ends as if each
    had been done alone. */
module Sequence {
  import opened Network

  function Shift(g: Region, d: nat): Region {
    Region(g.lo + d, g.len)
  }

  function ThenLocal<T>(P: Protocol<T>, Q: Protocol<T>, r: nat, k: nat, m: seq<T>): seq<T> {
    if |m| < P.size then m
    else if k < P.rounds then P.local(r, k, m[..P.size]) + m[P.size..]
    else m[..P.size] + Q.local(r, k - P.rounds, m[P.size..])
  }

  function Then<T>(P: Protocol<T>, Q: Protocol<T>): Protocol<T> {
    Protocol(
      P.n, P.rounds + Q.rounds, P.size + Q.size,
      (r: nat, k: nat, p: nat) =>
        if k < P.rounds then P.send(r, k, p) else Shift(Q.send(r, k - P.rounds, p), P.size),
      (r: nat, k: nat, p: nat) =>
        if k < P.rounds then P.recv(r, k, p) else Shift(Q.recv(r, k - P.rounds, p), P.size),
      (r: nat, k: nat, m: seq<T>) => ThenLocal(P, Q, r, k, m),
      P.sendFirst || Q.sendFirst)
  }

  ghost predicate Fit<T(!new)>(P: Protocol<T>, Q: Protocol<T>) {
    WellFormed(P) && WellFormed(Q) && P.n == Q.n
  }

  lemma LaterRegions<T(!new)>(P: Protocol<T>, Q: Protocol<T>, r: nat, j: nat, p: nat)
    ensures Then(P, Q).send(r, P.rounds + j, p) == Shift(Q.send(r, j, p), P.size)
    ensures Then(P, Q).recv(r, P.rounds + j, p) == Shift(Q.recv(r, j, p), P.size)
  {
  }

  lemma ThenLinks<T(!new)>(P: Protocol<T>, Q: Protocol<T>, r: nat, k: nat, p: nat)
    requires Fit(P, Q) && r < P.n && k < P.rounds + Q.rounds && p < P.n
    ensures LinkOk(Then(P, Q), r, k, p)
  {
    if k < P.rounds {
      assert LinkOk(P, r, k, p);
    } else {
      var j: nat := k - P.rounds;
      assert LinkOk(Q, r, j, p);
      LaterRegions(P, Q, r, j, p);
      LaterRegions(P, Q, p, j, r);
    }
  }

  lemma ThenClash<T(!new)>(P: Protocol<T>, Q: Protocol<T>, r: nat, k: nat, p: nat, q: nat)
    requires Fit(P, Q) && r < P.n && k < P.rounds + Q.rounds && p < P.n && q < P.n
    ensures NoClash(Then(P, Q), r, k, p, q)
  {
    if k < P.rounds {
      assert NoClash(P, r, k, p, q);
    } else {
      var j: nat := k - P.rounds;
      assert NoClash(Q, r, j, p, q);
      LaterRegions(P, Q, r, j, p);
      LaterRegions(P, Q, r, j, q);
    }
  }

  lemma WellFormedThen<T(!new)>(P: Protocol<T>, Q: Protocol<T>)
    requires Fit(P, Q)
    ensures WellFormed(Then(P, Q))
  {
    var S := Then(P, Q);
    forall r: nat, k: nat, p: nat | r < S.n && k < S.rounds && p < S.n ensures LinkOk(S, r, k, p) {
      ThenLinks(P, Q, r, k, p);
    }
    forall r: nat, k: nat, p: nat, q: nat | r < S.n && k < S.rounds && p < S.n && q < S.n
      ensures NoClash(S, r, k, p, q)
    {
      ThenClash(P, Q, r, k, p, q);
    }
  }

  function Join<T>(a: Memories<T>, b: Memories<T>): (m: Memories<T>)
    requires |a| == |b|
    ensures |m| == |a| && forall r :: 0 <= r < |a| ==> m[r] == a[r] + b[r]
  {
    seq(|a|, r requires 0 <= r < |a| => a[r] + b[r])
  }

  // ---------------------------------------------------------------- the simple form

  lemma FirstElement<T(!new)>(P: Protocol<T>, Q: Protocol<T>, k: nat, a: Memories<T>, b: Memories<T>, r: nat, i: nat)
    requires Fit(P, Q) && WellFormed(Then(P, Q)) && Shaped(P, a) && Shaped(Q, b)
    requires k < P.rounds && r < P.n && i < P.size + Q.size
    ensures Deliver(Then(P, Q), k, Join(a, b), r)[i] == if i < P.size then Deliver(P, k, a, r)[i] else b[r][i - P.size]
  {
    var S := Then(P, Q);
    if p: nat :| p < P.n && P.recv(r, k, p).Has(i) {
      var o := i - P.recv(r, k, p).lo;
      assert S.recv(r, k, p) == P.recv(r, k, p);
      DeliverHit(P, k, a, r, p, o);
      DeliverHit(S, k, Join(a, b), r, p, o);
    } else {
      DeliverMiss(S, k, Join(a, b), r, i);
      if i < P.size { DeliverMiss(P, k, a, r, i); }
    }
  }

  lemma SecondElement<T(!new)>(P: Protocol<T>, Q: Protocol<T>, k: nat, a: Memories<T>, b: Memories<T>, r: nat, i: nat)
    requires Fit(P, Q) && WellFormed(Then(P, Q)) && Shaped(P, a) && Shaped(Q, b)
    requires k < Q.rounds && r < P.n && i < P.size + Q.size
    ensures Deliver(Then(P, Q), P.rounds + k, Join(a, b), r)[i]
         == if i < P.size then a[r][i] else Deliver(Q, k, b, r)[i - P.size]
  {
    var S, j := Then(P, Q), P.rounds + k;
    if p: nat :| p < P.n && S.recv(r, j, p).Has(i) {
      var o := i - S.recv(r, j, p).lo;
      assert S.recv(r, j, p) == Shift(Q.recv(r, k, p), P.size);
      assert S.send(p, j, r) == Shift(Q.send(p, k, r), P.size);
      DeliverHit(Q, k, b, r, p, o);
      DeliverHit(S, j, Join(a, b), r, p, o);
    } else {
      DeliverMiss(S, j, Join(a, b), r, i);
      if i >= P.size {
        assert forall p: nat :: p < P.n ==> S.recv(r, j, p) == Shift(Q.recv(r, k, p), P.size);
        DeliverMiss(Q, k, b, r, i - P.size);
      }
    }
  }

  lemma FirstRound<T(!new)>(P: Protocol<T>, Q: Protocol<T>, k: nat, a: Memories<T>, b: Memories<T>)
    requires Fit(P, Q) && WellFormed(Then(P, Q)) && Shaped(P, a) && Shaped(Q, b) && k < P.rounds
    requires Shaped(Then(P, Q), Join(a, b))
    ensures Together(Then(P, Q), k, Join(a, b)) == Join(Together(P, k, a), b)
  {
    var S := Then(P, Q);
    forall r: nat | r < P.n
      ensures Together(S, k, Join(a, b))[r] == Together(P, k, a)[r] + b[r]
    {
      var all, first := Deliver(S, k, Join(a, b), r), Deliver(P, k, a, r);
      forall i: nat | i < S.size ensures all[i] == (first + b[r])[i] {
        FirstElement(P, Q, k, a, b, r, i);
      }
      assert all == first + b[r];
      assert all[..P.size] == first && all[P.size..] == b[r];
    }
  }

  lemma SecondRound<T(!new)>(P: Protocol<T>, Q: Protocol<T>, k: nat, a: Memories<T>, b: Memories<T>)
    requires Fit(P, Q) && WellFormed(Then(P, Q)) && Shaped(P, a) && Shaped(Q, b) && k < Q.rounds
    requires Shaped(Then(P, Q), Join(a, b))
    ensures Together(Then(P, Q), P.rounds + k, Join(a, b)) == Join(a, Together(Q, k, b))
  {
    var S, j := Then(P, Q), P.rounds + k;
    forall r: nat | r < P.n
      ensures Together(S, j, Join(a, b))[r] == a[r] + Together(Q, k, b)[r]
    {
      var all, second := Deliver(S, j, Join(a, b), r), Deliver(Q, k, b, r);
      forall i: nat | i < S.size ensures all[i] == (a[r] + second)[i] {
        SecondElement(P, Q, k, a, b, r, i);
      }
      assert all == a[r] + second;
      assert all[..P.size] == a[r] && all[P.size..] == second;
    }
  }

  lemma {:induction false} LockstepFirst<T(!new)>(P: Protocol<T>, Q: Protocol<T>,
                                                  a: Memories<T>, b: Memories<T>, k: nat)
    requires Fit(P, Q) && WellFormed(Then(P, Q)) && Shaped(P, a) && Shaped(Q, b) && k <= P.rounds
    requires Shaped(Then(P, Q), Join(a, b))
    ensures Lockstep(Then(P, Q), Join(a, b), k) == Join(Lockstep(P, a, k), b)
  {
    if k > 0 {
      LockstepFirst(P, Q, a, b, k - 1);
      FirstRound(P, Q, k - 1, Lockstep(P, a, k - 1), b);
    }
  }

  /** In the simple form the second protocol finds its part of memory as it was, and leaves the first
      protocol's part alone. */
  lemma {:induction false} LockstepThen<T(!new)>(P: Protocol<T>, Q: Protocol<T>, a: Memories<T>, b: Memories<T>, k: nat)
    requires Fit(P, Q) && WellFormed(Then(P, Q)) && Shaped(P, a) && Shaped(Q, b) && k <= Q.rounds
    requires Shaped(Then(P, Q), Join(a, b))
    ensures Lockstep(Then(P, Q), Join(a, b), P.rounds + k) == Join(Lockstep(P, a, P.rounds), Lockstep(Q, b, k))
  {
    if k == 0 {
      LockstepFirst(P, Q, a, b, P.rounds);
    } else {
      LockstepThen(P, Q, a, b, k - 1);
      SecondRound(P, Q, k - 1, Lockstep(P, a, P.rounds), Lockstep(Q, b, k - 1));
      assert P.rounds + k - 1 == P.rounds + (k - 1);
    }
  }

  // ---------------------------------------------------------------- any number of protocols

  function Nothing<T>(n: nat): Protocol<T> {
    Protocol(n, 0, 0, (r: nat, k: nat, p: nat) => NOTHING, (r: nat, k: nat, p: nat) => NOTHING,
             (r: nat, k: nat, m: seq<T>) => m, false)
  }

  function InTurn<T>(ps: seq<Protocol<T>>, n: nat): (P: Protocol<T>)
    ensures P.n == n || ps != []
  {
    if ps == [] then Nothing(n) else Then(ps[0], InTurn(ps[1..], n))
  }

  ghost predicate Ready<T(!new)>(ps: seq<Protocol<T>>, n: nat) {
    forall i :: 0 <= i < |ps| ==> WellFormed(ps[i]) && ps[i].n == n && !ps[i].sendFirst
  }

  lemma {:induction false} WellFormedInTurn<T(!new)>(ps: seq<Protocol<T>>, n: nat)
    requires Ready(ps, n)
    ensures WellFormed(InTurn(ps, n)) && InTurn(ps, n).n == n && !InTurn(ps, n).sendFirst
  {
    if ps != [] {
      WellFormedInTurn(ps[1..], n);
      WellFormedThen(ps[0], InTurn(ps[1..], n));
    }
  }

  ghost predicate AllShaped<T(!new)>(ps: seq<Protocol<T>>, inits: seq<Memories<T>>) {
    |ps| == |inits| && forall i :: 0 <= i < |ps| ==> Shaped(ps[i], inits[i])
  }

  /** Every rank's memories side by side. */
  function Stack<T>(inits: seq<Memories<T>>, n: nat): (m: Memories<T>)
    requires forall i :: 0 <= i < |inits| ==> |inits[i]| == n
    ensures |m| == n
  {
    if inits == [] then seq(n, _ => []) else Join(inits[0], Stack(inits[1..], n))
  }

  lemma {:induction false} StackShaped<T(!new)>(ps: seq<Protocol<T>>, n: nat, inits: seq<Memories<T>>)
    requires Ready(ps, n) && AllShaped(ps, inits)
    ensures Shaped(InTurn(ps, n), Stack(inits, n))
  {
    if ps != [] {
      WellFormedInTurn(ps[1..], n);
      StackShaped(ps[1..], n, inits[1..]);
    }
  }

  /** The part of memory that belongs to protocol `i`. */
  function Part<T>(ps: seq<Protocol<T>>, m: seq<T>, i: nat): (part: seq<T>)
    requires i < |ps|
    decreases i
  {
    if |m| < ps[0].size then []
    else if i == 0 then m[..ps[0].size]
    else Part(ps[1..], m[ps[0].size..], i - 1)
  }

  lemma {:induction false} PartSize<T>(ps: seq<Protocol<T>>, n: nat, m: seq<T>, i: nat)
    requires i < |ps| && |m| == InTurn(ps, n).size
    ensures |Part(ps, m, i)| == ps[i].size
    decreases i
  {
    if i > 0 { PartSize(ps[1..], n, m[ps[0].size..], i - 1); }
  }

  lemma {:induction false} InTurnParts<T(!new)>(ps: seq<Protocol<T>>, n: nat, inits: seq<Memories<T>>, r: nat, i: nat)
    requires Ready(ps, n) && AllShaped(ps, inits) && r < n && i < |ps|
    requires WellFormed(InTurn(ps, n)) && Shaped(InTurn(ps, n), Stack(inits, n)) && InTurn(ps, n).n == n
    ensures var P := InTurn(ps, n);
            Part(ps, Lockstep(P, Stack(inits, n), P.rounds)[r], i) == Lockstep(ps[i], inits[i], ps[i].rounds)[r]
    decreases |ps|
  {
    var P, Q := ps[0], InTurn(ps[1..], n);
    var a, b := inits[0], Stack(inits[1..], n);
    WellFormedInTurn(ps[1..], n);
    StackShaped(ps[1..], n, inits[1..]);
    LockstepThen(P, Q, a, b, Q.rounds);
    var first, rest := Lockstep(P, a, P.rounds)[r], Lockstep(Q, b, Q.rounds)[r];
    assert (first + rest)[..P.size] == first && (first + rest)[P.size..] == rest;
    if i > 0 {
      InTurnParts(ps[1..], n, inits[1..], r, i - 1);
    }
  }

  /** Every run of the whole sequence that cannot go on has finished, and each protocol's part of every
      rank's memory is what that protocol alone leaves there. */
  lemma RunsInTurn<T(!new)>(ps: seq<Protocol<T>>, n: nat, cap: nat, inits: seq<Memories<T>>, moves: seq<Move>,
                            r: nat, i: nat)
    requires Ready(ps, n) && AllShaped(ps, inits) && r < n && i < |ps| && cap >= 1
    requires WellFormed(InTurn(ps, n)) && Shaped(InTurn(ps, n), Stack(inits, n)) && InTurn(ps, n).n == n
    requires Maximal(InTurn(ps, n), cap, Stack(inits, n), moves)
    ensures var P, end := InTurn(ps, n), Outcome(InTurn(ps, n), cap, Stack(inits, n), moves);
            Finished(P, end) && Part(ps, end.ranks[r].mem, i) == Lockstep(ps[i], inits[i], ps[i].rounds)[r]
  {
    WellFormedInTurn(ps, n);
    EveryRunIsLockstep(InTurn(ps, n), cap, Stack(inits, n), moves);
    InTurnParts(ps, n, inits, r, i);
  }
}
