/** The mesh every collective runs on: `n` ranks, one bounded first-in first-out element stream
    per directed pair, no framing.  A collective is a `Protocol`: in each round a rank starts one
    sender per peer and one receiver per peer, joins them all, and then works on its own memory.
    Ranks are not synchronised: each one advances to its next round on its own.

    A rank's memory is the user's tensor followed by its scratch space.  A sender reads memory one
    element at a time, while the receivers of the same round write it one element at a time, so
    every way in which the sockets split reads and writes is one of the interleavings here.

    `Lockstep` is the simple form: all ranks exchange whole regions at once, round by round.
    The theorems say that every interleaving, with any channel capacity of at least one element,
    ends, and ends in exactly the memories of `Lockstep`. */
module Network {

  datatype Region = Region(lo: nat, len: nat) {
    predicate Has(i: int) {
      lo <= i < lo + len
    }

    predicate Within(size: nat) {
      lo + len <= size
    }

    predicate Apart(other: Region) {
      len == 0 || other.len == 0 || lo + len <= other.lo || other.lo + other.len <= lo
    }
  }

  const NOTHING := Region(0, 0)

  /** `send(r, k, p)` is the region rank `r` writes to peer `p` in round `k`, `recv(r, k, p)` the
      region it fills from `p`; an empty region means no call.  `sendFirst` says that one thread
      serves each peer and finishes its send before it starts to receive. */
  datatype Protocol<!T> = Protocol(
    n: nat,
    rounds: nat,
    size: nat,
    send: (nat, nat, nat) -> Region,
    recv: (nat, nat, nat) -> Region,
    local: (nat, nat, seq<T>) -> seq<T>,
    sendFirst: bool)

  /** The n-th receive on a link asks for exactly the length of the n-th send, inside memory. */
  predicate LinkOk<T>(P: Protocol<T>, r: nat, k: nat, p: nat) {
    && P.send(r, k, p).Within(P.size)
    && P.recv(r, k, p).Within(P.size)
    && P.send(r, k, p).len == P.recv(p, k, r).len
  }

  /** What a receiver writes is read or written by no other thread of its round. */
  predicate NoClash<T>(P: Protocol<T>, r: nat, k: nat, p: nat, q: nat) {
    && P.recv(r, k, p).Apart(P.send(r, k, q))
    && (p != q ==> P.recv(r, k, p).Apart(P.recv(r, k, q)))
  }

  ghost predicate LinksOk<T(!new)>(P: Protocol<T>) {
    forall r: nat, k: nat, p: nat :: r < P.n && k < P.rounds && p < P.n ==> LinkOk(P, r, k, p)
  }

  ghost predicate ClashFree<T(!new)>(P: Protocol<T>) {
    forall r: nat, k: nat, p: nat, q: nat ::
      r < P.n && k < P.rounds && p < P.n && q < P.n ==> NoClash(P, r, k, p, q)
  }

  ghost predicate LocalOk<T(!new)>(P: Protocol<T>) {
    forall r: nat, k: nat, m: seq<T> ::
      r < P.n && k < P.rounds && |m| == P.size ==> |P.local(r, k, m)| == P.size
  }

  ghost predicate WellFormed<T(!new)>(P: Protocol<T>) {
    LinksOk(P) && ClashFree(P) && LocalOk(P)
  }

  type Memories<T> = seq<seq<T>>

  predicate Shaped<T>(P: Protocol<T>, mems: Memories<T>) {
    |mems| == P.n && forall r :: 0 <= r < P.n ==> |mems[r]| == P.size
  }

  // ---------------------------------------------------------------- the simple form

  ghost function Delivered<T(!new)>(P: Protocol<T>, k: nat, mems: Memories<T>, r: nat, i: nat): T
    requires WellFormed(P) && Shaped(P, mems) && k < P.rounds && r < P.n && i < P.size
  {
    if p: nat :| p < P.n && P.recv(r, k, p).Has(i) then
      assert LinkOk(P, r, k, p) && LinkOk(P, p, k, r);
      mems[p][P.send(p, k, r).lo + (i - P.recv(r, k, p).lo)]
    else
      mems[r][i]
  }

  ghost function Deliver<T(!new)>(P: Protocol<T>, k: nat, mems: Memories<T>, r: nat): (m: seq<T>)
    requires WellFormed(P) && Shaped(P, mems) && k < P.rounds && r < P.n
    ensures |m| == P.size
  {
    seq(P.size, i requires 0 <= i < P.size => Delivered(P, k, mems, r, i))
  }

  /** Round `k` done by all ranks at once. */
  ghost function Together<T(!new)>(P: Protocol<T>, k: nat, mems: Memories<T>): (after: Memories<T>)
    requires WellFormed(P) && Shaped(P, mems) && k < P.rounds
    ensures Shaped(P, after)
    ensures forall r: nat :: r < P.n ==> after[r] == P.local(r, k, Deliver(P, k, mems, r))
  {
    assert forall r: nat :: r < P.n ==> |Deliver(P, k, mems, r)| == P.size;
    seq(P.n, r requires 0 <= r < P.n => P.local(r, k, Deliver(P, k, mems, r)))
  }

  ghost function Lockstep<T(!new)>(P: Protocol<T>, init: Memories<T>, k: nat): (mems: Memories<T>)
    requires WellFormed(P) && Shaped(P, init) && k <= P.rounds
    ensures Shaped(P, mems)
  {
    if k == 0 then init else Together(P, k - 1, Lockstep(P, init, k - 1))
  }

  lemma DeliverHit<T(!new)>(P: Protocol<T>, k: nat, mems: Memories<T>, r: nat, p: nat, o: nat)
    requires WellFormed(P) && Shaped(P, mems) && k < P.rounds && r < P.n && p < P.n
    requires o < P.recv(r, k, p).len
    ensures LinkOk(P, r, k, p) && LinkOk(P, p, k, r)
    ensures Deliver(P, k, mems, r)[P.recv(r, k, p).lo + o] == mems[p][P.send(p, k, r).lo + o]
  {
    assert LinkOk(P, r, k, p) && LinkOk(P, p, k, r);
    var i := P.recv(r, k, p).lo + o;
    assert P.recv(r, k, p).Has(i);
    forall q: nat | q < P.n && P.recv(r, k, q).Has(i) ensures q == p {
      assert NoClash(P, r, k, p, q);
    }
    assert Delivered(P, k, mems, r, i) == mems[p][P.send(p, k, r).lo + o];
  }

  lemma DeliverMiss<T(!new)>(P: Protocol<T>, k: nat, mems: Memories<T>, r: nat, i: nat)
    requires WellFormed(P) && Shaped(P, mems) && k < P.rounds && r < P.n && i < P.size
    requires forall p: nat :: p < P.n ==> !P.recv(r, k, p).Has(i)
    ensures Deliver(P, k, mems, r)[i] == mems[r][i]
  {
  }

  /** The simple form written out: `mems[k]` before round `k`, and `landed[k]` after everything has
      arrived in round `k` but before the local work. */
  datatype History<T> = History(mems: seq<Memories<T>>, landed: seq<Memories<T>>)

  ghost predicate RoundOf<T(!new)>(P: Protocol<T>, h: History<T>, k: nat, r: nat)
    requires WellFormed(P) && k < P.rounds && r < P.n && k + 1 < |h.mems| && k < |h.landed|
    requires Shaped(P, h.mems[k]) && Shaped(P, h.mems[k + 1]) && Shaped(P, h.landed[k])
  {
    h.landed[k][r] == Deliver(P, k, h.mems[k], r) && h.mems[k + 1][r] == P.local(r, k, h.landed[k][r])
  }

  ghost predicate Trace<T(!new)>(P: Protocol<T>, h: History<T>) {
    && WellFormed(P)
    && |h.mems| == P.rounds + 1 && |h.landed| == P.rounds
    && (forall k :: 0 <= k <= P.rounds ==> Shaped(P, h.mems[k]))
    && (forall k :: 0 <= k < P.rounds ==> Shaped(P, h.landed[k]))
    && (forall k: nat, r: nat :: k < P.rounds && r < P.n ==> RoundOf(P, h, k, r))
  }

  lemma LockstepTrace<T(!new)>(P: Protocol<T>, init: Memories<T>) returns (h: History<T>)
    requires WellFormed(P) && Shaped(P, init)
    ensures Trace(P, h) && forall k :: 0 <= k <= P.rounds ==> h.mems[k] == Lockstep(P, init, k)
  {
    var mems := seq(P.rounds + 1, k requires 0 <= k <= P.rounds => Lockstep(P, init, k));
    forall k | 0 <= k <= P.rounds ensures mems[k] == Lockstep(P, init, k) && Shaped(P, mems[k]) {
    }
    var landed := seq(P.rounds, k requires 0 <= k < P.rounds => AllLanded(P, k, mems[k]));
    h := History(mems, landed);
    forall k | 0 <= k < P.rounds ensures landed[k] == AllLanded(P, k, mems[k]) && Shaped(P, landed[k]) {
    }
    forall k: nat, r: nat | k < P.rounds && r < P.n ensures RoundOf(P, h, k, r) {
      assert Lockstep(P, init, k + 1) == Together(P, k, Lockstep(P, init, k));
    }
  }

  ghost function AllLanded<T(!new)>(P: Protocol<T>, k: nat, mems: Memories<T>): (m: Memories<T>)
    requires WellFormed(P) && Shaped(P, mems) && k < P.rounds
    ensures Shaped(P, m) && forall r: nat :: r < P.n ==> m[r] == Deliver(P, k, mems, r)
  {
    assert forall r: nat :: r < P.n ==> |Deliver(P, k, mems, r)| == P.size;
    seq(P.n, r requires 0 <= r < P.n => Deliver(P, k, mems, r))
  }

  lemma Hit<T(!new)>(P: Protocol<T>, h: History<T>, k: nat, r: nat, p: nat, o: nat)
    requires Trace(P, h) && k < P.rounds && r < P.n && p < P.n && o < P.recv(r, k, p).len
    ensures P.recv(r, k, p).lo + o < P.size && P.send(p, k, r).lo + o < P.size
    ensures h.landed[k][r][P.recv(r, k, p).lo + o] == h.mems[k][p][P.send(p, k, r).lo + o]
  {
    assert RoundOf(P, h, k, r);
    DeliverHit(P, k, h.mems[k], r, p, o);
  }

  lemma Miss<T(!new)>(P: Protocol<T>, h: History<T>, k: nat, r: nat, i: nat)
    requires Trace(P, h) && k < P.rounds && r < P.n && i < P.size
    requires forall p: nat :: p < P.n ==> !P.recv(r, k, p).Has(i)
    ensures h.landed[k][r][i] == h.mems[k][r][i]
  {
    assert RoundOf(P, h, k, r);
    DeliverMiss(P, k, h.mems[k], r, i);
  }

  lemma Local<T(!new)>(P: Protocol<T>, h: History<T>, k: nat, r: nat)
    requires Trace(P, h) && k < P.rounds && r < P.n
    ensures h.mems[k + 1][r] == P.local(r, k, h.landed[k][r])
  {
    assert RoundOf(P, h, k, r);
  }

  // ---------------------------------------------------------------- the asynchronous machine

  /** `sent[p]` and `got[p]` count the elements this round has already moved to and from `p`. */
  datatype Rank<T> = Rank(round: nat, sent: seq<nat>, got: seq<nat>, mem: seq<T>)

  /** `chan[(r, p)]` is what `r` has written to `p` and `p` has not read yet. */
  datatype State<T> = State(ranks: seq<Rank<T>>, chan: map<(nat, nat), seq<T>>)

  datatype Move = Push(r: nat, p: nat) | Pull(r: nat, p: nat) | Advance(r: nat)

  predicate Typed<T>(P: Protocol<T>, s: State<T>) {
    && |s.ranks| == P.n
    && (forall r :: 0 <= r < P.n ==>
         |s.ranks[r].sent| == P.n && |s.ranks[r].got| == P.n && |s.ranks[r].mem| == P.size)
    && (forall r: nat, p: nat :: r < P.n && p < P.n ==> (r, p) in s.chan)
  }

  function Zeros(n: nat): (z: seq<nat>)
    ensures |z| == n && forall i :: 0 <= i < n ==> z[i] == 0
  {
    seq(n, _ => 0)
  }

  ghost function Initial<T(!new)>(P: Protocol<T>, init: Memories<T>): (s: State<T>)
    requires Shaped(P, init)
    ensures Typed(P, s)
  {
    var z := Zeros(P.n);
    State(seq(P.n, r requires 0 <= r < P.n => Rank(0, z, z, init[r])), NoMessages(P.n))
  }

  ghost function NoMessages<T>(n: nat): (chan: map<(nat, nat), seq<T>>)
    ensures forall r: nat, p: nat :: r < n && p < n ==> (r, p) in chan && chan[(r, p)] == []
  {
    map r: nat, p: nat | r < n && p < n :: (r, p) := []
  }

  predicate RoundDone<T>(P: Protocol<T>, s: State<T>, r: nat)
    requires Typed(P, s) && r < P.n
  {
    forall p: nat :: p < P.n ==>
      && s.ranks[r].sent[p] >= P.send(r, s.ranks[r].round, p).len
      && s.ranks[r].got[p] >= P.recv(r, s.ranks[r].round, p).len
  }

  predicate Enabled<T>(P: Protocol<T>, cap: nat, s: State<T>, m: Move)
    requires Typed(P, s)
  {
    && m.r < P.n
    && s.ranks[m.r].round < P.rounds
    && var me := s.ranks[m.r];
       match m
       case Push(r, p) =>
         && p < P.n
         && me.sent[p] < P.send(r, me.round, p).len
         && P.send(r, me.round, p).Within(P.size)
         && |s.chan[(r, p)]| < cap
       case Pull(r, p) =>
         && p < P.n
         && me.got[p] < P.recv(r, me.round, p).len
         && P.recv(r, me.round, p).Within(P.size)
         && |s.chan[(p, r)]| > 0
         && (P.sendFirst ==> me.sent[p] >= P.send(r, me.round, p).len)
       case Advance(r) =>
         RoundDone(P, s, r)
  }

  ghost function Apply<T(!new)>(P: Protocol<T>, cap: nat, s: State<T>, m: Move): (s': State<T>)
    requires WellFormed(P) && Typed(P, s) && Enabled(P, cap, s, m)
    ensures Typed(P, s')
  {
    var me := s.ranks[m.r];
    match m
    case Push(r, p) =>
      var x := me.mem[P.send(r, me.round, p).lo + me.sent[p]];
      State(s.ranks[r := me.(sent := me.sent[p := me.sent[p] + 1])],
            s.chan[(r, p) := s.chan[(r, p)] + [x]])
    case Pull(r, p) =>
      var at := P.recv(r, me.round, p).lo + me.got[p];
      State(s.ranks[r := me.(got := me.got[p := me.got[p] + 1],
                             mem := me.mem[at := s.chan[(p, r)][0]])],
            s.chan[(p, r) := s.chan[(p, r)][1..]])
    case Advance(r) =>
      State(s.ranks[r := Rank(me.round + 1, Zeros(P.n), Zeros(P.n), P.local(r, me.round, me.mem))],
            s.chan)
  }

  predicate Finished<T>(P: Protocol<T>, s: State<T>)
    requires Typed(P, s)
  {
    forall r :: 0 <= r < P.n ==> s.ranks[r].round >= P.rounds
  }

  // ---------------------------------------------------------------- the invariant

  /** How much `r` owes `p` before round `k`. */
  function Base<T>(P: Protocol<T>, r: nat, p: nat, k: nat): nat {
    if k == 0 then 0 else Base(P, r, p, k - 1) + P.send(r, k - 1, p).len
  }

  function Slice<T>(m: seq<T>, g: Region): (s: seq<T>)
    requires g.Within(|m|)
    ensures |s| == g.len
  {
    m[g.lo..g.lo + g.len]
  }

  /** Everything `r` writes to `p` before round `k`, as the simple form has it. */
  ghost function Stream<T(!new)>(P: Protocol<T>, init: Memories<T>, r: nat, p: nat, k: nat): (s: seq<T>)
    requires WellFormed(P) && Shaped(P, init) && r < P.n && p < P.n && k <= P.rounds
    ensures |s| == Base(P, r, p, k)
  {
    if k == 0 then [] else
      assert LinkOk(P, r, k - 1, p);
      Stream(P, init, r, p, k - 1) + Slice(Lockstep(P, init, k - 1)[r], P.send(r, k - 1, p))
  }

  lemma {:induction false} StreamPrefix<T(!new)>(P: Protocol<T>, init: Memories<T>, r: nat, p: nat, j: nat, k: nat)
    requires WellFormed(P) && Shaped(P, init) && r < P.n && p < P.n && j <= k <= P.rounds
    ensures Base(P, r, p, j) <= Base(P, r, p, k)
    ensures Stream(P, init, r, p, j) <= Stream(P, init, r, p, k)
    decreases k
  {
    if j < k {
      StreamPrefix(P, init, r, p, j, k - 1);
    }
  }

  lemma StreamStep<T(!new)>(P: Protocol<T>, init: Memories<T>, r: nat, p: nat, k: nat, o: nat)
    requires WellFormed(P) && Shaped(P, init) && r < P.n && p < P.n && k < P.rounds
    requires o < P.send(r, k, p).len
    ensures LinkOk(P, r, k, p)
    ensures Base(P, r, p, k) + o < Base(P, r, p, k + 1)
    ensures Stream(P, init, r, p, k + 1)[Base(P, r, p, k) + o]
         == Lockstep(P, init, k)[r][P.send(r, k, p).lo + o]
  {
    assert LinkOk(P, r, k, p);
    var m := Lockstep(P, init, k)[r];
    assert Stream(P, init, r, p, k + 1) == Stream(P, init, r, p, k) + Slice(m, P.send(r, k, p));
    assert Slice(m, P.send(r, k, p))[o] == m[P.send(r, k, p).lo + o];
  }

  lemma StreamAt<T(!new)>(P: Protocol<T>, init: Memories<T>, r: nat, p: nat, k: nat, o: nat)
    requires WellFormed(P) && Shaped(P, init) && r < P.n && p < P.n && k < P.rounds
    requires o < P.send(r, k, p).len
    ensures LinkOk(P, r, k, p)
    ensures Base(P, r, p, k) + o < Base(P, r, p, k + 1) <= Base(P, r, p, P.rounds)
    ensures Stream(P, init, r, p, P.rounds)[Base(P, r, p, k) + o]
         == Lockstep(P, init, k)[r][P.send(r, k, p).lo + o]
  {
    StreamStep(P, init, r, p, k, o);
    StreamPrefix(P, init, r, p, k + 1, P.rounds);
  }

  predicate Landed<T>(P: Protocol<T>, me: Rank<T>, r: nat, p: nat, i: nat)
    requires p < |me.got|
  {
    P.recv(r, me.round, p).lo <= i < P.recv(r, me.round, p).lo + me.got[p]
  }

  ghost predicate LandedOk<T>(P: Protocol<T>, now: Memories<T>, me: Rank<T>, r: nat, p: nat, o: nat)
    requires Shaped(P, now) && r < P.n && p < P.n && |me.mem| == P.size
  {
    var dst, src := P.recv(r, me.round, p).lo + o, P.send(p, me.round, r).lo + o;
    dst < P.size && src < P.size && me.mem[dst] == now[p][src]
  }

  ghost predicate CountsOk<T(!new)>(P: Protocol<T>, me: Rank<T>, r: nat)
    requires |me.sent| == |me.got| == P.n
  {
    && me.round <= P.rounds
    && (forall p: nat :: p < P.n ==>
         && me.sent[p] <= (if me.round < P.rounds then P.send(r, me.round, p).len else 0)
         && me.got[p] <= (if me.round < P.rounds then P.recv(r, me.round, p).len else 0))
  }

  /** What has landed came from the peer's memory in lockstep; the rest is untouched. */
  ghost predicate MemOk<T(!new)>(P: Protocol<T>, init: Memories<T>, me: Rank<T>, r: nat)
    requires WellFormed(P) && Shaped(P, init) && r < P.n
    requires |me.sent| == |me.got| == P.n && |me.mem| == P.size && CountsOk(P, me, r)
  {
    var now := Lockstep(P, init, me.round);
    && (forall p: nat, o: nat :: p < P.n && o < me.got[p] ==> LandedOk(P, now, me, r, p, o))
    && (forall i: nat :: i < P.size && (forall p: nat :: p < P.n ==> !Landed(P, me, r, p, i))
         ==> me.mem[i] == now[r][i])
  }

  function Written<T>(P: Protocol<T>, s: State<T>, r: nat, p: nat): nat
    requires Typed(P, s) && r < P.n && p < P.n
  {
    Base(P, r, p, s.ranks[r].round) + s.ranks[r].sent[p]
  }

  function Read<T>(P: Protocol<T>, s: State<T>, r: nat, p: nat): nat
    requires Typed(P, s) && r < P.n && p < P.n
  {
    Base(P, r, p, s.ranks[p].round) + s.ranks[p].got[r]
  }

  /** The channel holds exactly what was written and not read of the link's stream. */
  ghost predicate ChanOk<T(!new)>(P: Protocol<T>, init: Memories<T>, s: State<T>, r: nat, p: nat)
    requires WellFormed(P) && Shaped(P, init) && Typed(P, s) && r < P.n && p < P.n
  {
    && Read(P, s, r, p) <= Written(P, s, r, p) <= Base(P, r, p, P.rounds)
    && s.chan[(r, p)] == Stream(P, init, r, p, P.rounds)[Read(P, s, r, p)..Written(P, s, r, p)]
  }

  ghost predicate RankOk<T(!new)>(P: Protocol<T>, init: Memories<T>, s: State<T>, r: nat)
    requires WellFormed(P) && Shaped(P, init) && Typed(P, s) && r < P.n
  {
    CountsOk(P, s.ranks[r], r) && MemOk(P, init, s.ranks[r], r)
  }

  ghost predicate Inv<T(!new)>(P: Protocol<T>, init: Memories<T>, s: State<T>) {
    && WellFormed(P) && Shaped(P, init) && Typed(P, s)
    && (forall r: nat :: r < P.n ==> RankOk(P, init, s, r))
    && (forall r: nat, p: nat :: r < P.n && p < P.n ==> ChanOk(P, init, s, r, p))
  }

  lemma CountsOf<T(!new)>(P: Protocol<T>, init: Memories<T>, s: State<T>, r: nat)
    requires Inv(P, init, s) && r < P.n
    ensures CountsOk(P, s.ranks[r], r)
  {
    assert RankOk(P, init, s, r);
  }

  lemma InitialInv<T(!new)>(P: Protocol<T>, init: Memories<T>)
    requires WellFormed(P) && Shaped(P, init)
    ensures Inv(P, init, Initial(P, init))
  {
    var s := Initial(P, init);
    forall r: nat | r < P.n ensures RankOk(P, init, s, r) {
      assert s.ranks[r].mem == init[r];
    }
    forall r: nat, p: nat | r < P.n && p < P.n ensures ChanOk(P, init, s, r, p) {
      StreamPrefix(P, init, r, p, 0, P.rounds);
    }
  }

  /** What a sender reads is what the simple form has there: no receiver of the round wrote it. */
  lemma SentElement<T(!new)>(P: Protocol<T>, init: Memories<T>, s: State<T>, r: nat, p: nat)
    requires Inv(P, init, s) && r < P.n && p < P.n && s.ranks[r].round < P.rounds
    requires s.ranks[r].sent[p] < P.send(r, s.ranks[r].round, p).len
    ensures LinkOk(P, r, s.ranks[r].round, p)
    ensures Written(P, s, r, p) < Base(P, r, p, P.rounds)
    ensures s.ranks[r].mem[P.send(r, s.ranks[r].round, p).lo + s.ranks[r].sent[p]]
         == Stream(P, init, r, p, P.rounds)[Written(P, s, r, p)]
  {
    var me := s.ranks[r];
    var k, o := me.round, me.sent[p];
    StreamAt(P, init, r, p, k, o);
    var i := P.send(r, k, p).lo + o;
    assert RankOk(P, init, s, r);
    forall q: nat | q < P.n ensures !Landed(P, me, r, q, i) {
      assert NoClash(P, r, k, q, p);
    }
  }

  lemma PushMem<T(!new)>(P: Protocol<T>, init: Memories<T>, cap: nat, s: State<T>, r: nat, p: nat)
    requires Inv(P, init, s) && Enabled(P, cap, s, Push(r, p))
    ensures RankOk(P, init, Apply(P, cap, s, Push(r, p)), r)
  {
    assert RankOk(P, init, s, r);
    var me, me' := s.ranks[r], Apply(P, cap, s, Push(r, p)).ranks[r];
    var now := Lockstep(P, init, me.round);
    forall q: nat, o: nat | q < P.n && o < me'.got[q] ensures LandedOk(P, now, me', r, q, o) {
      assert LandedOk(P, now, me, r, q, o);
    }
    forall i: nat | i < P.size && (forall q: nat :: q < P.n ==> !Landed(P, me', r, q, i))
      ensures me'.mem[i] == now[r][i]
    {
      forall q: nat | q < P.n ensures !Landed(P, me, r, q, i) {
        assert !Landed(P, me', r, q, i);
      }
    }
  }

  lemma PushChan<T(!new)>(P: Protocol<T>, init: Memories<T>, cap: nat, s: State<T>, r: nat, p: nat)
    requires Inv(P, init, s) && Enabled(P, cap, s, Push(r, p))
    ensures ChanOk(P, init, Apply(P, cap, s, Push(r, p)), r, p)
  {
    assert ChanOk(P, init, s, r, p);
    SentElement(P, init, s, r, p);
    var s' := Apply(P, cap, s, Push(r, p));
    var all := Stream(P, init, r, p, P.rounds);
    var a, b := Read(P, s, r, p), Written(P, s, r, p);
    assert Read(P, s', r, p) == a && Written(P, s', r, p) == b + 1;
    assert all[a..b + 1] == all[a..b] + [all[b]];
  }

  lemma PushInv<T(!new)>(P: Protocol<T>, init: Memories<T>, cap: nat, s: State<T>, r: nat, p: nat)
    requires Inv(P, init, s) && Enabled(P, cap, s, Push(r, p))
    ensures Inv(P, init, Apply(P, cap, s, Push(r, p)))
  {
    var s' := Apply(P, cap, s, Push(r, p));
    forall q: nat | q < P.n ensures RankOk(P, init, s', q) {
      assert RankOk(P, init, s, q);
      if q == r { PushMem(P, init, cap, s, r, p); }
    }
    forall a: nat, b: nat | a < P.n && b < P.n ensures ChanOk(P, init, s', a, b) {
      assert ChanOk(P, init, s, a, b);
      if (a, b) == (r, p) { PushChan(P, init, cap, s, r, p); }
    }
  }

  lemma ReadElement<T(!new)>(P: Protocol<T>, init: Memories<T>, s: State<T>, r: nat, p: nat)
    requires Inv(P, init, s) && r < P.n && p < P.n && s.ranks[r].round < P.rounds
    requires s.ranks[r].got[p] < P.recv(r, s.ranks[r].round, p).len && |s.chan[(p, r)]| > 0
    ensures LinkOk(P, r, s.ranks[r].round, p) && LinkOk(P, p, s.ranks[r].round, r)
    ensures s.chan[(p, r)][0]
         == Lockstep(P, init, s.ranks[r].round)[p][P.send(p, s.ranks[r].round, r).lo + s.ranks[r].got[p]]
  {
    var k := s.ranks[r].round;
    assert LinkOk(P, r, k, p) && LinkOk(P, p, k, r);
    assert ChanOk(P, init, s, p, r);
    StreamAt(P, init, p, r, k, s.ranks[r].got[p]);
  }

  /** One element lands: it is the peer's, and it overwrites nothing that had landed. */
  /** What has not been received into after a pull had not been before. */
  lemma PullLeaves<T(!new)>(P: Protocol<T>, init: Memories<T>, cap: nat, s: State<T>, r: nat, p: nat, i: nat)
    requires Inv(P, init, s) && Enabled(P, cap, s, Pull(r, p)) && i < P.size
    requires forall q: nat :: q < P.n ==> !Landed(P, Apply(P, cap, s, Pull(r, p)).ranks[r], r, q, i)
    ensures Apply(P, cap, s, Pull(r, p)).ranks[r].mem[i] == Lockstep(P, init, s.ranks[r].round)[r][i]
  {
    assert RankOk(P, init, s, r);
    var me, me' := s.ranks[r], Apply(P, cap, s, Pull(r, p)).ranks[r];
    assert !Landed(P, me', r, p, i);
    forall q: nat | q < P.n ensures !Landed(P, me, r, q, i) {
      assert !Landed(P, me', r, q, i);
    }
  }

  lemma PullMem<T(!new)>(P: Protocol<T>, init: Memories<T>, cap: nat, s: State<T>, r: nat, p: nat)
    requires Inv(P, init, s) && Enabled(P, cap, s, Pull(r, p))
    ensures RankOk(P, init, Apply(P, cap, s, Pull(r, p)), r)
  {
    ReadElement(P, init, s, r, p);
    assert RankOk(P, init, s, r);
    var s' := Apply(P, cap, s, Pull(r, p));
    var me, me' := s.ranks[r], s'.ranks[r];
    var k := me.round;
    var now := Lockstep(P, init, k);
    var at := P.recv(r, k, p).lo + me.got[p];
    forall q: nat, o: nat | q < P.n && o < me'.got[q] ensures LandedOk(P, now, me', r, q, o) {
      assert NoClash(P, r, k, p, q);
      assert q != p || o != me.got[p] ==> LandedOk(P, now, me, r, q, o);
    }
    forall i: nat | i < P.size && (forall q: nat :: q < P.n ==> !Landed(P, me', r, q, i))
      ensures me'.mem[i] == now[r][i]
    {
      PullLeaves(P, init, cap, s, r, p, i);
    }
  }

  lemma PullInv<T(!new)>(P: Protocol<T>, init: Memories<T>, cap: nat, s: State<T>, r: nat, p: nat)
    requires Inv(P, init, s) && Enabled(P, cap, s, Pull(r, p))
    ensures Inv(P, init, Apply(P, cap, s, Pull(r, p)))
  {
    var s' := Apply(P, cap, s, Pull(r, p));
    forall q: nat | q < P.n ensures RankOk(P, init, s', q) {
      assert RankOk(P, init, s, q);
      if q == r { PullMem(P, init, cap, s, r, p); }
    }
    forall a: nat, b: nat | a < P.n && b < P.n ensures ChanOk(P, init, s', a, b) {
      assert ChanOk(P, init, s, a, b);
    }
  }

  /** When a round is done, memory is what the simple form delivers. */
  lemma RoundMem<T(!new)>(P: Protocol<T>, init: Memories<T>, s: State<T>, r: nat)
    requires Inv(P, init, s) && r < P.n && s.ranks[r].round < P.rounds && RoundDone(P, s, r)
    ensures s.ranks[r].mem == Deliver(P, s.ranks[r].round, Lockstep(P, init, s.ranks[r].round), r)
  {
    var me := s.ranks[r];
    var k := me.round;
    var now := Lockstep(P, init, k);
    assert RankOk(P, init, s, r);
    forall i: nat | i < P.size ensures me.mem[i] == Deliver(P, k, now, r)[i] {
      if p: nat :| p < P.n && P.recv(r, k, p).Has(i) {
        var o := i - P.recv(r, k, p).lo;
        assert LandedOk(P, now, me, r, p, o);
        DeliverHit(P, k, now, r, p, o);
      } else {
        DeliverMiss(P, k, now, r, i);
        forall p: nat | p < P.n ensures !Landed(P, me, r, p, i) {
          assert !P.recv(r, k, p).Has(i);
        }
      }
    }
  }

  lemma AdvanceChan<T(!new)>(P: Protocol<T>, init: Memories<T>, cap: nat, s: State<T>, r: nat, a: nat, b: nat)
    requires Inv(P, init, s) && Enabled(P, cap, s, Advance(r)) && a < P.n && b < P.n
    ensures ChanOk(P, init, Apply(P, cap, s, Advance(r)), a, b)
  {
    var k := s.ranks[r].round;
    CountsOf(P, init, s, r);
    assert ChanOk(P, init, s, a, b) && LinkOk(P, a, k, b) && LinkOk(P, b, k, a);
    var s' := Apply(P, cap, s, Advance(r));
    assert Written(P, s', a, b) == Written(P, s, a, b);
    assert Read(P, s', a, b) == Read(P, s, a, b);
  }

  lemma AdvanceInv<T(!new)>(P: Protocol<T>, init: Memories<T>, cap: nat, s: State<T>, r: nat)
    requires Inv(P, init, s) && Enabled(P, cap, s, Advance(r))
    ensures Inv(P, init, Apply(P, cap, s, Advance(r)))
  {
    var s' := Apply(P, cap, s, Advance(r));
    RoundMem(P, init, s, r);
    assert s'.ranks[r].mem == Lockstep(P, init, s.ranks[r].round + 1)[r];
    forall q: nat | q < P.n ensures RankOk(P, init, s', q) {
      assert RankOk(P, init, s, q);
    }
    forall a: nat, b: nat | a < P.n && b < P.n ensures ChanOk(P, init, s', a, b) {
      AdvanceChan(P, init, cap, s, r, a, b);
    }
  }

  lemma StepInv<T(!new)>(P: Protocol<T>, init: Memories<T>, cap: nat, s: State<T>, m: Move)
    requires Inv(P, init, s) && Enabled(P, cap, s, m)
    ensures Inv(P, init, Apply(P, cap, s, m))
  {
    match m
    case Push(r, p) => PushInv(P, init, cap, s, r, p);
    case Pull(r, p) => PullInv(P, init, cap, s, r, p);
    case Advance(r) => AdvanceInv(P, init, cap, s, r);
  }

  // ---------------------------------------------------------------- no rank waits for ever

  /** One of the two messages a pair exchanges fits the channel. */
  predicate PairRoom<T>(P: Protocol<T>, cap: nat, r: nat, k: nat, p: nat) {
    P.send(r, k, p).len <= cap || P.send(p, k, r).len <= cap
  }

  /** Pairs matter only when a thread finishes its send before it receives. */
  ghost predicate Room<T(!new)>(P: Protocol<T>, cap: nat) {
    && cap >= 1
    && (P.sendFirst ==> forall r: nat, k: nat, p: nat ::
         r < P.n && k < P.rounds && p < P.n ==> PairRoom(P, cap, r, k, p))
  }

  lemma {:induction false} Slowest<T>(ranks: seq<Rank<T>>) returns (r: nat)
    requires |ranks| > 0
    ensures r < |ranks| && forall q :: 0 <= q < |ranks| ==> ranks[r].round <= ranks[q].round
  {
    r := 0;
    for q := 0 to |ranks|
      invariant r < |ranks| && forall j :: 0 <= j < q ==> ranks[r].round <= ranks[j].round
    {
      if ranks[q].round < ranks[r].round { r := q; }
    }
  }

  /** The slowest rank has an unfinished send: it, or the peer it waits for, can move. */
  /** While `r` has elements of its round left for `p`, `p` cannot have left that round. */
  lemma NotAhead<T(!new)>(P: Protocol<T>, init: Memories<T>, s: State<T>, r: nat, p: nat)
    requires Inv(P, init, s) && r < P.n && p < P.n
    requires s.ranks[r].round < P.rounds && s.ranks[r].round <= s.ranks[p].round
    requires s.ranks[r].sent[p] < P.send(r, s.ranks[r].round, p).len
    ensures s.ranks[p].round == s.ranks[r].round
  {
    var k := s.ranks[r].round;
    CountsOf(P, init, s, p);
    assert ChanOk(P, init, s, r, p);
    StreamPrefix(P, init, r, p, k, s.ranks[p].round);
    if s.ranks[p].round > k {
      StreamPrefix(P, init, r, p, k + 1, s.ranks[p].round);
    }
  }

  lemma SenderMoves<T(!new)>(P: Protocol<T>, init: Memories<T>, cap: nat, s: State<T>, r: nat, p: nat) returns (m: Move)
    requires Inv(P, init, s) && Room(P, cap) && r < P.n && p < P.n
    requires s.ranks[r].round < P.rounds && s.ranks[r].round <= s.ranks[p].round
    requires s.ranks[r].sent[p] < P.send(r, s.ranks[r].round, p).len
    ensures Enabled(P, cap, s, m)
  {
    var k := s.ranks[r].round;
    assert LinkOk(P, r, k, p) && LinkOk(P, p, k, r);
    NotAhead(P, init, s, r, p);
    assert ChanOk(P, init, s, r, p);
    if |s.chan[(r, p)]| < cap {
      m := Push(r, p);
    } else if P.sendFirst && s.ranks[p].sent[r] < P.send(p, k, r).len {
      assert PairRoom(P, cap, r, k, p) && ChanOk(P, init, s, p, r);
      m := Push(p, r);
    } else {
      m := Pull(p, r);
    }
  }

  lemma ReceiverMoves<T(!new)>(P: Protocol<T>, init: Memories<T>, cap: nat, s: State<T>, r: nat, p: nat)
    returns (m: Move)
    requires Inv(P, init, s) && Room(P, cap) && r < P.n && p < P.n
    requires s.ranks[r].round < P.rounds && s.ranks[r].round <= s.ranks[p].round
    requires s.ranks[r].sent[p] >= P.send(r, s.ranks[r].round, p).len
    requires s.ranks[r].got[p] < P.recv(r, s.ranks[r].round, p).len
    ensures Enabled(P, cap, s, m)
  {
    var k := s.ranks[r].round;
    assert LinkOk(P, r, k, p) && LinkOk(P, p, k, r);
    CountsOf(P, init, s, p);
    assert ChanOk(P, init, s, p, r);
    if s.ranks[p].round > k {
      StreamPrefix(P, init, p, r, k + 1, s.ranks[p].round);
    }
    m := if |s.chan[(p, r)]| > 0 then Pull(r, p) else Push(p, r);
  }

  /** Deadlock freedom: a state that is not finished has an enabled move. */
  lemma Progress<T(!new)>(P: Protocol<T>, init: Memories<T>, cap: nat, s: State<T>) returns (m: Move)
    requires Inv(P, init, s) && Room(P, cap) && !Finished(P, s)
    ensures Enabled(P, cap, s, m)
  {
    var r := Slowest(s.ranks);
    var me := s.ranks[r];
    if p: nat :| p < P.n && me.sent[p] < P.send(r, me.round, p).len {
      m := SenderMoves(P, init, cap, s, r, p);
    } else if p: nat :| p < P.n && me.got[p] < P.recv(r, me.round, p).len {
      m := ReceiverMoves(P, init, cap, s, r, p);
    } else {
      m := Advance(r);
    }
  }

  // ---------------------------------------------------------------- every run is finite

  function Sum(s: seq<nat>): nat {
    if s == [] then 0 else Sum(s[..|s| - 1]) + s[|s| - 1]
  }

  lemma {:induction false} SumUpdate(s: seq<nat>, i: nat, v: nat)
    requires i < |s|
    ensures Sum(s[i := v]) == Sum(s) - s[i] + v
  {
    var t := s[i := v];
    if i == |s| - 1 {
      assert t[..|s| - 1] == s[..|s| - 1];
    } else {
      SumUpdate(s[..|s| - 1], i, v);
      assert t[..|s| - 1] == s[..|s| - 1][i := v];
    }
  }

  lemma {:induction false} SumZeros(n: nat)
    ensures Sum(Zeros(n)) == 0
  {
    if n > 0 {
      SumZeros(n - 1);
      assert Zeros(n)[..n - 1] == Zeros(n - 1);
    }
  }

  function SendLens<T>(P: Protocol<T>, r: nat, k: nat): (lens: seq<nat>)
    ensures |lens| == P.n && forall p: nat :: p < P.n ==> lens[p] == P.send(r, k, p).len
  {
    seq<nat>(P.n, p requires 0 <= p < P.n => P.send(r, k, p).len)
  }

  function RecvLens<T>(P: Protocol<T>, r: nat, k: nat): (lens: seq<nat>)
    ensures |lens| == P.n && forall p: nat :: p < P.n ==> lens[p] == P.recv(r, k, p).len
  {
    seq<nat>(P.n, p requires 0 <= p < P.n => P.recv(r, k, p).len)
  }

  /** Moves rank `r` makes in the rounds before `k`: one per element sent or received, one to advance. */
  function WorkBefore<T>(P: Protocol<T>, r: nat, k: nat): nat {
    if k == 0 then 0 else
      WorkBefore(P, r, k - 1) + 1 + Sum(SendLens(P, r, k - 1)) + Sum(RecvLens(P, r, k - 1))
  }

  function Made<T>(P: Protocol<T>, me: Rank<T>, r: nat): nat {
    WorkBefore(P, r, me.round) + Sum(me.sent) + Sum(me.got)
  }

  function MadeBy<T>(P: Protocol<T>, ranks: seq<Rank<T>>): nat {
    if ranks == [] then 0 else
      MadeBy(P, ranks[..|ranks| - 1]) + Made(P, ranks[|ranks| - 1], |ranks| - 1)
  }

  function TotalWork<T>(P: Protocol<T>, n: nat): nat {
    if n == 0 then 0 else TotalWork(P, n - 1) + WorkBefore(P, n - 1, P.rounds)
  }

  lemma {:induction false} MadeUpdate<T>(P: Protocol<T>, ranks: seq<Rank<T>>, r: nat, me: Rank<T>)
    requires r < |ranks|
    ensures MadeBy(P, ranks[r := me]) == MadeBy(P, ranks) - Made(P, ranks[r], r) + Made(P, me, r)
  {
    var t := ranks[r := me];
    if r == |ranks| - 1 {
      assert t[..|ranks| - 1] == ranks[..|ranks| - 1];
    } else {
      MadeUpdate(P, ranks[..|ranks| - 1], r, me);
      assert t[..|ranks| - 1] == ranks[..|ranks| - 1][r := me];
    }
  }

  lemma AdvanceWork<T(!new)>(P: Protocol<T>, init: Memories<T>, cap: nat, s: State<T>, r: nat)
    requires Inv(P, init, s) && Enabled(P, cap, s, Advance(r))
    ensures Made(P, Apply(P, cap, s, Advance(r)).ranks[r], r) == Made(P, s.ranks[r], r) + 1
  {
    var me := s.ranks[r];
    SumZeros(P.n);
    CountsOf(P, init, s, r);
    assert me.sent == SendLens(P, r, me.round) && me.got == RecvLens(P, r, me.round);
  }

  /** Every move is one unit of work. */
  lemma StepWork<T(!new)>(P: Protocol<T>, init: Memories<T>, cap: nat, s: State<T>, m: Move)
    requires Inv(P, init, s) && Enabled(P, cap, s, m)
    ensures MadeBy(P, Apply(P, cap, s, m).ranks) == MadeBy(P, s.ranks) + 1
  {
    var me, me' := s.ranks[m.r], Apply(P, cap, s, m).ranks[m.r];
    assert Made(P, me', m.r) == Made(P, me, m.r) + 1 by {
      match m {
        case Push(r, p) => SumUpdate(me.sent, p, me.sent[p] + 1);
        case Pull(r, p) => SumUpdate(me.got, p, me.got[p] + 1);
        case Advance(r) => AdvanceWork(P, init, cap, s, r);
      }
    }
    MadeUpdate(P, s.ranks, m.r, me');
    assert Apply(P, cap, s, m).ranks == s.ranks[m.r := me'];
  }

  lemma {:induction false} SumLe(a: seq<nat>, b: seq<nat>)
    requires |a| == |b| && forall i :: 0 <= i < |a| ==> a[i] <= b[i]
    ensures Sum(a) <= Sum(b)
  {
    if a != [] { SumLe(a[..|a| - 1], b[..|b| - 1]); }
  }

  lemma {:induction false} WorkMono<T>(P: Protocol<T>, r: nat, j: nat, k: nat)
    requires j <= k
    ensures WorkBefore(P, r, j) <= WorkBefore(P, r, k)
    decreases k
  {
    if j < k { WorkMono(P, r, j, k - 1); }
  }

  lemma MadeBound<T(!new)>(P: Protocol<T>, me: Rank<T>, r: nat)
    requires |me.sent| == |me.got| == P.n && CountsOk(P, me, r)
    ensures Made(P, me, r) <= WorkBefore(P, r, P.rounds)
    ensures me.round >= P.rounds ==> Made(P, me, r) == WorkBefore(P, r, P.rounds)
  {
    if me.round < P.rounds {
      SumLe(me.sent, SendLens(P, r, me.round));
      SumLe(me.got, RecvLens(P, r, me.round));
      WorkMono(P, r, me.round + 1, P.rounds);
    } else {
      SumZeros(P.n);
      assert me.sent == Zeros(P.n) && me.got == Zeros(P.n);
    }
  }

  lemma {:induction false} WorkBound<T(!new)>(P: Protocol<T>, ranks: seq<Rank<T>>)
    requires forall r: nat :: r < |ranks| ==> |ranks[r].sent| == |ranks[r].got| == P.n && CountsOk(P, ranks[r], r)
    ensures MadeBy(P, ranks) <= TotalWork(P, |ranks|)
    ensures (forall r :: 0 <= r < |ranks| ==> ranks[r].round >= P.rounds) ==> MadeBy(P, ranks) == TotalWork(P, |ranks|)
  {
    if ranks != [] {
      var n := |ranks| - 1;
      WorkBound(P, ranks[..n]);
      MadeBound(P, ranks[n], n);
    }
  }

  // ---------------------------------------------------------------- runs

  ghost predicate Legal<T(!new)>(P: Protocol<T>, cap: nat, s: State<T>, moves: seq<Move>)
    requires WellFormed(P) && Typed(P, s)
    decreases |moves|
  {
    moves == [] || (Enabled(P, cap, s, moves[0]) && Legal(P, cap, Apply(P, cap, s, moves[0]), moves[1..]))
  }

  ghost function Exec<T(!new)>(P: Protocol<T>, cap: nat, s: State<T>, moves: seq<Move>): (s': State<T>)
    requires WellFormed(P) && Typed(P, s) && Legal(P, cap, s, moves)
    ensures Typed(P, s')
    decreases |moves|
  {
    if moves == [] then s else Exec(P, cap, Apply(P, cap, s, moves[0]), moves[1..])
  }

  /** Safety over whole runs: the invariant holds, and each move was one unit of work. */
  lemma {:induction false} RunInv<T(!new)>(P: Protocol<T>, init: Memories<T>, cap: nat, s: State<T>, moves: seq<Move>)
    requires Inv(P, init, s) && Legal(P, cap, s, moves)
    ensures Inv(P, init, Exec(P, cap, s, moves))
    ensures MadeBy(P, Exec(P, cap, s, moves).ranks) == MadeBy(P, s.ranks) + |moves|
    decreases |moves|
  {
    if moves != [] {
      StepInv(P, init, cap, s, moves[0]);
      StepWork(P, init, cap, s, moves[0]);
      RunInv(P, init, cap, Apply(P, cap, s, moves[0]), moves[1..]);
    }
  }

  lemma {:induction false} InitialWork<T(!new)>(P: Protocol<T>, ranks: seq<Rank<T>>)
    requires forall r :: 0 <= r < |ranks| ==> ranks[r].round == 0 && ranks[r].sent == ranks[r].got == Zeros(P.n)
    ensures MadeBy(P, ranks) == 0
  {
    SumZeros(P.n);
    if ranks != [] { InitialWork(P, ranks[..|ranks| - 1]); }
  }

  /** A run of the protocol from its start that cannot be continued. */
  ghost predicate Maximal<T(!new)>(P: Protocol<T>, cap: nat, init: Memories<T>, moves: seq<Move>)
    requires WellFormed(P) && Shaped(P, init)
  {
    && Legal(P, cap, Initial(P, init), moves)
    && forall m :: !Enabled(P, cap, Exec(P, cap, Initial(P, init), moves), m)
  }

  ghost function Outcome<T(!new)>(P: Protocol<T>, cap: nat, init: Memories<T>, moves: seq<Move>): (s: State<T>)
    requires WellFormed(P) && Shaped(P, init) && Legal(P, cap, Initial(P, init), moves)
    ensures Typed(P, s)
  {
    Exec(P, cap, Initial(P, init), moves)
  }

  /** Partial runs: the invariant, and at most `TotalWork` moves. */
  lemma RunBound<T(!new)>(P: Protocol<T>, cap: nat, init: Memories<T>, moves: seq<Move>)
    requires WellFormed(P) && Shaped(P, init) && Legal(P, cap, Initial(P, init), moves)
    ensures Inv(P, init, Outcome(P, cap, init, moves))
    ensures |moves| <= TotalWork(P, P.n)
    ensures Finished(P, Outcome(P, cap, init, moves)) ==> |moves| == TotalWork(P, P.n)
  {
    InitialInv(P, init);
    var s := Initial(P, init);
    RunInv(P, init, cap, s, moves);
    InitialWork(P, s.ranks);
    var t := Outcome(P, cap, init, moves);
    forall r: nat | r < P.n ensures CountsOk(P, t.ranks[r], r) {
      CountsOf(P, init, t, r);
    }
    WorkBound(P, t.ranks);
  }

  lemma WorkLeft<T(!new)>(P: Protocol<T>, init: Memories<T>, s: State<T>)
    requires Inv(P, init, s)
    ensures MadeBy(P, s.ranks) <= TotalWork(P, P.n)
  {
    forall r: nat | r < P.n ensures CountsOk(P, s.ranks[r], r) {
      CountsOf(P, init, s, r);
    }
    WorkBound(P, s.ranks);
  }

  /** Every state has a run that goes on until nothing can move. */
  lemma {:induction false} RunOn<T(!new)>(P: Protocol<T>, init: Memories<T>, cap: nat, s: State<T>)
    returns (moves: seq<Move>)
    requires Inv(P, init, s)
    ensures Legal(P, cap, s, moves) && forall m :: !Enabled(P, cap, Exec(P, cap, s, moves), m)
    decreases TotalWork(P, P.n) - MadeBy(P, s.ranks)
  {
    if m :| Enabled(P, cap, s, m) {
      StepInv(P, init, cap, s, m);
      StepWork(P, init, cap, s, m);
      var s' := Apply(P, cap, s, m);
      WorkLeft(P, init, s');
      var rest := RunOn(P, init, cap, s');
      moves := [m] + rest;
      assert moves[1..] == rest;
    } else {
      moves := [];
    }
  }

  lemma SomeRun<T(!new)>(P: Protocol<T>, cap: nat, init: Memories<T>) returns (moves: seq<Move>)
    requires WellFormed(P) && Shaped(P, init)
    ensures Maximal(P, cap, init, moves)
  {
    InitialInv(P, init);
    moves := RunOn(P, init, cap, Initial(P, init));
  }

  /** Finished states, however they were reached, hold the memories of the simple form, and
      nothing is left on the wire. */
  lemma FinishedIsLockstep<T(!new)>(P: Protocol<T>, init: Memories<T>, s: State<T>)
    requires Inv(P, init, s) && Finished(P, s)
    ensures forall r: nat :: r < P.n ==> s.ranks[r].mem == Lockstep(P, init, P.rounds)[r]
    ensures forall r: nat, p: nat :: r < P.n && p < P.n ==> s.chan[(r, p)] == []
  {
    forall r: nat | r < P.n ensures s.ranks[r].mem == Lockstep(P, init, P.rounds)[r] {
      assert RankOk(P, init, s, r);
      assert forall p: nat, i: nat | p < P.n :: !Landed(P, s.ranks[r], r, p, i);
    }
    forall r: nat, p: nat | r < P.n && p < P.n ensures s.chan[(r, p)] == [] {
      CountsOf(P, init, s, r);
      CountsOf(P, init, s, p);
      assert ChanOk(P, init, s, r, p);
    }
  }

  /** The main theorem: every run that cannot be continued has finished, after the same number of
      moves, in the memories of the simple form, with every channel empty. */
  lemma EveryRunIsLockstep<T(!new)>(P: Protocol<T>, cap: nat, init: Memories<T>, moves: seq<Move>)
    requires WellFormed(P) && Shaped(P, init) && Room(P, cap) && Maximal(P, cap, init, moves)
    ensures Finished(P, Outcome(P, cap, init, moves)) && |moves| == TotalWork(P, P.n)
    ensures forall r: nat :: r < P.n ==>
              Outcome(P, cap, init, moves).ranks[r].mem == Lockstep(P, init, P.rounds)[r]
    ensures forall r: nat, p: nat :: r < P.n && p < P.n ==> Outcome(P, cap, init, moves).chan[(r, p)] == []
  {
    RunBound(P, cap, init, moves);
    var t := Outcome(P, cap, init, moves);
    if !Finished(P, t) {
      var m := Progress(P, init, cap, t);
    }
    FinishedIsLockstep(P, init, t);
  }
}
