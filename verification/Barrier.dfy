/** Numbered barriers through a shared key-value store: every rank publishes its own key and then waits
    for every other rank's key.  Each rank runs its barriers one after the other; the steps of
    different ranks interleave freely, and any wait may time out. */
module Barrier {

  // ---------------------------------------------------------------- keys

  const DIGITS := "0123456789"

  function Decimal(n: nat): (s: string)
    ensures s != [] && '/' !in s
  {
    if n < 10 then [DIGITS[n]] else Decimal(n / 10) + [DIGITS[n % 10]]
  }

  /** The number a string of digits stands for, first digit most significant. */
  function ValueOf(s: string): int {
    if s == [] then 0 else 10 * ValueOf(s[..|s| - 1]) + (s[|s| - 1] as int - '0' as int)
  }

  /** Printing is the usual decimal notation. */
  lemma {:induction false} DecimalReads(n: nat)
    ensures ValueOf(Decimal(n)) == n
    ensures forall i :: 0 <= i < |Decimal(n)| ==> '0' <= Decimal(n)[i] <= '9'
  {
    var s := Decimal(n);
    if n >= 10 {
      DecimalReads(n / 10);
      assert s[..|s| - 1] == Decimal(n / 10);
    } else {
      assert s[..|s| - 1] == [];
    }
    assert DIGITS[n % 10] as int - '0' as int == n % 10;
  }

  lemma KeyExample()
    ensures Key(7, 12) == "mccl/barrier/pg_barrier_7/12"
  {
    assert Decimal(12) == Decimal(1) + ['2'];
    assert Decimal(7) == ['7'] && Decimal(1) == ['1'];
  }

  lemma {:induction false} DecimalInjective(m: nat, n: nat)
    requires Decimal(m) == Decimal(n)
    ensures m == n
  {
    var s, t := Decimal(m), Decimal(n);
    assert s[|s| - 1] == DIGITS[m % 10] && t[|t| - 1] == DIGITS[n % 10];
    assert m >= 10 ==> s[..|s| - 1] == Decimal(m / 10);
    assert n >= 10 ==> t[..|t| - 1] == Decimal(n / 10);
    if m >= 10 && n >= 10 {
      DecimalInjective(m / 10, n / 10);
    }
  }

  function Tag(n: nat): string {
    "pg_barrier_" + Decimal(n)
  }

  function KeyOf(tag: string, r: nat): string {
    "mccl/barrier/" + tag + "/" + Decimal(r)
  }

  /** Whatever the tags are, slashes included, equal keys have equal tags and ranks. */
  lemma KeyInjective(tag: string, r: nat, other: string, q: nat)
    requires KeyOf(tag, r) == KeyOf(other, q)
    ensures tag == other && r == q
  {
    LastSlash("mccl/barrier/" + tag, Decimal(r), "mccl/barrier/" + other, Decimal(q));
    DecimalInjective(r, q);
    assert ("mccl/barrier/" + tag)[13..] == tag && ("mccl/barrier/" + other)[13..] == other;
  }

  lemma LastSlash(a: string, d: string, b: string, e: string)
    requires a + "/" + d == b + "/" + e && '/' !in d && '/' !in e
    ensures a == b && d == e
  {
    var u := a + "/" + d;
    assert u == b + "/" + e;
    assert u[|a|] == '/' && u[|b|] == '/';
    assert u[..|a|] == a && u[..|b|] == b && u[|a| + 1..] == d && u[|b| + 1..] == e;
  }

  function Key(n: nat, r: nat): string {
    KeyOf(Tag(n), r)
  }

  lemma KeysDiffer(n: nat, r: nat, m: nat, q: nat)
    requires Key(n, r) == Key(m, q)
    ensures n == m && r == q
  {
    KeyInjective(Tag(n), r, Tag(m), q);
    assert Tag(n)[11..] == Decimal(n) && Tag(m)[11..] == Decimal(m);
    DecimalInjective(n, m);
  }

  // ---------------------------------------------------------------- the machine

  datatype Stage = Outside | Inside(next: nat)

  /** The round a rank is in or about to enter, and the rounds it came back from without an error. */
  datatype Rank = Rank(round: nat, stage: Stage, returned: set<nat>)

  datatype State = State(store: set<string>, ranks: seq<Rank>)

  datatype Move = Enter(r: nat) | Wait(r: nat) | Return(r: nat) | TimeOut(r: nat)

  predicate Enabled(s: State, m: Move) {
    m.r < |s.ranks| &&
    var k := s.ranks[m.r];
    match m
    case Enter(r) => k.stage.Outside?
    case Wait(r) => k.stage.Inside? && k.stage.next < |s.ranks|
        && (k.stage.next == r || Key(k.round, k.stage.next) in s.store)
    case Return(r) => k.stage.Inside? && k.stage.next == |s.ranks|
    case TimeOut(r) => k.stage.Inside? && k.stage.next < |s.ranks| && k.stage.next != r
  }

  function Apply(s: State, m: Move): State
    requires Enabled(s, m)
  {
    var k := s.ranks[m.r];
    match m
    case Enter(r) => State(s.store + {Key(k.round, r)}, s.ranks[r := k.(stage := Inside(0))])
    case Wait(r) => s.(ranks := s.ranks[r := k.(stage := Inside(k.stage.next + 1))])
    case Return(r) => s.(ranks := s.ranks[r := Rank(k.round + 1, Outside, k.returned + {k.round})])
    case TimeOut(r) => s.(ranks := s.ranks[r := k.(round := k.round + 1, stage := Outside)])
  }

  /** A store that has never seen a barrier. */
  ghost predicate Clean(store: set<string>) {
    forall n: nat, r: nat :: Key(n, r) !in store
  }

  function Initial(store: set<string>, world: nat): State {
    State(store, seq(world, _ => Rank(0, Outside, {})))
  }

  predicate Entered(k: Rank, n: nat) {
    k.round > n || (k.round == n && k.stage.Inside?)
  }

  ghost predicate AllEntered(ranks: seq<Rank>, n: nat) {
    forall q :: 0 <= q < |ranks| ==> Entered(ranks[q], n)
  }

  ghost predicate StoreOk(s: State) {
    forall n: nat, r: nat {:trigger Key(n, r)} :: r < |s.ranks| ==> (Key(n, r) in s.store <==> Entered(s.ranks[r], n))
  }

  /** The rank has seen rank q's key for the round it is in. */
  predicate Saw(k: Rank, q: int) {
    k.stage.Inside? && 0 <= q < k.stage.next
  }

  ghost predicate InsideOk(ranks: seq<Rank>) {
    && (forall r :: 0 <= r < |ranks| ==> ranks[r].stage.Inside? ==> ranks[r].stage.next <= |ranks|)
    && (forall r, q :: 0 <= r < |ranks| && 0 <= q < |ranks| && Saw(ranks[r], q) ==> Entered(ranks[q], ranks[r].round))
  }

  ghost predicate ReturnedOk(ranks: seq<Rank>) {
    && (forall r, n: nat :: 0 <= r < |ranks| && n in ranks[r].returned ==> n < ranks[r].round)
    && (forall r, n: nat :: 0 <= r < |ranks| && n in ranks[r].returned ==> AllEntered(ranks, n))
  }

  ghost predicate Inv(s: State) {
    StoreOk(s) && InsideOk(s.ranks) && ReturnedOk(s.ranks)
  }

  lemma InitialInv(store: set<string>, world: nat)
    requires Clean(store)
    ensures Inv(Initial(store, world))
  {
  }

  /** A round once entered stays entered. */
  lemma EnteredStays(s: State, m: Move)
    requires Enabled(s, m)
    ensures forall q, n :: 0 <= q < |s.ranks| && Entered(s.ranks[q], n) ==> Entered(Apply(s, m).ranks[q], n)
  {
  }

  lemma StoreStep(s: State, m: Move)
    requires Enabled(s, m) && StoreOk(s)
    ensures StoreOk(Apply(s, m))
  {
    var t, k := Apply(s, m), s.ranks[m.r];
    forall n: nat, r: nat | r < |t.ranks|
      ensures Key(n, r) in t.store <==> Entered(t.ranks[r], n)
    {
      if m.Enter? && Key(n, r) == Key(k.round, m.r) {
        KeysDiffer(n, r, k.round, m.r);
      }
    }
  }

  lemma InsideStep(s: State, m: Move)
    requires Enabled(s, m) && Inv(s)
    ensures InsideOk(Apply(s, m).ranks)
  {
    EnteredStays(s, m);
    var t := Apply(s, m);
    forall r, q | 0 <= r < |t.ranks| && 0 <= q < |t.ranks| && Saw(t.ranks[r], q)
      ensures Entered(t.ranks[q], t.ranks[r].round)
    {
      assert Saw(s.ranks[r], q) || (r == m.r && m.Wait? && q == s.ranks[r].stage.next);
    }
  }

  lemma AllEnteredStays(s: State, m: Move, n: nat)
    requires Enabled(s, m) && AllEntered(s.ranks, n)
    ensures AllEntered(Apply(s, m).ranks, n)
  {
    EnteredStays(s, m);
  }

  lemma ReturnedStep(s: State, m: Move)
    requires Enabled(s, m) && Inv(s)
    ensures ReturnedOk(Apply(s, m).ranks)
  {
    var t, k := Apply(s, m), s.ranks[m.r];
    if m.Return? {
      assert forall q :: 0 <= q < |s.ranks| ==> Saw(k, q);
      AllEnteredStays(s, m, k.round);
    }
    forall r, n: nat | 0 <= r < |t.ranks| && n in t.ranks[r].returned
      ensures AllEntered(t.ranks, n)
    {
      if n in s.ranks[r].returned {
        AllEnteredStays(s, m, n);
      }
    }
  }

  lemma StepInv(s: State, m: Move)
    requires Enabled(s, m) && Inv(s)
    ensures Inv(Apply(s, m))
  {
    StoreStep(s, m);
    InsideStep(s, m);
    ReturnedStep(s, m);
  }

  predicate Legal(s: State, moves: seq<Move>)
    decreases |moves|
  {
    moves == [] || (Enabled(s, moves[0]) && Legal(Apply(s, moves[0]), moves[1..]))
  }

  function Exec(s: State, moves: seq<Move>): (t: State)
    requires Legal(s, moves)
    ensures |t.ranks| == |s.ranks|
    decreases |moves|
  {
    if moves == [] then s else Exec(Apply(s, moves[0]), moves[1..])
  }

  lemma {:induction false} RunInv(s: State, moves: seq<Move>)
    requires Legal(s, moves) && Inv(s)
    ensures Inv(Exec(s, moves))
    decreases |moves|
  {
    if moves != [] {
      StepInv(s, moves[0]);
      RunInv(Apply(s, moves[0]), moves[1..]);
    }
  }

  /** In every run, with or without time-outs: once a rank has come back from a round without an
      error, every rank has entered that round. */
  lemma NobodyLeavesEarly(store: set<string>, world: nat, moves: seq<Move>, r: nat, n: nat, q: nat)
    requires Clean(store) && Legal(Initial(store, world), moves) && r < world && q < world
    requires n in Exec(Initial(store, world), moves).ranks[r].returned
    ensures Entered(Exec(Initial(store, world), moves).ranks[q], n)
  {
    InitialInv(store, world);
    RunInv(Initial(store, world), moves);
    assert AllEntered(Exec(Initial(store, world), moves).ranks, n);
  }

  // ---------------------------------------------------------------- runs without time-outs

  predicate Patient(moves: seq<Move>) {
    forall i :: 0 <= i < |moves| ==> !moves[i].TimeOut?
  }

  ghost predicate NoneFailed(ranks: seq<Rank>) {
    forall r, n: nat :: 0 <= r < |ranks| && n < ranks[r].round ==> n in ranks[r].returned
  }

  lemma {:induction false} PatientRun(s: State, moves: seq<Move>)
    requires Legal(s, moves) && Patient(moves) && NoneFailed(s.ranks)
    ensures NoneFailed(Exec(s, moves).ranks)
    decreases |moves|
  {
    if moves != [] {
      assert !moves[0].TimeOut? && Patient(moves[1..]);
      PatientRun(Apply(s, moves[0]), moves[1..]);
    }
  }

  /** Without time-outs, no rank is ever more than one round ahead of another. */
  lemma PatientStayTogether(store: set<string>, world: nat, moves: seq<Move>, r: nat, q: nat)
    requires Clean(store) && Legal(Initial(store, world), moves) && Patient(moves) && r < world && q < world
    ensures var ranks := Exec(Initial(store, world), moves).ranks;
            ranks[r].round <= ranks[q].round + 1
  {
    PatientRun(Initial(store, world), moves);
    AtMostOneApart(store, world, moves, r, q);
  }

  // ---------------------------------------------------------------- how far apart ranks can be

  /** What a rank can tell from its own state: it is in one of the first two rounds, or its last barrier
      came back without an error, or it has seen `q`'s key for the round it is in. */
  predicate Sure(k: Rank, q: nat) {
    k.round <= 1 || k.round - 1 in k.returned || Saw(k, q)
  }

  lemma AtMostOneApart(store: set<string>, world: nat, moves: seq<Move>, r: nat, q: nat)
    requires Clean(store) && Legal(Initial(store, world), moves) && r < world && q < world
    requires Sure(Exec(Initial(store, world), moves).ranks[r], q)
    ensures var ranks := Exec(Initial(store, world), moves).ranks;
            ranks[r].round <= ranks[q].round + 1
  {
    var s := Exec(Initial(store, world), moves);
    InitialInv(store, world);
    RunInv(Initial(store, world), moves);
    var k := s.ranks[r];
    if k.round >= 1 && k.round - 1 in k.returned {
      NobodyLeavesEarly(store, world, moves, r, k.round - 1, q);
    }
  }

  lemma {:induction false} ExecConcat(s: State, a: seq<Move>, b: seq<Move>)
    requires Legal(s, a) && Legal(Exec(s, a), b)
    ensures Legal(s, a + b) && Exec(s, a + b) == Exec(Exec(s, a), b)
    decreases |a|
  {
    if a == [] {
      assert a + b == b;
    } else {
      ExecConcat(Apply(s, a[0]), a[1..], b);
      assert (a + b)[1..] == a[1..] + b;
    }
  }

  lemma OneMove(s: State, m: Move)
    requires Enabled(s, m)
    ensures Legal(s, [m]) && Exec(s, [m]) == Apply(s, m)
  {
    assert [m][1..] == [];
  }

  /** A run that only moves rank `r`, and leaves it as `k`. */
  predicate Brings(s: State, moves: seq<Move>, r: nat, k: Rank)
    requires r < |s.ranks|
  {
    Legal(s, moves) && Exec(s, moves).ranks == s.ranks[r := k]
  }

  /** One barrier, given up as soon as there is somebody else to wait for. */
  lemma GiveUp(s: State, r: nat) returns (moves: seq<Move>)
    requires r < |s.ranks| && |s.ranks| >= 2 && s.ranks[r].stage.Outside?
    ensures Brings(s, moves, r, s.ranks[r].(round := s.ranks[r].round + 1))
  {
    var s1 := Apply(s, Enter(r));
    OneMove(s, Enter(r));
    if r == 0 {
      var s2 := Apply(s1, Wait(r));
      OneMove(s1, Wait(r));
      OneMove(s2, TimeOut(r));
      ExecConcat(s1, [Wait(r)], [TimeOut(r)]);
      ExecConcat(s, [Enter(r)], [Wait(r)] + [TimeOut(r)]);
      moves := [Enter(r)] + ([Wait(r)] + [TimeOut(r)]);
    } else {
      OneMove(s1, TimeOut(r));
      ExecConcat(s, [Enter(r)], [TimeOut(r)]);
      moves := [Enter(r)] + [TimeOut(r)];
    }
  }

  lemma {:induction false} GiveUpTimes(s: State, r: nat, times: nat) returns (moves: seq<Move>)
    requires r < |s.ranks| && |s.ranks| >= 2 && s.ranks[r].stage.Outside?
    ensures Brings(s, moves, r, s.ranks[r].(round := s.ranks[r].round + times))
    decreases times
  {
    if times == 0 {
      moves := [];
    } else {
      var first := GiveUp(s, r);
      var rest := GiveUpTimes(Exec(s, first), r, times - 1);
      ExecConcat(s, first, rest);
      moves := first + rest;
    }
  }

  /** Waiting on from rank `k.stage.next` to rank `n`: those in between have entered. */
  lemma {:induction false} WaitOn(s: State, r: nat, n: nat) returns (moves: seq<Move>)
    requires Inv(s) && r < |s.ranks| && s.ranks[r].stage.Inside? && s.ranks[r].stage.next <= n <= |s.ranks|
    requires forall q :: s.ranks[r].stage.next <= q < n && q != r ==> Entered(s.ranks[q], s.ranks[r].round)
    ensures Brings(s, moves, r, s.ranks[r].(stage := Inside(n)))
    decreases n - s.ranks[r].stage.next
  {
    var k := s.ranks[r];
    if k.stage.next == n {
      moves := [];
    } else {
      assert k.stage.next == r || Key(k.round, k.stage.next) in s.store;
      StepInv(s, Wait(r));
      OneMove(s, Wait(r));
      var rest := WaitOn(Apply(s, Wait(r)), r, n);
      ExecConcat(s, [Wait(r)], rest);
      moves := [Wait(r)] + rest;
    }
  }

  lemma EnterAndWait(s: State, r: nat, n: nat) returns (moves: seq<Move>)
    requires Inv(s) && r < |s.ranks| && s.ranks[r].stage.Outside? && n <= |s.ranks|
    requires forall q :: 0 <= q < n && q != r ==> Entered(s.ranks[q], s.ranks[r].round)
    ensures Brings(s, moves, r, s.ranks[r].(stage := Inside(n)))
  {
    StepInv(s, Enter(r));
    OneMove(s, Enter(r));
    var rest := WaitOn(Apply(s, Enter(r)), r, n);
    ExecConcat(s, [Enter(r)], rest);
    moves := [Enter(r)] + rest;
  }

  /** One barrier that comes back. */
  lemma GoThrough(s: State, r: nat) returns (moves: seq<Move>)
    requires Inv(s) && r < |s.ranks| && s.ranks[r].stage.Outside?
    requires forall q :: 0 <= q < |s.ranks| && q != r ==> Entered(s.ranks[q], s.ranks[r].round)
    ensures Brings(s, moves, r, Rank(s.ranks[r].round + 1, Outside, s.ranks[r].returned + {s.ranks[r].round}))
  {
    var first := EnterAndWait(s, r, |s.ranks|);
    OneMove(Exec(s, first), Return(r));
    ExecConcat(s, first, [Return(r)]);
    moves := first + [Return(r)];
  }

  function Below(rounds: set<nat>, n: nat): set<nat> {
    set m | m in rounds && m < n
  }

  /** One round on its own, which comes back if it is in `returned`. */
  lemma ReplayOne(s: State, r: nat, returned: set<nat>) returns (moves: seq<Move>)
    requires Inv(s) && r < |s.ranks| && |s.ranks| >= 2 && s.ranks[r].stage.Outside?
    requires s.ranks[r].returned == Below(returned, s.ranks[r].round)
    requires s.ranks[r].round in returned ==>
               forall q :: 0 <= q < |s.ranks| && q != r ==> Entered(s.ranks[q], s.ranks[r].round)
    ensures Brings(s, moves, r, Rank(s.ranks[r].round + 1, Outside, Below(returned, s.ranks[r].round + 1)))
  {
    var n := s.ranks[r].round;
    if n in returned {
      moves := GoThrough(s, r);
      assert Below(returned, n + 1) == Below(returned, n) + {n};
    } else {
      moves := GiveUp(s, r);
      assert Below(returned, n + 1) == Below(returned, n);
    }
  }

  /** Rank `r` on its own: from the start of round `n` to the start of `round`, back from exactly the
      rounds in `returned`. */
  lemma {:induction false} Replay(s: State, r: nat, round: nat, returned: set<nat>) returns (moves: seq<Move>)
    requires Inv(s) && r < |s.ranks| && |s.ranks| >= 2 && s.ranks[r].stage.Outside? && s.ranks[r].round <= round
    requires s.ranks[r].returned == Below(returned, s.ranks[r].round)
    requires forall q, n :: 0 <= q < |s.ranks| && q != r && n in returned && n < round ==> Entered(s.ranks[q], n)
    ensures Brings(s, moves, r, Rank(round, Outside, Below(returned, round)))
    decreases round - s.ranks[r].round
  {
    var n := s.ranks[r].round;
    if n == round {
      moves := [];
    } else {
      var first := ReplayOne(s, r, returned);
      RunInv(s, first);
      var rest := Replay(Exec(s, first), r, round, returned);
      ExecConcat(s, first, rest);
      moves := first + rest;
    }
  }

  /** The others: `q` stops inside round `round - 2`, everybody else inside `round`. */
  function Ahead(j: nat, q: nat, round: nat): Rank
    requires round >= 2
  {
    Rank(if j == q then round - 2 else round, Inside(0), {})
  }

  lemma {:induction false} PlaceOthers(s: State, r: nat, q: nat, round: nat, n: nat) returns (moves: seq<Move>)
    requires r < |s.ranks| && |s.ranks| >= 2 && round >= 2 && n <= |s.ranks|
    requires forall j :: 0 <= j < |s.ranks| ==> s.ranks[j] == Rank(0, Outside, {})
    ensures Legal(s, moves)
    ensures var t := Exec(s, moves);
            forall j: nat :: j < |s.ranks| ==>
              t.ranks[j] == if j < n && j != r then Ahead(j, q, round) else Rank(0, Outside, {})
    decreases n
  {
    if n == 0 {
      moves := [];
    } else {
      moves := PlaceOthers(s, r, q, round, n - 1);
      if n - 1 != r {
        var t := Exec(s, moves);
        var up := GiveUpTimes(t, n - 1, Ahead(n - 1, q, round).round);
        OneMove(Exec(t, up), Enter(n - 1));
        ExecConcat(t, up, [Enter(n - 1)]);
        ExecConcat(s, moves, up + [Enter(n - 1)]);
        moves := moves + (up + [Enter(n - 1)]);
      }
    }
  }

  /** The states a rank can be in at all. */
  predicate Possible(k: Rank, world: nat) {
    (forall n :: n in k.returned ==> n < k.round) && (k.stage.Inside? ==> k.stage.next <= world)
  }

  /** Everybody but `r` is in place. */
  ghost predicate Placed(t: State, world: nat, r: nat, q: nat, k: Rank, mine: Rank) {
    && |t.ranks| == world && r < world && q != r && k.round >= 2
    && Inv(t) && t.ranks[r] == mine
    && forall j: nat :: j < world && j != r ==> t.ranks[j] == Ahead(j, q, k.round)
  }

  lemma OthersPlaced(store: set<string>, world: nat, r: nat, q: nat, k: Rank) returns (moves: seq<Move>)
    requires Clean(store) && r < world && q < world && q != r && k.round >= 2
    ensures Legal(Initial(store, world), moves)
    ensures Placed(Exec(Initial(store, world), moves), world, r, q, k, Rank(0, Outside, {}))
  {
    moves := PlaceOthers(Initial(store, world), r, q, k.round, world);
    InitialInv(store, world);
    RunInv(Initial(store, world), moves);
  }

  lemma ReplayPlaced(t: State, world: nat, r: nat, q: nat, k: Rank) returns (moves: seq<Move>)
    requires Placed(t, world, r, q, k, Rank(0, Outside, {})) && world >= 2
    requires Possible(k, world) && k.round - 1 !in k.returned
    ensures Legal(t, moves) && Placed(Exec(t, moves), world, r, q, k, Rank(k.round, Outside, k.returned))
  {
    assert Below(k.returned, 0) == {} && Below(k.returned, k.round) == k.returned;
    moves := Replay(t, r, k.round, k.returned);
    RunInv(t, moves);
  }

  lemma OutsideTwoAhead(store: set<string>, world: nat, r: nat, q: nat, k: Rank) returns (moves: seq<Move>)
    requires Clean(store) && r < world && q < world && q != r && Possible(k, world)
    requires k.round >= 2 && k.round - 1 !in k.returned
    ensures Legal(Initial(store, world), moves)
    ensures Placed(Exec(Initial(store, world), moves), world, r, q, k, Rank(k.round, Outside, k.returned))
  {
    var s := Initial(store, world);
    var others := OthersPlaced(store, world, r, q, k);
    var mine := ReplayPlaced(Exec(s, others), world, r, q, k);
    ExecConcat(s, others, mine);
    moves := others + mine;
  }

  /** A rank that is not sure: some run puts it in that very state with `q` two rounds behind. */
  lemma TwoBehind(store: set<string>, world: nat, r: nat, q: nat, k: Rank) returns (moves: seq<Move>)
    requires Clean(store) && r < world && q < world && q != r && Possible(k, world) && !Sure(k, q)
    ensures Legal(Initial(store, world), moves)
    ensures var ranks := Exec(Initial(store, world), moves).ranks;
            ranks[r] == k && ranks[q].round + 2 == k.round
  {
    moves := OutsideTwoAhead(store, world, r, q, k);
    if k.stage.Inside? {
      var s := Initial(store, world);
      var last := EnterAndWait(Exec(s, moves), r, k.stage.next);
      ExecConcat(s, moves, last);
      moves := moves + last;
    }
  }

  /** Time-outs alone let a rank run any number of rounds ahead of all the others. */
  lemma TimeOutsRunAhead(store: set<string>, world: nat, r: nat, rounds: nat) returns (moves: seq<Move>)
    requires r < world && world >= 2
    ensures Legal(Initial(store, world), moves)
    ensures var ranks := Exec(Initial(store, world), moves).ranks;
            ranks[r].round == rounds && forall q :: 0 <= q < world && q != r ==> ranks[q].round == 0
  {
    moves := GiveUpTimes(Initial(store, world), r, rounds);
  }

  /** The exact condition: in every run that leaves rank `r` in state `k`, `r` is at most one round ahead
      of `q`, if and only if `r` is sure of it. */
  lemma OneApartIff(store: set<string>, world: nat, r: nat, q: nat, k: Rank)
    requires Clean(store) && r < world && q < world && q != r && Possible(k, world)
    ensures (forall moves :: Legal(Initial(store, world), moves) && Exec(Initial(store, world), moves).ranks[r] == k ==>
               k.round <= Exec(Initial(store, world), moves).ranks[q].round + 1)
       <==> Sure(k, q)
  {
    if Sure(k, q) {
      forall moves | Legal(Initial(store, world), moves) && Exec(Initial(store, world), moves).ranks[r] == k
        ensures k.round <= Exec(Initial(store, world), moves).ranks[q].round + 1
      {
        AtMostOneApart(store, world, moves, r, q);
      }
    } else {
      var moves := TwoBehind(store, world, r, q, k);
    }
  }

  // ---------------------------------------------------------------- progress

  lemma {:induction false} Slowest(ranks: seq<Rank>, n: nat) returns (r: nat)
    requires 0 < n <= |ranks|
    ensures r < n && forall q :: 0 <= q < n ==> ranks[r].round <= ranks[q].round
  {
    if n == 1 {
      r := 0;
    } else {
      r := Slowest(ranks, n - 1);
      if ranks[n - 1].round < ranks[r].round {
        r := n - 1;
      }
    }
  }

  /** While some rank has a barrier left to run, a rank that has one left can move without a time-out. */
  lemma NeverStuck(s: State, goal: nat) returns (m: Move)
    requires Inv(s) && exists r :: 0 <= r < |s.ranks| && s.ranks[r].round < goal
    ensures Enabled(s, m) && !m.TimeOut? && s.ranks[m.r].round < goal
  {
    var r := Slowest(s.ranks, |s.ranks|);
    var k := s.ranks[r];
    if k.stage.Outside? {
      m := Enter(r);
    } else if k.stage.next >= |s.ranks| {
      m := Return(r);
    } else {
      var q := k.stage.next;
      if q == r || Entered(s.ranks[q], k.round) {
        m := Wait(r);
      } else {
        m := Enter(q);
      }
    }
  }
}
