/** Choosing an algorithm, and what a caller of allreduce can rely on whatever was chosen. */
module Allreduce {
  import opened Common
  import opened Network
  import opened Chunks
  import opened Folds
  import opened Sequence
  import Ring
  import Tree
  import Butterfly

  datatype Algorithm = UseRing | UseTree | UseButterfly

  /** `MCCL_ALLREDUCE_ALGO` and `MCCL_TREE_BELOW` as a rank reads them. */
  datatype Env = Env(algo: Option<string>, treeBelow: Option<nat>)

  function Select(env: Env, bytes: nat, numel: nat, world: nat): (a: Algorithm)
    ensures a != UseTree ==> numel >= world
  {
    var name := if env.algo.Some? then env.algo.value else "auto";
    var limit := if env.treeBelow.Some? then env.treeBelow.value else 256 * 1024;
    var chosen := if name == "auto" then (if bytes <= limit then "tree" else "ring") else name;
    if chosen == "ring" then (if numel < world then UseTree else UseRing)
    else if chosen == "butterfly" then (if world < 2 || numel < world then UseTree else UseButterfly)
    else UseTree
  }

  /** When each algorithm is chosen.  `auto`, or nothing set, means ring above the limit, which is 256 KiB
      unless set; ring and butterfly need an element for every rank; anything else is tree. */
  lemma SelectIff(env: Env, bytes: nat, numel: nat, world: nat)
    requires world > 1
    ensures var auto := env.algo == None || env.algo == Some("auto");
            var large := match env.treeBelow case None => bytes > 262144 case Some(limit) => bytes > limit;
            && (Select(env, bytes, numel, world) == UseRing <==>
                  numel >= world && (env.algo == Some("ring") || (auto && large)))
            && (Select(env, bytes, numel, world) == UseButterfly <==> numel >= world && env.algo == Some("butterfly"))
            && (Select(env, bytes, numel, world) == UseTree <==>
                  numel < world || (auto && !large)
                  || (!auto && env.algo != Some("ring") && env.algo != Some("butterfly")))
  {
  }

  function ProtocolOf<T>(a: Algorithm, J: Setup<T>): Protocol<T>
    requires J.world > 1
  {
    match a
    case UseRing => Ring.Allreduce(J)
    case UseTree => Tree.Allreduce(J)
    case UseButterfly => Butterfly.Allreduce(J)
  }

  /** Elements of scratch the caller allocates for each algorithm, from the tensor's own count. */
  function Scratch(a: Algorithm, count: nat, world: nat): int
    requires world > 1
  {
    match a
    case UseRing => (count + world - 1) / world
    case UseTree => count
    case UseButterfly => (world - 1) * ((count + world - 1) / world)
  }

  /** The element count that reaches the algorithms: the tensor's, cut to 32 bits. */
  function Cut(count: nat): nat {
    count % U32
  }

  /** A rank's memory is the tensor and the scratch its caller allocates, and the protocol runs on it: the
      n-th receive on each link matches the n-th send, and concurrent threads never share an element that
      one of them writes. */
  lemma Runs<T(!new)>(a: Algorithm, J: Setup<T>)
    requires J.world > 1
    ensures WellFormed(ProtocolOf(a, J))
    ensures ProtocolOf(a, J).size == J.Count() + Scratch(a, J.Count(), J.world)
    ensures ProtocolOf(a, J).n == J.world && !ProtocolOf(a, J).sendFirst
  {
    PerIsCeiling(J.Count(), J.world);
    TimesIsProduct(J.world - 1, Per(J.Count(), J.world));
    match a
    case UseRing => Ring.WellFormedRing(J);
    case UseTree => Tree.WellFormedTree(J);
    case UseButterfly => Butterfly.WellFormedButterfly(J);
  }

  /** Two buffers, and no transfer crosses from one into the other: every send reads the counted part of
      the tensor, and every receive fills either that or scratch as its caller allocated it, however many
      elements the count leaves out. */
  lemma Safe<T(!new)>(a: Algorithm, J: Setup<T>, r: nat, k: nat, p: nat)
    requires J.world > 1 && r < J.world && p < J.world
    ensures Scratch(a, J.Count(), J.world) >= 0
    ensures InTensor(J, ProtocolOf(a, J).send(r, k, p))
    ensures InTensor(J, ProtocolOf(a, J).recv(r, k, p))
         || InScratch(J, Scratch(a, J.Count(), J.world), ProtocolOf(a, J).recv(r, k, p))
  {
    PerIsCeiling(J.Count(), J.world);
    TimesIsProduct(J.world - 1, Per(J.Count(), J.world));
    match a
    case UseRing => Ring.InBounds(J, r, k, p);
    case UseTree => Tree.InBounds(J, r, k, p);
    case UseButterfly => Butterfly.InBounds(J, r, k, p);
  }

  /** The expression each algorithm evaluates at element `e`, the same on every rank. */
  function ValueOf<T>(a: Algorithm, J: Setup<T>, xs: Memories<T>, e: nat): T
    requires J.world > 1 && e < J.numel && |xs| == J.world && forall r :: 0 <= r < J.world ==> J.numel <= |xs[r]|
  {
    match a
    case UseRing => Ring.Value(J, xs, e)
    case UseTree => Tree.Value(J, xs, e)
    case UseButterfly => Butterfly.Value(J, xs, e)
  }

  lemma TraceResult<T(!new)>(a: Algorithm, J: Setup<T>, h: History<T>, r: nat, e: nat)
    requires J.world > 1 && r < J.world && e < J.numel && Trace(ProtocolOf(a, J), h)
    ensures h.mems[ProtocolOf(a, J).rounds][r][e] == ValueOf(a, J, h.mems[0], e)
  {
    match a
    case UseRing => Ring.Result(J, h, r, e);
    case UseTree => Tree.Result(J, h, r, e);
    case UseButterfly => Butterfly.Result(J, h, r, e);
  }

  lemma LockstepResult<T(!new)>(a: Algorithm, J: Setup<T>, init: Memories<T>, r: nat, e: nat)
    requires J.world > 1 && r < J.world && e < J.numel && WellFormed(ProtocolOf(a, J)) && Shaped(ProtocolOf(a, J), init)
    ensures J.numel <= ProtocolOf(a, J).size
    ensures Lockstep(ProtocolOf(a, J), init, ProtocolOf(a, J).rounds)[r][e] == ValueOf(a, J, init, e)
  {
    var h := LockstepTrace(ProtocolOf(a, J), init);
    TraceResult(a, J, h, r, e);
  }

  /** Round by round, no receive, reduction or scaling reaches an element past the count. */
  lemma {:induction false} RestKept<T(!new)>(a: Algorithm, J: Setup<T>, h: History<T>, k: nat, r: nat, e: nat)
    requires J.world > 1 && r < J.world && J.numel <= e < J.Count()
    requires k <= ProtocolOf(a, J).rounds && Trace(ProtocolOf(a, J), h)
    ensures J.Count() <= ProtocolOf(a, J).size && h.mems[k][r][e] == h.mems[0][r][e]
    decreases k
  {
    Runs(a, J);
    if k > 0 {
      RestKept(a, J, h, k - 1, r, e);
      match a
      case UseRing => Ring.LeavesRest(J, h, k - 1, r, e);
      case UseTree => Tree.LeavesRest(J, h, k - 1, r, e);
      case UseButterfly => Butterfly.LeavesRest(J, h, k - 1, r, e);
    }
  }

  /** For any op at all, even one that is neither associative nor commutative: every run that
      cannot go on has finished, with the same element on every rank. */
  lemma RunsAgree<T(!new)>(a: Algorithm, J: Setup<T>, cap: nat, init: Memories<T>, moves: seq<Move>, r: nat, e: nat)
    requires J.world > 1 && cap >= 1 && r < J.world && e < J.numel
    requires WellFormed(ProtocolOf(a, J)) && Shaped(ProtocolOf(a, J), init)
    requires Maximal(ProtocolOf(a, J), cap, init, moves)
    ensures J.numel <= ProtocolOf(a, J).size
    ensures Finished(ProtocolOf(a, J), Outcome(ProtocolOf(a, J), cap, init, moves))
    ensures Outcome(ProtocolOf(a, J), cap, init, moves).ranks[r].mem[e] == ValueOf(a, J, init, e)
  {
    EveryRunIsLockstep(ProtocolOf(a, J), cap, init, moves);
    LockstepResult(a, J, init, r, e);
  }

  /** With an associative and commutative op the three expressions are one: the rank-order fold. */
  lemma OneValue<T(!new)>(a: Algorithm, J: Setup<T>, xs: Memories<T>, e: nat)
    requires J.world > 1 && e < J.numel && |xs| == J.world && forall r :: 0 <= r < J.world ==> J.numel <= |xs[r]|
    requires Associative(J.f) && Commutative(J.f)
    ensures ValueOf(a, J, xs, e) == J.g(All(J.f, Column(xs, e)))
  {
    match a
    case UseRing => RingIsAll(J.f, Column(xs, e), Home(J.numel, J.world, e));
    case UseTree => TreeIsAll(J.f, Column(xs, e));
    case UseButterfly => ButterflyIsAll(J.f, Column(xs, e), Home(J.numel, J.world, e));
  }

  // ---------------------------------------------------------------- the call

  /** One call: `counts[i]` elements in tensor `i`, and what was selected for it. */
  datatype Call<!T> = Call(world: nat, f: (T, T) -> T, g: T -> T, counts: seq<nat>, chosen: seq<Algorithm>)

  /** Every rank's environment selects the same for each tensor. */
  predicate Chosen<T>(C: Call<T>, envs: seq<Env>, elemSize: nat) {
    && |C.chosen| == |C.counts| && |envs| == C.world > 1
    && forall r, i :: 0 <= r < C.world && 0 <= i < |C.counts| ==>
         Select(envs[r], C.counts[i] * elemSize, C.counts[i], C.world) == C.chosen[i]
  }

  function Args<T>(C: Call<T>, i: nat): Setup<T>
    requires i < |C.counts|
  {
    Setup(Cut(C.counts[i]), C.counts[i] - Cut(C.counts[i]), C.world, C.f, C.g)
  }

  /** Ring and butterfly insist on an element for every rank. */
  predicate Accepted<T>(C: Call<T>)
    requires |C.chosen| == |C.counts|
  {
    forall i :: 0 <= i < |C.counts| ==> C.chosen[i] == UseTree || Cut(C.counts[i]) >= C.world
  }

  function Protocols<T>(C: Call<T>): (ps: seq<Protocol<T>>)
    requires C.world > 1 && |C.chosen| == |C.counts|
    ensures |ps| == |C.counts| && forall i :: 0 <= i < |ps| ==> ps[i] == ProtocolOf(C.chosen[i], Args(C, i))
  {
    seq(|C.counts|, i requires 0 <= i < |C.counts| => ProtocolOf(C.chosen[i], Args(C, i)))
  }

  lemma CallReady<T(!new)>(C: Call<T>)
    requires C.world > 1 && |C.chosen| == |C.counts|
    ensures Ready(Protocols(C), C.world)
  {
    var ps := Protocols(C);
    forall i | 0 <= i < |ps| ensures WellFormed(ps[i]) && ps[i].n == C.world && !ps[i].sendFirst {
      Runs(C.chosen[i], Args(C, i));
    }
  }

  /** One run of a call.  `tensors[i][r]` is tensor `i` of rank `r`; `inits[i][r]` is the memory the
      algorithm works on: the whole tensor, then scratch, whatever that holds. */
  datatype Run<T> = Run(tensors: seq<Memories<T>>, inits: seq<Memories<T>>, moves: seq<Move>)

  /** The memory of a tensor of `count` elements on every rank. */
  predicate Loaded<T(==)>(tensors: Memories<T>, init: Memories<T>, world: nat, count: nat) {
    && |tensors| == |init| == world
    && forall q :: 0 <= q < world ==> |tensors[q]| == count <= |init[q]| && init[q][..count] == tensors[q]
  }

  ghost predicate Starts<T(!new)>(C: Call<T>, u: Run<T>) {
    && C.world > 1 && |C.chosen| == |C.counts| == |u.tensors| && AllShaped(Protocols(C), u.inits)
    && forall i :: 0 <= i < |C.counts| ==> Loaded(u.tensors[i], u.inits[i], C.world, C.counts[i])
  }

  /** The call as one protocol, and the memories it starts from. */
  function Whole<T>(C: Call<T>): Protocol<T>
    requires C.world > 1 && |C.chosen| == |C.counts|
  {
    InTurn(Protocols(C), C.world)
  }

  ghost function Start<T(!new)>(C: Call<T>, u: Run<T>): Memories<T>
    requires Starts(C, u)
  {
    CallReady(C);
    Stack(u.inits, C.world)
  }

  lemma CallSafe<T(!new)>(C: Call<T>)
    requires C.world > 1 && |C.chosen| == |C.counts|
    ensures WellFormed(Whole(C)) && Whole(C).n == C.world
  {
    CallReady(C);
    WellFormedInTurn(Protocols(C), C.world);
  }

  lemma StartShaped<T(!new)>(C: Call<T>, u: Run<T>)
    requires Starts(C, u)
    ensures Shaped(Whole(C), Start(C, u))
  {
    CallReady(C);
    StackShaped(Protocols(C), C.world, u.inits);
  }

  /** A run of the whole call, all tensors back to back, that cannot go on. */
  ghost predicate InCall<T(!new)>(C: Call<T>, cap: nat, u: Run<T>) {
    && Starts(C, u) && WellFormed(Whole(C)) && Whole(C).n == C.world && Shaped(Whole(C), Start(C, u))
    && Maximal(Whole(C), cap, Start(C, u), u.moves)
  }

  /** The memory of tensor `i` on rank `r` at the end of the run. */
  ghost function Memory<T(!new)>(C: Call<T>, cap: nat, u: Run<T>, i: nat, r: nat): (m: seq<T>)
    requires InCall(C, cap, u) && i < |C.counts| && r < C.world
    ensures |m| >= C.counts[i]
  {
    var all := Outcome(Whole(C), cap, Start(C, u), u.moves).ranks[r].mem;
    PartSize(Protocols(C), C.world, all, i);
    Runs(C.chosen[i], Args(C, i));
    Part(Protocols(C), all, i)
  }

  /** Element `e` of tensor `i` on rank `r` at the end of the run. */
  ghost function Ends<T(!new)>(C: Call<T>, cap: nat, u: Run<T>, i: nat, r: nat, e: nat): T
    requires InCall(C, cap, u) && i < |C.counts| && r < C.world && e < C.counts[i]
  {
    Memory(C, cap, u, i, r)[e]
  }

  lemma CallMemory<T(!new)>(C: Call<T>, cap: nat, u: Run<T>, i: nat, r: nat, P: Protocol<T>, init: Memories<T>)
    requires InCall(C, cap, u) && cap >= 1 && i < |C.counts| && r < C.world
    requires P == ProtocolOf(C.chosen[i], Args(C, i)) && init == u.inits[i]
    ensures WellFormed(P) && Shaped(P, init) && P.n == C.world
    ensures Finished(Whole(C), Outcome(Whole(C), cap, Start(C, u), u.moves))
    ensures Memory(C, cap, u, i, r) == Lockstep(P, init, P.rounds)[r]
  {
    CallReady(C);
    RunsInTurn(Protocols(C), C.world, cap, u.inits, u.moves, r, i);
    Runs(C.chosen[i], Args(C, i));
  }

  /** The value is that of the tensors, whatever the scratch held. */
  lemma LoadedResult<T(!new)>(a: Algorithm, J: Setup<T>, init: Memories<T>, tensors: Memories<T>, r: nat, e: nat)
    requires J.world > 1 && r < J.world && e < J.numel && Loaded(tensors, init, J.world, J.Count())
    requires WellFormed(ProtocolOf(a, J)) && Shaped(ProtocolOf(a, J), init)
    ensures J.numel <= ProtocolOf(a, J).size
    ensures Lockstep(ProtocolOf(a, J), init, ProtocolOf(a, J).rounds)[r][e] == ValueOf(a, J, tensors, e)
  {
    LockstepResult(a, J, init, r, e);
    forall q | 0 <= q < J.world ensures init[q][e] == tensors[q][e] {
      assert init[q][..J.Count()][e] == tensors[q][e];
    }
    assert Column(init, e) == Column(tensors, e);
  }

  lemma LoadedRest<T(!new)>(a: Algorithm, J: Setup<T>, init: Memories<T>, tensors: Memories<T>, r: nat, e: nat)
    requires J.world > 1 && r < J.world && J.numel <= e < J.Count() && Loaded(tensors, init, J.world, J.Count())
    requires WellFormed(ProtocolOf(a, J)) && Shaped(ProtocolOf(a, J), init)
    ensures J.Count() <= ProtocolOf(a, J).size
    ensures Lockstep(ProtocolOf(a, J), init, ProtocolOf(a, J).rounds)[r][e] == tensors[r][e]
  {
    var h := LockstepTrace(ProtocolOf(a, J), init);
    RestKept(a, J, h, ProtocolOf(a, J).rounds, r, e);
    assert init[r][..J.Count()][e] == tensors[r][e];
  }

  lemma CallStarts<T(!new)>(C: Call<T>, cap: nat, u: Run<T>, i: nat)
    requires InCall(C, cap, u) && i < |C.counts|
    ensures C.world > 1 && Loaded(u.tensors[i], u.inits[i], C.world, C.counts[i])
    ensures Cut(C.counts[i]) <= C.counts[i]
  {
  }

  /** Below the cut a call computes the algorithm's expression, the same on every rank. */
  lemma CallResult<T(!new)>(C: Call<T>, cap: nat, u: Run<T>, i: nat, r: nat, e: nat)
    requires InCall(C, cap, u) && cap >= 1 && i < |C.counts| && r < C.world && e < Cut(C.counts[i])
    ensures Loaded(u.tensors[i], u.inits[i], C.world, C.counts[i]) && e < C.counts[i]
    ensures Ends(C, cap, u, i, r, e) == ValueOf(C.chosen[i], Args(C, i), u.tensors[i], e)
  {
    var J, init := Args(C, i), u.inits[i];
    CallStarts(C, cap, u, i);
    CallMemory(C, cap, u, i, r, ProtocolOf(C.chosen[i], J), init);
    LoadedResult(C.chosen[i], J, init, u.tensors[i], r, e);
  }

  ghost predicate IsReduced<T(!new)>(C: Call<T>, cap: nat, u: Run<T>, i: nat, r: nat, e: nat)
    requires InCall(C, cap, u) && i < |C.counts| && r < C.world && e < C.counts[i]
  {
    assert Loaded(u.tensors[i], u.inits[i], C.world, C.counts[i]);
    Ends(C, cap, u, i, r, e) == C.g(All(C.f, Column(u.tensors[i], e)))
  }

  ghost predicate IsShared<T(!new)>(C: Call<T>, cap: nat, u: Run<T>, i: nat, r: nat, e: nat)
    requires InCall(C, cap, u) && i < |C.counts| && r < C.world && e < C.counts[i]
  {
    Ends(C, cap, u, i, r, e) == Ends(C, cap, u, i, 0, e)
  }

  /** The call does not throw, and every run leaves the reduction in every element of every rank. */
  ghost predicate AlwaysReduces<T(!new)>(C: Call<T>, cap: nat)
    requires |C.chosen| == |C.counts|
  {
    && Accepted(C)
    && forall u: Run<T>, i: nat, r: nat, e: nat ::
         InCall(C, cap, u) && i < |C.counts| && r < C.world && e < C.counts[i] ==> IsReduced(C, cap, u, i, r, e)
  }

  /** The call does not throw, and every run leaves the same tensors on every rank. */
  ghost predicate AlwaysAgrees<T(!new)>(C: Call<T>, cap: nat)
    requires |C.chosen| == |C.counts|
  {
    && Accepted(C)
    && forall u: Run<T>, i: nat, r: nat, e: nat ::
         InCall(C, cap, u) && i < |C.counts| && r < C.world && e < C.counts[i] ==> IsShared(C, cap, u, i, r, e)
  }

  lemma ElementShared<T(!new)>(C: Call<T>, cap: nat, u: Run<T>, i: nat, r: nat, e: nat)
    requires InCall(C, cap, u) && cap >= 1 && i < |C.counts| && r < C.world && e < Cut(C.counts[i])
    ensures e < C.counts[i] && IsShared(C, cap, u, i, r, e)
  {
    CallResult(C, cap, u, i, r, e);
    CallResult(C, cap, u, i, 0, e);
  }

  lemma ElementReduced<T(!new)>(C: Call<T>, cap: nat, u: Run<T>, i: nat, r: nat, e: nat)
    requires InCall(C, cap, u) && cap >= 1 && i < |C.counts| && r < C.world && e < Cut(C.counts[i])
    requires Associative(C.f) && Commutative(C.f)
    ensures e < C.counts[i] && IsReduced(C, cap, u, i, r, e)
  {
    CallResult(C, cap, u, i, r, e);
    OneValue(C.chosen[i], Args(C, i), u.tensors[i], e);
  }

  /** Every run of a call that cannot go on has finished, with nothing left on any link, though ranks
      start on the next tensor without waiting for each other. */
  lemma CallFinishes<T(!new)>(C: Call<T>, cap: nat, u: Run<T>)
    requires InCall(C, cap, u) && cap >= 1
    ensures Finished(Whole(C), Outcome(Whole(C), cap, Start(C, u), u.moves))
    ensures forall r: nat, p: nat :: r < C.world && p < C.world ==>
              (r, p) in Outcome(Whole(C), cap, Start(C, u), u.moves).chan
              && Outcome(Whole(C), cap, Start(C, u), u.moves).chan[(r, p)] == []
  {
    CallReady(C);
    WellFormedInTurn(Protocols(C), C.world);
    EveryRunIsLockstep(Whole(C), cap, Start(C, u), u.moves);
  }

  predicate AllFit(counts: seq<nat>) {
    forall i :: 0 <= i < |counts| ==> counts[i] < U32
  }

  function Filled<T>(world: nat, len: nat, x: T, y: T): (m: Memories<T>)
    ensures |m| == world && forall r :: 0 <= r < world ==> m[r] == seq(len, _ => if r == 0 then x else y)
  {
    seq(world, r => seq(len, _ => if r == 0 then x else y))
  }

  lemma FilledLoaded<T(!new)>(world: nat, count: nat, size: nat, x: T, y: T)
    requires count <= size
    ensures Loaded(Filled(world, count, x, y), Filled(world, size, x, y), world, count)
  {
    var a, b := Filled(world, count, x, y), Filled(world, size, x, y);
    forall q | 0 <= q < world ensures b[q][..count] == a[q] {
    }
  }

  /** A run in which rank 0 has `x` everywhere and the others have `y`. */
  lemma SomeCall<T(!new)>(C: Call<T>, cap: nat, x: T, y: T) returns (u: Run<T>)
    requires C.world > 1 && |C.chosen| == |C.counts|
    ensures InCall(C, cap, u)
    ensures forall i :: 0 <= i < |C.counts| ==> u.tensors[i] == Filled(C.world, C.counts[i], x, y)
  {
    var ps := Protocols(C);
    var tensors := seq(|ps|, i requires 0 <= i < |ps| => Filled(C.world, C.counts[i], x, y));
    var inits := seq(|ps|, i requires 0 <= i < |ps| => Filled(C.world, ps[i].size, x, y));
    forall i | 0 <= i < |ps|
      ensures Shaped(ps[i], inits[i])
      ensures Loaded(tensors[i], inits[i], C.world, C.counts[i])
    {
      Runs(C.chosen[i], Args(C, i));
      FilledLoaded(C.world, C.counts[i], ps[i].size, x, y);
    }
    u := Run(tensors, inits, []);
    CallSafe(C);
    StartShaped(C, u);
    var moves := SomeRun(Whole(C), cap, Start(C, u));
    u := Run(tensors, inits, moves);
  }

  /** Past the cut every rank keeps its own input, in every run. */
  lemma PastCut<T(!new)>(C: Call<T>, cap: nat, u: Run<T>, i: nat, r: nat, e: nat)
    requires InCall(C, cap, u) && cap >= 1 && i < |C.counts| && r < C.world && Cut(C.counts[i]) <= e < C.counts[i]
    ensures Loaded(u.tensors[i], u.inits[i], C.world, C.counts[i])
    ensures Ends(C, cap, u, i, r, e) == u.tensors[i][r][e]
  {
    var J, init := Args(C, i), u.inits[i];
    CallStarts(C, cap, u, i);
    CallMemory(C, cap, u, i, r, ProtocolOf(C.chosen[i], J), init);
    LoadedRest(C.chosen[i], J, init, u.tensors[i], r, e);
  }

  lemma SelectedAccepts<T(!new)>(C: Call<T>, envs: seq<Env>, elemSize: nat)
    requires Chosen(C, envs, elemSize) && AllFit(C.counts)
    ensures Accepted(C)
  {
    forall i | 0 <= i < |C.counts| ensures C.chosen[i] == UseTree || Cut(C.counts[i]) >= C.world {
      assert Select(envs[0], C.counts[i] * elemSize, C.counts[i], C.world) == C.chosen[i];
    }
  }

  /** A tensor past 2^32 elements: some run leaves one rank with `x` where another has `y`, in the very last
      element. */
  lemma SomeDisagree<T(!new)>(C: Call<T>, cap: nat, x: T, y: T, i: nat) returns (u: Run<T>, e: nat)
    requires C.world > 1 && |C.chosen| == |C.counts| && i < |C.counts| && C.counts[i] >= U32 && cap >= 1
    ensures InCall(C, cap, u) && e < C.counts[i]
    ensures Ends(C, cap, u, i, 0, e) == x && Ends(C, cap, u, i, 1, e) == y
  {
    u := SomeCall(C, cap, x, y);
    e := C.counts[i] - 1;
    PastCut(C, cap, u, i, 0, e);
    PastCut(C, cap, u, i, 1, e);
  }

  lemma FitAgrees<T(!new)>(C: Call<T>, cap: nat)
    requires C.world > 1 && |C.chosen| == |C.counts| && Accepted(C) && AllFit(C.counts) && cap >= 1
    ensures AlwaysAgrees(C, cap)
  {
    forall u: Run<T>, i: nat, r: nat, e: nat | InCall(C, cap, u) && i < |C.counts| && r < C.world && e < C.counts[i]
      ensures IsShared(C, cap, u, i, r, e)
    {
      ElementShared(C, cap, u, i, r, e);
    }
  }

  lemma FitReduces<T(!new)>(C: Call<T>, cap: nat)
    requires C.world > 1 && |C.chosen| == |C.counts| && Accepted(C) && AllFit(C.counts) && cap >= 1
    requires Associative(C.f) && Commutative(C.f)
    ensures AlwaysReduces(C, cap)
  {
    forall u: Run<T>, i: nat, r: nat, e: nat | InCall(C, cap, u) && i < |C.counts| && r < C.world && e < C.counts[i]
      ensures IsReduced(C, cap, u, i, r, e)
    {
      ElementReduced(C, cap, u, i, r, e);
    }
  }

  /** For any op at all, even one that is neither associative nor commutative: the ranks end with the
      same tensors, whatever they selected, if and only if every tensor has fewer than 2^32 elements. */
  lemma AgreesIff<T(!new)>(C: Call<T>, envs: seq<Env>, elemSize: nat, cap: nat, x: T, y: T)
    requires Chosen(C, envs, elemSize) && cap >= 1 && x != y
    ensures AlwaysAgrees(C, cap) <==> AllFit(C.counts)
  {
    if AllFit(C.counts) {
      SelectedAccepts(C, envs, elemSize);
      FitAgrees(C, cap);
    } else {
      var i: nat :| i < |C.counts| && C.counts[i] >= U32;
      var u, e := SomeDisagree(C, cap, x, y, i);
      assert !IsShared(C, cap, u, i, 1, e);
    }
  }

  /** The selection, its environment variables and its fallbacks cannot be observed: whatever was
      chosen, every run leaves the elementwise reduction of all ranks' inputs in every element of every
      rank, if and only if every tensor has fewer than 2^32 elements. */
  lemma SelectionUnobservable<T(!new)>(C: Call<T>, envs: seq<Env>, elemSize: nat, cap: nat, x: T, y: T)
    requires Chosen(C, envs, elemSize) && cap >= 1 && x != y && Associative(C.f) && Commutative(C.f)
    ensures AlwaysReduces(C, cap) <==> AllFit(C.counts)
  {
    if AllFit(C.counts) {
      SelectedAccepts(C, envs, elemSize);
      FitReduces(C, cap);
    } else {
      var i: nat :| i < |C.counts| && C.counts[i] >= U32;
      var u, e := SomeDisagree(C, cap, x, y, i);
      assert !IsReduced(C, cap, u, i, 0, e) || !IsReduced(C, cap, u, i, 1, e);
    }
  }

  /** One element too many, on four ranks: ring is selected and then throws, and with tree every run
      reduces one element and leaves the others as they were. */
  lemma OneTooMany<T(!new)>(f: (T, T) -> T, g: T -> T, cap: nat, u: Run<T>, r: nat, e: nat)
    requires r < 4 && 1 <= e < U32 + 1 && cap >= 1 && InCall(Call(4, f, g, [U32 + 1], [UseTree]), cap, u)
    ensures Select(Env(None, None), (U32 + 1) * 4, U32 + 1, 4) == UseRing
    ensures !Accepted(Call(4, f, g, [U32 + 1], [UseRing])) && Accepted(Call(4, f, g, [U32 + 1], [UseTree]))
    ensures Loaded(u.tensors[0], u.inits[0], 4, U32 + 1)
    ensures Ends(Call(4, f, g, [U32 + 1], [UseTree]), cap, u, 0, r, e) == u.tensors[0][r][e]
  {
    PastCut(Call(4, f, g, [U32 + 1], [UseTree]), cap, u, 0, r, e);
    assert Call(4, f, g, [U32 + 1], [UseRing]).chosen[0] == UseRing;
  }

  // ---------------------------------------------------------------- the reduce ops, over reals

  datatype RedOp = SUM | AVG | MIN | MAX | PRODUCT | UNSUPPORTED

  datatype Kernel = ACCUMULATE | MINIMUM | MAXIMUM | MULTIPLY

  datatype Dtype = FLOAT | HALF | BFLOAT16 | OTHER

  /** A compiled kernel and the type of the elements it works on. */
  datatype Pipeline = Pipeline(kernel: Kernel, elements: Dtype)

  function Accumulate(dtype: Dtype): Option<Pipeline> {
    match dtype
    case FLOAT => Some(Pipeline(ACCUMULATE, FLOAT))
    case HALF => Some(Pipeline(ACCUMULATE, HALF))
    case BFLOAT16 => Some(Pipeline(ACCUMULATE, BFLOAT16))
    case OTHER => None
  }

  /** `select_op_pipeline`: AVG accumulates like SUM; other ops have no pipeline. */
  function SelectPipeline(op: RedOp, dtype: Dtype): Option<Pipeline> {
    var last := if dtype == FLOAT then FLOAT else if dtype == HALF then HALF else BFLOAT16;
    match op
    case SUM => Accumulate(dtype)
    case AVG => Accumulate(dtype)
    case MIN => Some(Pipeline(MINIMUM, last))
    case MAX => Some(Pipeline(MAXIMUM, last))
    case PRODUCT => Some(Pipeline(MULTIPLY, last))
    case UNSUPPORTED => None
  }

  /** The call is refused, or the kernel works on the tensor's own elements, if and only if it is not MIN,
      MAX or PRODUCT of a type other than the three. */
  lemma RightElementsIff(op: RedOp, dtype: Dtype)
    ensures SelectPipeline(op, dtype).None? || SelectPipeline(op, dtype).value.elements == dtype
       <==> !(dtype == OTHER && (op == MIN || op == MAX || op == PRODUCT))
  {
  }

  function Binary(kernel: Kernel): (real, real) -> real {
    match kernel
    case ACCUMULATE => (x: real, y: real) => x + y
    case MINIMUM => (x: real, y: real) => if x < y then x else y
    case MAXIMUM => (x: real, y: real) => if x < y then y else x
    case MULTIPLY => (x: real, y: real) => x * y
  }

  function Final(op: RedOp, world: nat): real -> real
    requires world > 0
  {
    if op == AVG then (x: real) => x * (1.0 / world as real) else (x: real) => x
  }

  lemma OpsAreAlgebraic(kernel: Kernel)
    ensures Associative(Binary(kernel)) && Commutative(Binary(kernel))
  {
    var f := Binary(kernel);
    forall x, y, z ensures Regroups(f, x, y, z) {
    }
  }

  function Total(col: seq<real>): real {
    if col == [] then 0.0 else Total(col[..|col| - 1]) + col[|col| - 1]
  }

  lemma {:induction false} SumIsTotal(f: (real, real) -> real, col: seq<real>)
    requires col != [] && forall x: real, y: real :: f(x, y) == x + y
    ensures All(f, col) == Total(col)
    decreases |col|
  {
    var n := |col| - 1;
    if n > 0 {
      SumIsTotal(f, col[..n]);
      AllSnoc(f, col[..n], col[n]);
      assert col[..n] + [col[n]] == col;
    }
  }

  /** AVG ends with the arithmetic mean. */
  lemma AverageIsMean(world: nat, col: seq<real>)
    requires |col| == world > 0
    ensures Final(AVG, world)(All(Binary(ACCUMULATE), col)) == Total(col) / world as real
  {
    SumIsTotal(Binary(ACCUMULATE), col);
  }

  // ---------------------------------------------------------------- what a caller's op means

  function Product(col: seq<real>): real {
    if col == [] then 1.0 else Product(col[..|col| - 1]) * col[|col| - 1]
  }

  /** What the caller asked for: the sum, the mean, a least element, a greatest one, or the product. */
  predicate Means(op: RedOp, col: seq<real>, v: real)
    requires col != []
  {
    match op
    case SUM => v == Total(col)
    case AVG => v == Total(col) / |col| as real
    case MIN => v in col && forall i :: 0 <= i < |col| ==> v <= col[i]
    case MAX => v in col && forall i :: 0 <= i < |col| ==> v >= col[i]
    case PRODUCT => v == Product(col)
    case UNSUPPORTED => false
  }

  lemma {:induction false} FoldIsProduct(f: (real, real) -> real, col: seq<real>)
    requires col != [] && forall x: real, y: real :: f(x, y) == x * y
    ensures All(f, col) == Product(col)
    decreases |col|
  {
    var n := |col| - 1;
    if n > 0 {
      FoldIsProduct(f, col[..n]);
      AllSnoc(f, col[..n], col[n]);
      assert col[..n] + [col[n]] == col;
    }
  }

  lemma {:induction false} FoldIsLeast(f: (real, real) -> real, col: seq<real>)
    requires col != [] && forall x: real, y: real :: f(x, y) == if x < y then x else y
    ensures All(f, col) in col && forall i :: 0 <= i < |col| ==> All(f, col) <= col[i]
    decreases |col|
  {
    var n := |col| - 1;
    if n > 0 {
      FoldIsLeast(f, col[..n]);
      AllSnoc(f, col[..n], col[n]);
      assert col[..n] + [col[n]] == col;
      assert forall x :: x in col[..n] ==> x in col;
    }
  }

  lemma {:induction false} FoldIsGreatest(f: (real, real) -> real, col: seq<real>)
    requires col != [] && forall x: real, y: real :: f(x, y) == if x < y then y else x
    ensures All(f, col) in col && forall i :: 0 <= i < |col| ==> All(f, col) >= col[i]
    decreases |col|
  {
    var n := |col| - 1;
    if n > 0 {
      FoldIsGreatest(f, col[..n]);
      AllSnoc(f, col[..n], col[n]);
      assert col[..n] + [col[n]] == col;
      assert forall x :: x in col[..n] ==> x in col;
    }
  }

  /** The kernel that is selected for an op, folded over the ranks and finished, is what the op means. */
  lemma FoldMeans(op: RedOp, dtype: Dtype, col: seq<real>)
    requires col != [] && SelectPipeline(op, dtype).Some?
    ensures Means(op, col, Final(op, |col|)(All(Binary(SelectPipeline(op, dtype).value.kernel), col)))
  {
    var f := Binary(SelectPipeline(op, dtype).value.kernel);
    match op
    case SUM => SumIsTotal(f, col);
    case AVG => AverageIsMean(|col|, col);
    case MIN => FoldIsLeast(f, col);
    case MAX => FoldIsGreatest(f, col);
    case PRODUCT => FoldIsProduct(f, col);
    case UNSUPPORTED =>
  }

  /** A call is refused exactly for an op that has no kernels, or a sum or average of a type that has none. */
  lemma RefusedIff(op: RedOp, dtype: Dtype)
    ensures SelectPipeline(op, dtype).None? <==> op == UNSUPPORTED || (dtype == OTHER && (op == SUM || op == AVG))
  {
  }

  /** From the caller's op to the result: every run of a call, whatever was selected, leaves in every element of
      every rank the sum, mean, least, greatest or product of what the ranks had there. */
  lemma CallMeans(op: RedOp, dtype: Dtype, C: Call<real>, envs: seq<Env>, elemSize: nat, cap: nat, u: Run<real>,
                  i: nat, r: nat, e: nat)
    requires Chosen(C, envs, elemSize) && AllFit(C.counts) && cap >= 1 && InCall(C, cap, u)
    requires i < |C.counts| && r < C.world && e < C.counts[i]
    requires SelectPipeline(op, dtype).Some?
    requires C.f == Binary(SelectPipeline(op, dtype).value.kernel) && C.g == Final(op, C.world)
    ensures Loaded(u.tensors[i], u.inits[i], C.world, C.counts[i])
    ensures Means(op, Column(u.tensors[i], e), Ends(C, cap, u, i, r, e))
  {
    assert Loaded(u.tensors[i], u.inits[i], C.world, C.counts[i]);
    OpsAreAlgebraic(SelectPipeline(op, dtype).value.kernel);
    ElementReduced(C, cap, u, i, r, e);
    assert IsReduced(C, cap, u, i, r, e);
    FoldMeans(op, dtype, Column(u.tensors[i], e));
  }
}
