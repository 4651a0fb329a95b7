/** Whose turn it is in a scheduling tick: which jobs start, in what order, on which nodes, and that no job
    starts while one that outranks it waits and would have fit.  Stated without the comparison, the sort or
    the walk of the queue that the scheduler uses. */
module Turns {
  import opened Common
  import opened Jobs
  import opened Scheduling

  /** CRITICAL over HIGH over NORMAL over LOW. */
  predicate Higher(p: Priority, q: Priority) {
    match p
    case CRITICAL => q == HIGH || q == NORMAL || q == LOW
    case HIGH => q == NORMAL || q == LOW
    case NORMAL => q == LOW
    case LOW => false
  }

  predicate Outranks(a: Job, b: Job) {
    Higher(a.priority, b.priority) || (a.priority == b.priority && a.submitted < b.submitted)
  }

  /** A job's turn: the loads it meets, and whether and where it starts. */
  datatype Turn = Turn(job: Job, before: seq<NodeLoad>, starts: bool, nodes: seq<nat>)

  // ---------------------------------------------------------------- room

  predicate HasRoom(n: nat, job: Job, cap: nat, loads: seq<NodeLoad>) {
    n < |loads| && loads[n].used + job.memory <= cap
  }

  ghost function Roomy(job: Job, online: seq<nat>, cap: nat, loads: seq<NodeLoad>): set<nat> {
    set n | n in online && HasRoom(n, job, cap, loads)
  }

  /** Enough online nodes have the memory. */
  ghost predicate CouldStart(job: Job, online: seq<nat>, cap: nat, loads: seq<NodeLoad>) {
    |Roomy(job, online, cap, loads)| >= job.requested
  }

  predicate JobFits(job: Job, cap: nat, loads: seq<NodeLoad>) {
    forall n: nat :: n < |loads| ==> NoWrap(job, loads[n], cap)
  }

  lemma OffersIff(n: nat, job: Job, cap: nat, loads: seq<NodeLoad>)
    requires JobFits(job, cap, loads)
    ensures Offers(n, job, cap, loads) <==> HasRoom(n, job, cap, loads)
  {
    if n < |loads| { assert NoWrap(job, loads[n], cap); }
  }

  /** The scheduler's count is the number of online nodes with room, if no sum wraps. */
  lemma {:induction false} AvailableIsRoom(online: seq<nat>, job: Job, cap: nat, loads: seq<NodeLoad>)
    requires Distinct(online) && JobFits(job, cap, loads)
    ensures Available(online, job, cap, loads) == |Roomy(job, online, cap, loads)|
    decreases |online|
  {
    if online == [] {
      assert Roomy(job, online, cap, loads) == {};
    } else {
      var n, rest := online[0], online[1..];
      assert Distinct(rest) && n !in rest;
      AvailableIsRoom(rest, job, cap, loads);
      OffersIff(n, job, cap, loads);
      var some := Roomy(job, rest, cap, loads);
      assert forall m :: m in online <==> m == n || m in rest;
      assert Roomy(job, online, cap, loads) == if HasRoom(n, job, cap, loads) then some + {n} else some;
    }
  }

  lemma SmallerSet(a: set<nat>, b: set<nat>)
    requires a <= b
    ensures |a| <= |b|
  {
    assert b == a + (b - a);
  }

  predicate LoadsGrow(a: seq<NodeLoad>, b: seq<NodeLoad>) {
    |a| == |b| && forall n :: 0 <= n < |a| ==> a[n].used <= b[n].used
  }

  lemma LessRoom(job: Job, online: seq<nat>, cap: nat, a: seq<NodeLoad>, b: seq<NodeLoad>)
    requires LoadsGrow(a, b) && !CouldStart(job, online, cap, a)
    ensures !CouldStart(job, online, cap, b)
  {
    SmallerSet(Roomy(job, online, cap, b), Roomy(job, online, cap, a));
  }

  // ---------------------------------------------------------------- what a sequence of turns is

  /** Exactly the nodes asked for, different, online, and each with room. */
  predicate WellChosen(t: Turn, online: seq<nat>, cap: nat) {
    && |t.nodes| == t.job.requested && Distinct(t.nodes)
    && forall n :: n in t.nodes ==> n in online && HasRoom(n, t.job, cap, t.before)
  }

  /** Starting charges the job's memory to each of its nodes, and nothing else. */
  function Charge(t: Turn, n: nat): NodeLoad
    requires n < |t.before|
  {
    if t.starts && n in t.nodes then NodeLoad(t.before[n].used + t.job.memory, t.before[n].jobs + 1) else t.before[n]
  }

  function After(t: Turn): (loads: seq<NodeLoad>)
    ensures |loads| == |t.before| && forall n: nat :: n < |loads| ==> loads[n] == Charge(t, n)
  {
    seq(|t.before|, n requires 0 <= n < |t.before| => Charge(t, n))
  }

  /** Each turn meets the loads the one before it left. */
  predicate Chain(turns: seq<Turn>, loads: seq<NodeLoad>, after: seq<NodeLoad>) {
    if turns == [] then after == loads
    else turns[0].before == loads && Chain(turns[1..], After(turns[0]), after)
  }

  function JobsOf(turns: seq<Turn>): (jobs: seq<Job>)
    ensures |jobs| == |turns| && forall k :: 0 <= k < |turns| ==> jobs[k] == turns[k].job
  {
    seq(|turns|, k requires 0 <= k < |turns| => turns[k].job)
  }

  /** At its turn a job starts exactly if there is room, on nodes that have it. */
  ghost predicate Decided(t: Turn, online: seq<nat>, cap: nat) {
    (t.starts <==> CouldStart(t.job, online, cap, t.before)) && (t.starts ==> WellChosen(t, online, cap))
  }

  /** The turns of a tick: every queued job has one, and whoever outranks another comes first. */
  ghost predicate Honours(turns: seq<Turn>, queue: seq<Job>, online: seq<nat>, cap: nat, loads: seq<NodeLoad>,
                          after: seq<NodeLoad>) {
    && multiset(JobsOf(turns)) == multiset(queue) && Chain(turns, loads, after)
    && (forall k :: 0 <= k < |turns| ==> Decided(turns[k], online, cap))
    && (forall j, k :: 0 <= j < |turns| && 0 <= k < |turns| && Outranks(turns[j].job, turns[k].job) ==> j < k)
  }

  /** So no job starts in place of one that outranks it: if that one did not start, it would not have fit when
      the other one's turn came either. */
  lemma NoneJumpsQueue(turns: seq<Turn>, queue: seq<Job>, online: seq<nat>, cap: nat, loads: seq<NodeLoad>,
                       after: seq<NodeLoad>, j: nat, k: nat)
    requires Honours(turns, queue, online, cap, loads, after) && j < |turns| && k < |turns|
    requires Outranks(turns[j].job, turns[k].job) && !turns[j].starts
    ensures !CouldStart(turns[j].job, online, cap, turns[k].before)
  {
    assert j < k && Decided(turns[j], online, cap);
    ChainGrows(turns, loads, after, j, k);
    LessRoom(turns[j].job, online, cap, turns[j].before, turns[k].before);
  }

  lemma {:induction false} ChainGrows(turns: seq<Turn>, loads: seq<NodeLoad>, after: seq<NodeLoad>, j: nat, k: nat)
    requires Chain(turns, loads, after) && j <= k < |turns|
    ensures LoadsGrow(turns[j].before, turns[k].before)
    decreases |turns|
  {
    var next := After(turns[0]);
    if j > 0 {
      ChainGrows(turns[1..], next, after, j - 1, k - 1);
    } else if k > 0 {
      ChainGrows(turns[1..], next, after, 0, k - 1);
      assert turns[1..][0].before == next;
    }
  }

  /** The job as it runs. */
  function StartedAs(t: Turn, tenants: seq<Tenant>, now: nat): Job {
    t.job.(priority := Boosted(t.job, tenants).priority, nodes := t.nodes, status := RUNNING, started := now)
  }

  function Starting(turns: seq<Turn>, tenants: seq<Tenant>, now: nat): seq<Job> {
    if turns == [] then []
    else (if turns[0].starts then [StartedAs(turns[0], tenants, now)] else []) + Starting(turns[1..], tenants, now)
  }

  function Waiting(turns: seq<Turn>, tenants: seq<Tenant>): seq<Job> {
    if turns == [] then []
    else (if turns[0].starts then [] else [Boosted(turns[0].job, tenants)]) + Waiting(turns[1..], tenants)
  }

  // ---------------------------------------------------------------- the walk has such turns

  lemma AllocateIsCharge(job: Job, online: seq<nat>, cap: nat, loads: seq<NodeLoad>, t: Turn)
    requires Distinct(online) && JobFits(job, cap, loads) && CanAllocate(job, online, cap, loads)
    requires t == Turn(job, loads, true, Allocate(job, online, cap, loads).nodes)
    ensures WellChosen(t, online, cap) && Allocate(job, online, cap, loads).loads == After(t)
  {
    PlaceIsSound(online, job, cap, loads, []);
    var a := Allocate(job, online, cap, loads);
    forall n | n in t.nodes ensures n in online && HasRoom(n, job, cap, loads) {
      OffersIff(n, job, cap, loads);
    }
    forall n: nat | n < |loads| ensures a.loads[n] == Charge(t, n) {
      assert NoWrap(job, loads[n], cap);
      BumpIs(loads[n], job);
    }
  }

  lemma BumpIs(load: NodeLoad, job: Job)
    requires load.used + job.memory < U64
    ensures Bump(load, job) == NodeLoad(load.used + job.memory, load.jobs + 1)
  {
  }

  /** What the walk of `order` makes of each job. */
  ghost predicate Walk(turns: seq<Turn>, order: seq<Job>, tenants: seq<Tenant>, online: seq<nat>, cap: nat,
                       loads: seq<NodeLoad>, now: nat) {
    var p := Schedule(Boost(order, tenants), online, cap, loads, now);
    && JobsOf(turns) == order && Chain(turns, loads, p.loads)
    && (forall k :: 0 <= k < |turns| ==> Decided(turns[k], online, cap))
    && p.started == Starting(turns, tenants, now) && p.kept == Waiting(turns, tenants)
  }

  lemma BoostHead(order: seq<Job>, tenants: seq<Tenant>)
    requires order != []
    ensures Boost(order, tenants) == [Boosted(order[0], tenants)] + Boost(order[1..], tenants)
  {
  }

  /** Fair-share changes a priority, not what a job asks for. */
  lemma BoostAsks(job: Job, tenants: seq<Tenant>, online: seq<nat>, cap: nat, loads: seq<NodeLoad>)
    ensures CanAllocate(Boosted(job, tenants), online, cap, loads) == CanAllocate(job, online, cap, loads)
    ensures Allocate(Boosted(job, tenants), online, cap, loads) == Allocate(job, online, cap, loads)
  {
    SameAvailable(online, job, Boosted(job, tenants), cap, loads);
    SamePlace(online, job, Boosted(job, tenants), cap, loads, []);
  }

  lemma {:induction false} SameAvailable(online: seq<nat>, a: Job, b: Job, cap: nat, loads: seq<NodeLoad>)
    requires a.requested == b.requested && a.memory == b.memory
    ensures Available(online, a, cap, loads) == Available(online, b, cap, loads)
    decreases |online|
  {
    if online != [] { SameAvailable(online[1..], a, b, cap, loads); }
  }

  lemma {:induction false} SamePlace(online: seq<nat>, a: Job, b: Job, cap: nat, loads: seq<NodeLoad>, got: seq<nat>)
    requires a.requested == b.requested && a.memory == b.memory
    ensures Place(online, a, cap, loads, got) == Place(online, b, cap, loads, got)
    decreases |online|
  {
    if online != [] && |got| < a.requested {
      var n, rest := online[0], online[1..];
      if Offers(n, a, cap, loads) {
        SamePlace(rest, a, b, cap, loads[n := Bump(loads[n], a)], got + [n]);
      } else {
        SamePlace(rest, a, b, cap, loads, got);
      }
    }
  }

  /** One more job in front of a walk. */
  lemma WalkMore(t: Turn, turns: seq<Turn>, order: seq<Job>, tenants: seq<Tenant>, online: seq<nat>, cap: nat,
                 loads: seq<NodeLoad>, now: nat)
    requires order != [] && t.job == order[0] && t.before == loads && Decided(t, online, cap)
    requires t.starts <==> CanAllocate(order[0], online, cap, loads)
    requires t.starts ==> t.nodes == Allocate(order[0], online, cap, loads).nodes
    requires After(t) == if t.starts then Allocate(order[0], online, cap, loads).loads else loads
    requires Walk(turns, order[1..], tenants, online, cap, After(t), now)
    ensures Walk([t] + turns, order, tenants, online, cap, loads, now)
  {
    var all, first := [t] + turns, Boosted(order[0], tenants);
    assert all[1..] == turns && all[0] == t;
    BoostHead(order, tenants);
    BoostAsks(order[0], tenants, online, cap, loads);
    assert ([first] + Boost(order[1..], tenants))[1..] == Boost(order[1..], tenants);
    assert JobsOf(all) == order;
    var p := Schedule(Boost(order[1..], tenants), online, cap, After(t), now);
    assert [] + p.started == p.started && [] + p.kept == p.kept;
    if t.starts {
      assert Run(first, t.nodes, now) == StartedAs(t, tenants, now);
    }
  }

  lemma {:induction false} WalkOf(order: seq<Job>, tenants: seq<Tenant>, online: seq<nat>, cap: nat,
                                  loads: seq<NodeLoad>, now: nat) returns (turns: seq<Turn>)
    requires Distinct(online) && NoOverflow(order, cap, loads)
    ensures Walk(turns, order, tenants, online, cap, loads, now)
    decreases |order|
  {
    if order == [] {
      turns := [];
    } else {
      var job, rest := order[0], order[1..];
      assert [job] + rest == order && job in order && forall j :: j in rest ==> j in order;
      assert JobFits(job, cap, loads);
      AvailableIsRoom(online, job, cap, loads);
      var starts := CanAllocate(job, online, cap, loads);
      var t := Turn(job, loads, starts, if starts then Allocate(job, online, cap, loads).nodes else []);
      if starts {
        AllocateIsCharge(job, online, cap, loads, t);
        StartOne(job, rest, online, cap, loads);
      } else {
        assert After(t) == loads;
      }
      var later := WalkOf(rest, tenants, online, cap, After(t), now);
      WalkMore(t, later, order, tenants, online, cap, loads, now);
      turns := [t] + later;
    }
  }

  /** The scheduler's comparison is the one written out above. */
  lemma BeforeIff(a: Job, b: Job)
    ensures Before(a, b) <==> Outranks(a, b)
  {
  }

  // ---------------------------------------------------------------- the tick

  /** What a tick does to the queue and the active jobs, given its turns: those that start join the active jobs
      and those that wait stay queued, in the order of their turns; then only LOW jobs may be pushed out, to the
      front of the queue. */
  predicate Carried(turns: seq<Turn>, pushed: seq<Job>, s: State, r: State, now: nat) {
    && r.queue == pushed + Waiting(turns, s.tenants)
    && OnlyLowLeave(pushed, s.active + Starting(turns, s.tenants, now), r.active)
  }

  lemma TickTurns(C: Config, s: State, sorted: seq<Job>, online: seq<nat>, loads: seq<NodeLoad>, now: nat)
    returns (turns: seq<Turn>, pushed: seq<Job>)
    requires IsSorting(sorted, s.queue) && Distinct(online) && NoOverflow(s.queue, C.cap, loads)
    ensures var r := DoTick(C, s, sorted, online, loads, now);
            && Honours(turns, s.queue, online, C.cap, loads, r.loads) && Carried(turns, pushed, s, r.s, now)
            && r.started == |Starting(turns, s.tenants, now)|
  {
    forall job | job in sorted ensures job in s.queue { SameMembers(sorted, s.queue, job); }
    turns := WalkOf(sorted, s.tenants, online, C.cap, loads, now);
    BoostFits(sorted, s.tenants, C.cap, loads);
    pushed := TickIsGood(C, s, sorted, online, loads, now);
    forall j, k | 0 <= j < |turns| && 0 <= k < |turns| && Outranks(turns[j].job, turns[k].job) ensures j < k {
      BeforeIff(turns[j].job, turns[k].job);
      assert turns[j].job == sorted[j] && turns[k].job == sorted[k];
    }
  }

  lemma BoostFits(order: seq<Job>, tenants: seq<Tenant>, cap: nat, loads: seq<NodeLoad>)
    requires NoOverflow(order, cap, loads)
    ensures NoOverflow(Boost(order, tenants), cap, loads)
  {
    var q := Boost(order, tenants);
    forall j, n: nat | j in q && n < |loads| ensures NoWrap(j, loads[n], cap) {
      var i :| 0 <= i < |q| && q[i] == j;
      assert order[i] in order && NoWrap(order[i], loads[n], cap);
    }
  }
}
