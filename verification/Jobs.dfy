/** What the job scheduler does, on values: placing jobs on nodes, one scheduling tick, preemption,
    and node eviction.  Memory counters are 64-bit and wrap, as in the source. */
module Jobs {
  import opened Common

  datatype Priority = LOW | NORMAL | HIGH | CRITICAL

  function Rank(p: Priority): nat {
    match p
    case LOW => 0
    case NORMAL => 1
    case HIGH => 2
    case CRITICAL => 3
  }

  datatype Status = PENDING | RUNNING | COMPLETED | FAILED | RESCHEDULING

  datatype Job = Job(
    id: nat, owner: string, requested: nat, memory: nat, priority: Priority, status: Status,
    nodes: seq<nat>, submitted: nat, started: nat, completed: nat)

  datatype NodeLoad = NodeLoad(used: nat, jobs: nat)

  // ---------------------------------------------------------------- placing one job

  predicate Fits(load: NodeLoad, job: Job, cap: nat) {
    (load.used + job.memory) % U64 <= cap
  }

  predicate Offers(nid: nat, job: Job, cap: nat, loads: seq<NodeLoad>) {
    nid < |loads| && Fits(loads[nid], job, cap)
  }

  /** How many of the online nodes could take the job. */
  function Available(online: seq<nat>, job: Job, cap: nat, loads: seq<NodeLoad>): nat {
    if online == [] then 0
    else (if Offers(online[0], job, cap, loads) then 1 else 0) + Available(online[1..], job, cap, loads)
  }

  predicate CanAllocate(job: Job, online: seq<nat>, cap: nat, loads: seq<NodeLoad>) {
    Available(online, job, cap, loads) >= job.requested
  }

  function Bump(load: NodeLoad, job: Job): NodeLoad {
    NodeLoad((load.used + job.memory) % U64, load.jobs + 1)
  }

  datatype Placement = Placement(nodes: seq<nat>, loads: seq<NodeLoad>)

  /** Take the first nodes that fit, in the order given, until there are enough. */
  function Place(online: seq<nat>, job: Job, cap: nat, loads: seq<NodeLoad>, got: seq<nat>): (p: Placement)
    ensures |p.loads| == |loads|
  {
    if online == [] || |got| >= job.requested then Placement(got, loads)
    else if Offers(online[0], job, cap, loads) then
      Place(online[1..], job, cap, loads[online[0] := Bump(loads[online[0]], job)], got + [online[0]])
    else Place(online[1..], job, cap, loads, got)
  }

  function Allocate(job: Job, online: seq<nat>, cap: nat, loads: seq<NodeLoad>): Placement {
    Place(online, job, cap, loads, [])
  }

  predicate Distinct(s: seq<nat>) {
    forall i, j :: 0 <= i < j < |s| ==> s[i] != s[j]
  }

  /** Two load tables that differ only outside `online` offer the same. */
  lemma {:induction false} AvailableFrame(online: seq<nat>, job: Job, cap: nat, a: seq<NodeLoad>, b: seq<NodeLoad>)
    requires |a| == |b| && forall n :: n in online && n < |a| ==> a[n] == b[n]
    ensures Available(online, job, cap, a) == Available(online, job, cap, b)
    decreases |online|
  {
    if online != [] { AvailableFrame(online[1..], job, cap, a, b); }
  }

  /** The nodes picked are new, online and distinct, each one had room, each one is charged once,
      and no other node changes.  If enough nodes had room, the job gets exactly what it asked. */
  lemma {:induction false} PlaceIsSound(online: seq<nat>, job: Job, cap: nat, loads: seq<NodeLoad>, got: seq<nat>)
    requires Distinct(online) && Distinct(got) && |got| <= job.requested
    requires forall n :: n in got ==> n !in online
    ensures var p := Place(online, job, cap, loads, got);
            && Distinct(p.nodes) && got <= p.nodes
            && (forall n :: n in p.nodes ==> n in got || (n in online && Offers(n, job, cap, loads)))
            && (forall n: nat :: n < |loads| ==> p.loads[n] == if n in p.nodes
                && n !in got then Bump(loads[n], job) else loads[n])
            && |p.nodes| <= job.requested
            && (|got| + Available(online, job, cap, loads) >= job.requested ==> |p.nodes| == job.requested)
    decreases |online|
  {
    if online != [] && |got| < job.requested {
      var n, rest := online[0], online[1..];
      assert Distinct(rest) && n !in rest && n in online && n !in got;
      if Offers(n, job, cap, loads) {
        var loads' := loads[n := Bump(loads[n], job)];
        AvailableFrame(rest, job, cap, loads, loads');
        assert forall m :: m in got + [n] ==> m !in rest;
        PlaceIsSound(rest, job, cap, loads', got + [n]);
        assert Place(rest, job, cap, loads', got + [n]).nodes[|got|] == n;
      } else {
        PlaceIsSound(rest, job, cap, loads, got);
      }
    }
  }

  /** The walk takes `online[k]`: the node offers, and not enough before it do. */
  predicate Reached(online: seq<nat>, k: nat, job: Job, cap: nat, loads: seq<NodeLoad>, have: nat) {
    k < |online| && Offers(online[k], job, cap, loads) && have + Available(online[..k], job, cap, loads) < job.requested
  }

  /** What the head of the list contributes to the count before place `k`. */
  lemma AvailableBefore(online: seq<nat>, k: nat, job: Job, cap: nat, loads: seq<NodeLoad>, after: seq<NodeLoad>)
    requires 0 < k < |online| && Distinct(online) && |after| == |loads|
    requires forall n: nat :: n < |loads| && n != online[0] ==> after[n] == loads[n]
    ensures Available(online[..k], job, cap, loads)
         == (if Offers(online[0], job, cap, loads) then 1 else 0) + Available(online[1..][..k - 1], job, cap, after)
    ensures Offers(online[k], job, cap, after) == Offers(online[k], job, cap, loads)
  {
    assert online[..k][0] == online[0] && online[..k][1..] == online[1..][..k - 1];
    var before := online[1..][..k - 1];
    assert forall i :: 0 <= i < |before| ==> before[i] == online[i + 1];
    AvailableFrame(before, job, cap, loads, after);
  }

  /** The nodes taken, told from the inputs. */
  lemma {:induction false} TakenIff(online: seq<nat>, k: nat, job: Job, cap: nat, loads: seq<NodeLoad>, got: seq<nat>)
    requires Distinct(online) && Distinct(got) && |got| <= job.requested && k < |online|
    requires forall n :: n in got ==> n !in online
    ensures online[k] in Place(online, job, cap, loads, got).nodes <==> Reached(online, k, job, cap, loads, |got|)
    decreases |online|
  {
    assert online[k] in online;
    if |got| < job.requested {
      var n, rest := online[0], online[1..];
      assert Distinct(rest) && n !in rest && n in online && n !in got;
      var took := Offers(n, job, cap, loads);
      var after := if took then loads[n := Bump(loads[n], job)] else loads;
      var got' := if took then got + [n] else got;
      assert forall m :: m in got' ==> m !in rest;
      if k == 0 {
        PlaceIsSound(rest, job, cap, after, got');
        assert took ==> Place(rest, job, cap, after, got').nodes[|got|] == n;
      } else {
        TakenIff(rest, k - 1, job, cap, after, got');
        AvailableBefore(online, k, job, cap, loads, after);
      }
    }
  }

  /** Charging is exact if and only if no sum wraps at a node the walk reaches. */
  lemma ChargeExactIff(job: Job, online: seq<nat>, cap: nat, loads: seq<NodeLoad>)
    requires Distinct(online)
    ensures var a := Allocate(job, online, cap, loads);
            (forall n: nat :: n < |loads|
                ==> a.loads[n].used == loads[n].used + (if n in a.nodes then job.memory else 0))
            <==> (forall k: nat :: Reached(online, k, job, cap, loads, 0) ==> loads[online[k]].used + job.memory < U64)
  {
    PlaceIsSound(online, job, cap, loads, []);
    var a := Allocate(job, online, cap, loads);
    forall n: nat | n < |loads| && n in a.nodes
      ensures a.loads[n].used == loads[n].used + job.memory <==> loads[n].used + job.memory < U64
      ensures exists k: nat :: Reached(online, k, job, cap, loads, 0) && online[k] == n
    {
      assert a.loads[n] == Bump(loads[n], job);
      var k: nat :| k < |online| && online[k] == n;
      TakenIff(online, k, job, cap, loads, []);
    }
    forall k: nat | Reached(online, k, job, cap, loads, 0) ensures online[k] in a.nodes {
      TakenIff(online, k, job, cap, loads, []);
    }
  }

  /** Otherwise a node can be taken that has no room at all, and is left as if it were empty. */
  lemma FullNodeIsTaken(job: Job, load: NodeLoad)
    requires job.requested == 1 && job.memory == load.used == U64 / 2
    ensures CanAllocate(job, [0], 0, [load])
    ensures Allocate(job, [0], 0, [load]) == Placement([0], [NodeLoad(0, load.jobs + 1)])
  {
    var online: seq<nat> := [0];
    assert Offers(0, job, 0, [load]);
    assert online[1..] == [] && Available(online, job, 0, [load]) == 1 + Available([], job, 0, [load]);
    assert Place(online, job, 0, [load], []) == Place([], job, 0, [load][0 := Bump(load, job)], [] + [0]);
    assert [load][0 := Bump(load, job)] == [Bump(load, job)] && [] + online == online;
  }

  // ---------------------------------------------------------------- the scheduling loop

  datatype Pass = Pass(kept: seq<Job>, started: seq<Job>, loads: seq<NodeLoad>)

  function Run(job: Job, nodes: seq<nat>, now: nat): Job {
    job.(nodes := nodes, status := RUNNING, started := now)
  }

  /** Walk the queue once: start what fits now, keep the rest in order. */
  function Schedule(queue: seq<Job>, online: seq<nat>, cap: nat, loads: seq<NodeLoad>, now: nat): (p: Pass)
    ensures |p.loads| == |loads|
    ensures |p.kept| + |p.started| == |queue|
  {
    if queue == [] then Pass([], [], loads)
    else if CanAllocate(queue[0], online, cap, loads) then
      var a := Allocate(queue[0], online, cap, loads);
      var p := Schedule(queue[1..], online, cap, a.loads, now);
      p.(started := [Run(queue[0], a.nodes, now)] + p.started)
    else
      var p := Schedule(queue[1..], online, cap, loads, now);
      p.(kept := [queue[0]] + p.kept)
  }

  /** No 64-bit sum of a node's load, or of the capacity, and a queued job's memory overflows. */
  predicate NoOverflow(queue: seq<Job>, cap: nat, loads: seq<NodeLoad>) {
    forall j, n: nat :: j in queue && n < |loads| ==> NoWrap(j, loads[n], cap)
  }

  predicate NoWrap(job: Job, load: NodeLoad, cap: nat) {
    load.used + job.memory < U64 && cap + job.memory < U64
  }

  /** Memory of the jobs in `jobs` that hold node `n`. */
  function MemoryOn(jobs: seq<Job>, n: nat): nat {
    if jobs == [] then 0 else (if n in jobs[0].nodes then jobs[0].memory else 0) + MemoryOn(jobs[1..], n)
  }

  predicate Grown(a: seq<NodeLoad>, b: seq<NodeLoad>) {
    |a| == |b| && forall n :: 0 <= n < |a| ==> a[n].used <= b[n].used < U64
  }

  lemma {:induction false} LessAvailable(online: seq<nat>, job: Job, cap: nat, a: seq<NodeLoad>, b: seq<NodeLoad>)
    requires Grown(a, b) && forall n :: 0 <= n < |b| ==> b[n].used + job.memory < U64
    ensures Available(online, job, cap, b) <= Available(online, job, cap, a)
    decreases |online|
  {
    if online != [] { LessAvailable(online[1..], job, cap, a, b); }
  }

  predicate WellPlaced(job: Job, online: seq<nat>) {
    && |job.nodes| == job.requested && Distinct(job.nodes) && job.status == RUNNING
    && forall n :: n in job.nodes ==> n in online
  }

  /** What one walk of the queue guarantees. */
  predicate GoodPass(queue: seq<Job>, online: seq<nat>, cap: nat, loads: seq<NodeLoad>, p: Pass) {
    && |p.loads| == |loads|
    && (forall i :: 0 <= i < |p.started| ==> WellPlaced(p.started[i], online))
    && (forall n: nat :: n < |loads| ==> p.loads[n].used == loads[n].used + MemoryOn(p.started, n))
    && (forall n: nat, i :: n < |loads| && 0 <= i < |p.started| && n in p.started[i].nodes ==> p.loads[n].used <= cap)
    && (forall i :: 0 <= i < |p.kept| ==> !CanAllocate(p.kept[i], online, cap, p.loads))
    && (forall n: nat :: n < |loads| ==> p.loads[n].used == loads[n].used || p.loads[n].used <= cap)
  }

  lemma StartOne(job: Job, queue: seq<Job>, online: seq<nat>, cap: nat, loads: seq<NodeLoad>)
    requires Distinct(online) && NoOverflow([job] + queue, cap, loads) && CanAllocate(job, online, cap, loads)
    ensures var a := Allocate(job, online, cap, loads);
            && |a.nodes| == job.requested && Distinct(a.nodes) && (forall n :: n in a.nodes ==> n in online)
            && NoOverflow(queue, cap, a.loads)
            && (forall n: nat :: n < |loads| ==>
                 a.loads[n].used == loads[n].used + (if n in a.nodes then job.memory else 0))
            && (forall n: nat :: n < |loads| && n in a.nodes ==> a.loads[n].used <= cap)
  {
    PlaceIsSound(online, job, cap, loads, []);
    var a := Allocate(job, online, cap, loads);
    assert job in [job] + queue;
    forall j, n: nat | j in queue && n < |a.loads| ensures NoWrap(j, a.loads[n], cap) {
      assert j in [job] + queue;
      assert NoWrap(j, loads[n], cap) && NoWrap(job, loads[n], cap);
    }
    forall n: nat | n < |loads|
      ensures a.loads[n].used == loads[n].used + (if n in a.nodes then job.memory else 0)
    {
      assert NoWrap(job, loads[n], cap);
    }
  }

  /** Started jobs have exactly the nodes they asked for, distinct and online; every node's load
      grows by exactly the memory of the jobs placed on it and stays within the capacity where
      something was placed; and every job left in the queue still does not fit at the end, so no
      later job took the place of an earlier one that would have fit at its turn. */
  lemma {:induction false} ScheduleIsGood(queue: seq<Job>, online: seq<nat>, cap: nat, loads: seq<NodeLoad>, now: nat)
    requires Distinct(online) && NoOverflow(queue, cap, loads)
    ensures GoodPass(queue, online, cap, loads, Schedule(queue, online, cap, loads, now))
    decreases |queue|
  {
    if queue != [] {
      var job, rest := queue[0], queue[1..];
      assert [job] + rest == queue;
      if CanAllocate(job, online, cap, loads) {
        var a := Allocate(job, online, cap, loads);
        StartOne(job, rest, online, cap, loads);
        ScheduleIsGood(rest, online, cap, a.loads, now);
        AfterStart(job, a, rest, online, cap, loads, now);
      } else {
        assert forall j :: j in rest ==> j in queue;
        ScheduleIsGood(rest, online, cap, loads, now);
        AfterKeep(job, rest, online, cap, loads, now);
      }
    }
  }

  lemma AfterStart(job: Job, a: Placement, rest: seq<Job>, online: seq<nat>, cap: nat, loads: seq<NodeLoad>, now: nat)
    requires Distinct(online) && NoOverflow([job] + rest, cap, loads) && CanAllocate(job, online, cap, loads)
    requires a == Allocate(job, online, cap, loads)
    requires GoodPass(rest, online, cap, a.loads, Schedule(rest, online, cap, a.loads, now))
    ensures var p := Schedule(rest, online, cap, a.loads, now);
            GoodPass([job] + rest, online, cap, loads, p.(started := [Run(job, a.nodes, now)] + p.started))
  {
    StartOne(job, rest, online, cap, loads);
    var p, first := Schedule(rest, online, cap, a.loads, now), Run(job, a.nodes, now);
    var all := [first] + p.started;
    assert all[1..] == p.started;
    forall n: nat, i | n < |loads| && 0 <= i < |all| && n in all[i].nodes ensures p.loads[n].used <= cap {
      if i > 0 { assert all[i] == p.started[i - 1]; }
    }
  }

  lemma AfterKeep(job: Job, rest: seq<Job>, online: seq<nat>, cap: nat, loads: seq<NodeLoad>, now: nat)
    requires NoOverflow([job] + rest, cap, loads) && !CanAllocate(job, online, cap, loads)
    requires GoodPass(rest, online, cap, loads, Schedule(rest, online, cap, loads, now))
    ensures var p := Schedule(rest, online, cap, loads, now);
            GoodPass([job] + rest, online, cap, loads, p.(kept := [job] + p.kept))
  {
    var p := Schedule(rest, online, cap, loads, now);
    assert job in [job] + rest;
    forall n | 0 <= n < |loads| ensures loads[n].used <= p.loads[n].used < U64 && p.loads[n].used + job.memory < U64 {
      assert NoWrap(job, loads[n], cap);
    }
    LessAvailable(online, job, cap, loads, p.loads);
  }
}
