/** The scheduler as a machine on values: submit, cancel, complete, tick and evict, and what every
    run of them keeps. */
module Scheduling {
  import opened Common
  import opened Jobs

  datatype Tenant = Tenant(owner: string, seconds: nat)

  /** `cancelled` remembers the ids cancelled while pending; the source forgets them. */
  datatype State = State(queue: seq<Job>, active: seq<Job>, history: seq<Job>, nextId: nat, tenants: seq<Tenant>,
      cancelled: seq<nat>)

  datatype Config = Config(cap: nat, preemption: bool)

  function Find(jobs: seq<Job>, id: nat): (i: nat)
    ensures i <= |jobs| && (i < |jobs| ==> jobs[i].id == id)
    ensures forall k :: 0 <= k < i ==> jobs[k].id != id
  {
    if jobs == [] then 0 else if jobs[0].id == id then 0 else 1 + Find(jobs[1..], id)
  }

  function Drop(jobs: seq<Job>, i: nat): seq<Job>
    requires i < |jobs|
  {
    jobs[..i] + jobs[i + 1..]
  }

  // ---------------------------------------------------------------- submit, cancel, complete

  function Submit(s: State, job: Job, now: nat): State {
    s.(queue := s.queue + [job.(id := s.nextId, status := PENDING, submitted := now)], nextId := s.nextId + 1)
  }

  function Cancel(s: State, id: nat, now: nat): State {
    var q, a := Find(s.queue, id), Find(s.active, id);
    if q < |s.queue| then s.(queue := Drop(s.queue, q), cancelled := s.cancelled + [id])
    else if a < |s.active| then
      s.(active := Drop(s.active, a), history := s.history + [s.active[a].(status := FAILED, completed := now)])
    else s
  }

  function AddSeconds(tenants: seq<Tenant>, owner: string, seconds: nat): seq<Tenant> {
    if tenants == [] then [Tenant(owner, seconds)]
    else if tenants[0].owner == owner then [Tenant(owner, tenants[0].seconds + seconds)] + tenants[1..]
    else [tenants[0]] + AddSeconds(tenants[1..], owner, seconds)
  }

  /** Whole seconds on the 64-bit microsecond clock. */
  function Elapsed(job: Job, now: nat): nat {
    ((now - job.started) % U64) / 1_000_000
  }

  function Complete(s: State, id: nat, success: bool, now: nat): State {
    var a := Find(s.active, id);
    if a == |s.active| then s
    else
      var job := s.active[a];
      s.(active := Drop(s.active, a),
         history := s.history + [job.(status := if success then COMPLETED else FAILED, completed := now)],
         tenants := if job.started > 0
             then AddSeconds(s.tenants, job.owner, Elapsed(job, now) * |job.nodes|) else s.tenants)
  }

  // ---------------------------------------------------------------- tick

  /** Priority first, then submission time. */
  predicate Before(a: Job, b: Job) {
    Rank(a.priority) > Rank(b.priority) || (a.priority == b.priority && a.submitted < b.submitted)
  }

  /** Any result `std::sort` may give: it need not be stable. */
  predicate IsSorting(sorted: seq<Job>, queue: seq<Job>) {
    multiset(sorted) == multiset(queue) && InOrder(sorted)
  }

  predicate InOrder(jobs: seq<Job>) {
    forall i, j :: 0 <= i < j < |jobs| ==> !Before(jobs[j], jobs[i])
  }

  lemma {:induction false} InsertInOrder(jobs: seq<Job>, job: Job) returns (all: seq<Job>)
    requires InOrder(jobs)
    ensures InOrder(all) && multiset(all) == multiset(jobs) + multiset{job}
    decreases |jobs|
  {
    if jobs == [] || !Before(jobs[0], job) {
      all := [job] + jobs;
    } else {
      var first, rest := jobs[0], jobs[1..];
      assert jobs == [first] + rest;
      var inserted := InsertInOrder(rest, job);
      all := [first] + inserted;
      forall j | 0 <= j < |inserted| ensures !Before(inserted[j], first) {
        assert inserted[j] in multiset(rest) + multiset{job};
        if inserted[j] in rest {
          var i :| 0 <= i < |rest| && rest[i] == inserted[j];
          assert jobs[i + 1] == rest[i];
        }
      }
    }
  }

  /** The order is one that a queue can be put in. */
  lemma {:induction false} CanSort(queue: seq<Job>) returns (sorted: seq<Job>)
    ensures IsSorting(sorted, queue)
    decreases |queue|
  {
    if queue == [] {
      sorted := [];
    } else {
      var rest := CanSort(queue[1..]);
      assert queue == [queue[0]] + queue[1..];
      sorted := InsertInOrder(rest, queue[0]);
    }
  }

  function TotalSeconds(tenants: seq<Tenant>): nat {
    if tenants == [] then 0 else tenants[0].seconds + TotalSeconds(tenants[1..])
  }

  function FindTenant(tenants: seq<Tenant>, owner: string): (i: nat)
    ensures i <= |tenants|
  {
    if tenants == [] || tenants[0].owner == owner then 0 else 1 + FindTenant(tenants[1..], owner)
  }

  /** The tenant has run, but less than an equal share of all node seconds. */
  predicate BelowShare(tenants: seq<Tenant>, owner: string) {
    var i, total := FindTenant(tenants, owner), TotalSeconds(tenants);
    i < |tenants| && total > 0 && tenants[i].seconds as real / total as real < 1.0 / |tenants| as real
  }

  function Boosted(job: Job, tenants: seq<Tenant>): Job {
    if job.priority == LOW && BelowShare(tenants, job.owner) then job.(priority := NORMAL) else job
  }

  function Boost(queue: seq<Job>, tenants: seq<Tenant>): (q: seq<Job>)
    ensures |q| == |queue| && forall i :: 0 <= i < |q| ==> q[i] == Boosted(queue[i], tenants)
  {
    seq(|queue|, i requires 0 <= i < |queue| => Boosted(queue[i], tenants))
  }

  const BLANK := Job(0, "", 0, 0, NORMAL, PENDING, [], 0, 0, 0)

  /** The first active job that a job asking for `requested` nodes may push out. */
  function Victim(active: seq<Job>, requested: nat): (v: nat)
    ensures v <= |active|
    ensures v < |active| ==> active[v].priority == LOW && |active[v].nodes| >= requested
  {
    if active == [] then 0
    else if active[0].priority == LOW && |active[0].nodes| >= requested then 0
    else 1 + Victim(active[1..], requested)
  }

  function Compact(active: seq<Job>): seq<Job> {
    if active == [] then []
    else (if active[0].nodes == [] then [] else [active[0]]) + Compact(active[1..])
  }

  datatype Tick = Tick(s: State, loads: seq<NodeLoad>, started: nat)

  function Mutate(queue: seq<Job>, job: Job): seq<Job> {
    var i := Find(queue, job.id);
    if i < |queue| then queue[i := job] else queue
  }

  /** One urgent job that does not fit: push out a LOW job, try again, clean up. */
  function PreemptFor(job: Job, t: Tick, online: seq<nat>, cap: nat, now: nat): Tick {
    var v := Victim(t.s.active, job.requested);
    if v == |t.s.active| then t.(s := t.s.(active := Compact(t.s.active)))
    else
      var out := t.s.active[v].(status := RESCHEDULING);
      var s := t.s.(queue := [out] + t.s.queue, active := t.s.active[v := BLANK]);
      if CanAllocate(job, online, cap, t.loads) then
        var a := Allocate(job, online, cap, t.loads);
        var run := Run(job, a.nodes, now);
        Tick(s.(queue := Mutate(s.queue, run), active := Compact(s.active + [run])), a.loads, t.started + 1)
      else t.(s := s.(active := Compact(s.active)))
  }

  predicate Urgent(job: Job) {
    Rank(job.priority) >= Rank(HIGH)
  }

  /** The preemption pass over the jobs that were queued when it began. */
  function Preempt(jobs: seq<Job>, t: Tick, online: seq<nat>, cap: nat, now: nat): Tick
    decreases |jobs|
  {
    if jobs == [] then t
    else if !Urgent(jobs[0]) || CanAllocate(jobs[0], online, cap, t.loads) then Preempt(jobs[1..], t, online, cap, now)
    else Preempt(jobs[1..], PreemptFor(jobs[0], t, online, cap, now), online, cap, now)
  }

  function Start(s: State, sorted: seq<Job>, online: seq<nat>, cap: nat, loads: seq<NodeLoad>, now: nat): Tick {
    var p := Schedule(Boost(sorted, s.tenants), online, cap, loads, now);
    Tick(s.(queue := p.kept, active := s.active + p.started), p.loads, |p.started|)
  }

  function DoTick(C: Config, s: State, sorted: seq<Job>, online: seq<nat>, loads: seq<NodeLoad>, now: nat): Tick {
    var t := Start(s, sorted, online, C.cap, loads, now);
    if C.preemption then Preempt(t.s.queue, t, online, C.cap, now) else t
  }

  // ---------------------------------------------------------------- evict

  function Without(nodes: seq<nat>, n: nat): (rest: seq<nat>)
    ensures n !in nodes ==> rest == nodes
  {
    if nodes == [] then [] else if nodes[0] == n then nodes[1..] else [nodes[0]] + Without(nodes[1..], n)
  }

  function Evicted(job: Job, n: nat, now: nat): Job {
    if n !in job.nodes then job
    else
      var left := Without(job.nodes, n);
      if left == [] then job.(nodes := left, status := FAILED, completed := now)
      else job.(nodes := left, status := RESCHEDULING)
  }

  /** Go through the active jobs: each one that loses its last node fails, each one that keeps some
      goes to the front of the queue, and neither stays active. */
  function EvictFrom(jobs: seq<Job>, s: State, n: nat, now: nat): State
    decreases |jobs|
  {
    if jobs == [] then s
    else
      var job := Evicted(jobs[0], n, now);
      if n !in jobs[0].nodes then
        EvictFrom(jobs[1..], if Gone(job) then s else s.(active := s.active + [job]), n, now)
      else if job.nodes == [] then EvictFrom(jobs[1..], s.(history := s.history + [job]), n, now)
      else EvictFrom(jobs[1..], s.(queue := [job] + s.queue), n, now)
  }

  predicate Gone(job: Job) {
    job.status == FAILED || job.status == RESCHEDULING
  }

  function Evict(s: State, n: nat, now: nat): State {
    EvictFrom(s.active, s.(active := []), n, now)
  }

  // ---------------------------------------------------------------- conservation

  /** How many of the jobs carry this id. */
  function Count(jobs: seq<Job>, id: nat): nat {
    if jobs == [] then 0 else (if jobs[0].id == id then 1 else 0) + Count(jobs[1..], id)
  }

  lemma {:induction false} CountConcat(a: seq<Job>, b: seq<Job>, id: nat)
    ensures Count(a + b, id) == Count(a, id) + Count(b, id)
    decreases |a|
  {
    if a == [] {
      assert a + b == b;
    } else {
      CountConcat(a[1..], b, id);
      assert (a + b)[1..] == a[1..] + b;
    }
  }

  lemma CountSnoc(jobs: seq<Job>, job: Job, id: nat)
    ensures Count(jobs + [job], id) == Count(jobs, id) + (if job.id == id then 1 else 0)
  {
    CountConcat(jobs, [job], id);
  }

  lemma CountCons(job: Job, jobs: seq<Job>, id: nat)
    ensures Count([job] + jobs, id) == Count(jobs, id) + (if job.id == id then 1 else 0)
  {
    assert ([job] + jobs)[1..] == jobs;
  }

  lemma CountDrop(jobs: seq<Job>, i: nat, id: nat)
    requires i < |jobs|
    ensures Count(jobs, id) == Count(Drop(jobs, i), id) + (if jobs[i].id == id then 1 else 0)
  {
    CountConcat(jobs[..i], jobs[i + 1..], id);
    CountConcat(jobs[..i], jobs[i..], id);
    assert jobs == jobs[..i] + jobs[i..];
    assert jobs[i..][1..] == jobs[i + 1..];
  }

  lemma {:induction false} CountSame(a: seq<Job>, b: seq<Job>, id: nat)
    requires |a| == |b| && forall i :: 0 <= i < |a| ==> a[i].id == b[i].id
    ensures Count(a, id) == Count(b, id)
    decreases |a|
  {
    if a != [] { CountSame(a[1..], b[1..], id); }
  }

  lemma DropMultiset(jobs: seq<Job>, i: nat)
    requires i < |jobs|
    ensures multiset(jobs) == multiset(Drop(jobs, i)) + multiset{jobs[i]}
  {
    assert jobs == jobs[..i] + [jobs[i]] + jobs[i + 1..];
  }

  lemma {:induction false} CountPermutation(a: seq<Job>, b: seq<Job>, id: nat)
    requires multiset(a) == multiset(b)
    ensures Count(a, id) == Count(b, id)
    decreases |a|
  {
    if a == [] {
      assert |multiset(b)| == |b|;
    } else {
      assert a[0] in multiset(b);
      var i :| 0 <= i < |b| && b[i] == a[0];
      DropMultiset(a, 0);
      DropMultiset(b, i);
      assert Drop(a, 0) == a[1..];
      assert multiset(a[1..]) == multiset(a) - multiset{a[0]} == multiset(Drop(b, i));
      CountPermutation(a[1..], Drop(b, i), id);
      CountDrop(b, i, id);
    }
  }

  function CountIds(ids: seq<nat>, id: nat): nat {
    if ids == [] then 0 else CountIds(ids[..|ids| - 1], id) + (if ids[|ids| - 1] == id then 1 else 0)
  }

  /** In how many places an id is to be found. */
  function Places(s: State, id: nat): nat {
    Count(s.queue, id) + Count(s.active, id) + Count(s.history, id) + CountIds(s.cancelled, id)
  }

  /** Running, on distinct nodes, and on some node if it asked for any. */
  predicate RunningJob(job: Job, least: nat) {
    job.status == RUNNING && Distinct(job.nodes) && job.requested >= least && (job.requested >= 1 ==> job.nodes != [])
  }

  predicate AllRun(jobs: seq<Job>, least: nat) {
    forall i :: 0 <= i < |jobs| ==> RunningJob(jobs[i], least)
  }

  predicate AllAsk(jobs: seq<Job>, least: nat) {
    forall i :: 0 <= i < |jobs| ==> jobs[i].requested >= least
  }

  predicate JobsOk(s: State, least: nat) {
    AllRun(s.active, least) && AllAsk(s.queue, least)
  }

  predicate AskedNothing(jobs: seq<Job>, least: nat) {
    (forall i :: 0 <= i < |jobs| ==> jobs[i].requested == 0) && (least >= 1 ==> jobs == [])
  }

  /** Every id ever issued is in exactly one place, the jobs that clean-ups have dropped being one of
      them, and no other id is anywhere.  Only jobs that asked for no node are ever dropped.  All
      submitted jobs asked for at least `least` nodes. */
  ghost predicate Inv(s: State, lost: seq<Job>, least: nat) {
    && s.nextId >= 1
    && (forall id: nat :: Places(s, id) + Count(lost, id) == if 1 <= id < s.nextId then 1 else 0)
    && JobsOk(s, least) && AskedNothing(lost, least)
  }

  lemma SubmitPlaces(s: State, job: Job, now: nat, id: nat)
    ensures Places(Submit(s, job, now), id) == Places(s, id) + (if id == s.nextId then 1 else 0)
  {
    CountSnoc(s.queue, job.(id := s.nextId, status := PENDING, submitted := now), id);
  }

  lemma CancelPlaces(s: State, job: nat, now: nat, id: nat)
    ensures Places(Cancel(s, job, now), id) == Places(s, id)
  {
    var q, a := Find(s.queue, job), Find(s.active, job);
    if q < |s.queue| {
      CountDrop(s.queue, q, id);
      assert (s.cancelled + [job])[..|s.cancelled|] == s.cancelled;
    } else if a < |s.active| {
      CountDrop(s.active, a, id);
      CountSnoc(s.history, s.active[a].(status := FAILED, completed := now), id);
    }
  }

  lemma CompletePlaces(s: State, job: nat, success: bool, now: nat, id: nat)
    ensures Places(Complete(s, job, success, now), id) == Places(s, id)
  {
    var a := Find(s.active, job);
    if a < |s.active| {
      CountDrop(s.active, a, id);
      CountSnoc(s.history, s.active[a].(status := if success then COMPLETED else FAILED, completed := now), id);
    }
  }

  // ---------------------------------------------------------------- tick conserves

  lemma {:induction false} SchedulePlaces(queue: seq<Job>, online: seq<nat>, cap: nat, loads: seq<NodeLoad>,
                                          now: nat, id: nat)
    ensures var p := Schedule(queue, online, cap, loads, now);
            Count(p.kept, id) + Count(p.started, id) == Count(queue, id)
    decreases |queue|
  {
    if queue != [] {
      if CanAllocate(queue[0], online, cap, loads) {
        var a := Allocate(queue[0], online, cap, loads);
        SchedulePlaces(queue[1..], online, cap, a.loads, now, id);
        CountCons(Run(queue[0], a.nodes, now), Schedule(queue[1..], online, cap, a.loads, now).started, id);
      } else {
        SchedulePlaces(queue[1..], online, cap, loads, now, id);
        CountCons(queue[0], Schedule(queue[1..], online, cap, loads, now).kept, id);
      }
    }
  }

  lemma {:induction false} ScheduleJobs(queue: seq<Job>, online: seq<nat>, cap: nat, loads: seq<NodeLoad>,
                                        now: nat, least: nat)
    requires Distinct(online) && AllAsk(queue, least)
    ensures AllRun(Schedule(queue, online, cap, loads, now).started, least)
    ensures AllAsk(Schedule(queue, online, cap, loads, now).kept, least)
    decreases |queue|
  {
    if queue != [] {
      var job, rest := queue[0], queue[1..];
      assert AllAsk(rest, least);
      if CanAllocate(job, online, cap, loads) {
        var a := Allocate(job, online, cap, loads);
        PlaceIsSound(online, job, cap, loads, []);
        ScheduleJobs(rest, online, cap, a.loads, now, least);
        var p := Schedule(rest, online, cap, a.loads, now);
        assert Schedule(queue, online, cap, loads, now) == p.(started := [Run(job, a.nodes, now)] + p.started);
      } else {
        ScheduleJobs(rest, online, cap, loads, now, least);
        var p := Schedule(rest, online, cap, loads, now);
        assert Schedule(queue, online, cap, loads, now) == p.(kept := [job] + p.kept);
      }
    }
  }

  lemma StartPlaces(s: State, sorted: seq<Job>, online: seq<nat>, cap: nat, loads: seq<NodeLoad>, now: nat, id: nat)
    requires IsSorting(sorted, s.queue)
    ensures Places(Start(s, sorted, online, cap, loads, now).s, id) == Places(s, id)
  {
    var q := Boost(sorted, s.tenants);
    var p := Schedule(q, online, cap, loads, now);
    CountPermutation(sorted, s.queue, id);
    CountSame(sorted, q, id);
    SchedulePlaces(q, online, cap, loads, now, id);
    CountConcat(s.active, p.started, id);
  }

  lemma StartJobs(s: State, sorted: seq<Job>, online: seq<nat>, cap: nat, loads: seq<NodeLoad>, now: nat, least: nat)
    requires IsSorting(sorted, s.queue) && JobsOk(s, least) && Distinct(online)
    ensures JobsOk(Start(s, sorted, online, cap, loads, now).s, least)
  {
    var q := Boost(sorted, s.tenants);
    forall i | 0 <= i < |q| ensures q[i].requested >= least {
      assert sorted[i] in multiset(sorted);
      assert sorted[i] in s.queue;
    }
    assert AllAsk(q, least);
    ScheduleJobs(q, online, cap, loads, now, least);
  }

  /** Jobs on no node at all, which a clean-up would drop. */
  function Idle(active: seq<Job>): seq<Job> {
    if active == [] then []
    else (if active[0].nodes == [] then [active[0]] else []) + Idle(active[1..])
  }

  lemma {:induction false} CompactPlaces(active: seq<Job>, id: nat)
    ensures Count(Compact(active), id) + Count(Idle(active), id) == Count(active, id)
    decreases |active|
  {
    if active != [] {
      CompactPlaces(active[1..], id);
      CountCons(active[0], Compact(active[1..]), id);
      CountCons(active[0], Idle(active[1..]), id);
      assert [] + Compact(active[1..]) == Compact(active[1..]) && [] + Idle(active[1..]) == Idle(active[1..]);
    }
  }

  lemma {:induction false} CompactIsBusy(active: seq<Job>)
    ensures Idle(Compact(active)) == []
    ensures forall i :: 0 <= i < |Compact(active)| ==> Compact(active)[i] in active
    decreases |active|
  {
    if active != [] {
      CompactIsBusy(active[1..]);
      var rest := Compact(active[1..]);
      assert ([active[0]] + rest)[1..] == rest;
      assert [] + rest == rest;
    }
  }

  lemma {:induction false} IdleBlanked(active: seq<Job>, v: nat, id: nat)
    requires v < |active| && active[v].nodes != []
    ensures Count(Idle(active[v := BLANK]), id) == Count(Idle(active), id) + (if id == 0 then 1 else 0)
    decreases |active|
  {
    var b := active[v := BLANK];
    if v == 0 {
      assert b[1..] == active[1..];
      CountCons(BLANK, Idle(active[1..]), id);
      assert [] + Idle(active[1..]) == Idle(active[1..]);
    } else {
      assert b[1..] == active[1..][v - 1 := BLANK];
      IdleBlanked(active[1..], v - 1, id);
      CountCons(active[0], Idle(active[1..]), id);
      CountCons(active[0], Idle(b[1..]), id);
      assert [] + Idle(active[1..]) == Idle(active[1..]) && [] + Idle(b[1..]) == Idle(b[1..]);
    }
  }

  /** One urgent job that does not fit: the retry sees the very loads that just failed, so it is
      never taken, and nothing is lost except jobs that hold no node. */
  lemma PreemptForPlaces(job: Job, t: Tick, online: seq<nat>, cap: nat, now: nat, id: nat)
    requires !CanAllocate(job, online, cap, t.loads)
    ensures var r := PreemptFor(job, t, online, cap, now);
            && Places(r.s, id) + Count(Idle(t.s.active), id) == Places(t.s, id)
            && Idle(r.s.active) == [] && r.loads == t.loads && r.started == t.started
  {
    var v := Victim(t.s.active, job.requested);
    var active := t.s.active;
    if v == |active| {
      CompactPlaces(active, id);
      CompactIsBusy(active);
    } else {
      var blanked := active[v := BLANK];
      CompactPlaces(blanked, id);
      CompactIsBusy(blanked);
      IdleBlanked(active, v, id);
      CountDrop(active, v, id);
      CountDrop(blanked, v, id);
      assert Drop(active, v) == Drop(blanked, v);
      CountCons(active[v].(status := RESCHEDULING), t.s.queue, id);
    }
  }

  lemma PreemptForJobs(job: Job, t: Tick, online: seq<nat>, cap: nat, now: nat, least: nat)
    requires !CanAllocate(job, online, cap, t.loads) && JobsOk(t.s, least)
    ensures JobsOk(PreemptFor(job, t, online, cap, now).s, least)
  {
    var v, active := Victim(t.s.active, job.requested), t.s.active;
    if v == |active| {
      CompactIsBusy(active);
    } else {
      CompactIsBusy(active[v := BLANK]);
      BusyMember(active[v := BLANK]);
    }
  }

  lemma {:induction false} BusyMember(active: seq<Job>)
    ensures forall i :: 0 <= i < |Compact(active)| ==> Compact(active)[i].nodes != []
    decreases |active|
  {
    if active != [] { BusyMember(active[1..]); }
  }

  predicate Triggered(jobs: seq<Job>, online: seq<nat>, cap: nat, loads: seq<NodeLoad>) {
    exists i :: 0 <= i < |jobs| && Urgent(jobs[i]) && !CanAllocate(jobs[i], online, cap, loads)
  }

  /** The whole pass: loads stay, nothing starts, and what gets lost is exactly the jobs that hold
      no node, when some urgent job does not fit. */
  lemma {:induction false} PreemptPlaces(jobs: seq<Job>, t: Tick, online: seq<nat>, cap: nat, now: nat, id: nat)
    ensures var r := Preempt(jobs, t, online, cap, now);
            && r.loads == t.loads && r.started == t.started
            && Places(r.s, id) + (if Triggered(jobs, online, cap, t.loads)
                then Count(Idle(t.s.active), id) else 0) == Places(t.s, id)
    decreases |jobs|
  {
    if jobs != [] {
      var rest := jobs[1..];
      assert Triggered(rest, online, cap, t.loads) ==> Triggered(jobs, online, cap, t.loads) by {
        if i :| 0 <= i < |rest| && Urgent(rest[i]) && !CanAllocate(rest[i], online, cap, t.loads) {
          assert Urgent(jobs[i + 1]) && !CanAllocate(jobs[i + 1], online, cap, t.loads);
        }
      }
      if !Urgent(jobs[0]) || CanAllocate(jobs[0], online, cap, t.loads) {
        if i :| 0 <= i < |jobs| && Urgent(jobs[i]) && !CanAllocate(jobs[i], online, cap, t.loads) {
          assert rest[i - 1] == jobs[i];
        }
        PreemptPlaces(rest, t, online, cap, now, id);
      } else {
        PreemptForPlaces(jobs[0], t, online, cap, now, id);
        PreemptPlaces(rest, PreemptFor(jobs[0], t, online, cap, now), online, cap, now, id);
      }
    }
  }

  /** `out` is the active job `job`, pushed out. */
  predicate PushedOut(job: Job, out: Job) {
    job.priority == LOW && out == job.(status := RESCHEDULING)
  }

  predicate CameFrom(out: Job, active: seq<Job>) {
    exists i :: 0 <= i < |active| && PushedOut(active[i], out)
  }

  /** Everything pushed out was an active LOW job; every active job that holds a node is still active
      or was pushed out; nothing else has become active. */
  predicate OnlyLowLeave(pushed: seq<Job>, before: seq<Job>, after: seq<Job>) {
    && (forall i :: 0 <= i < |pushed| ==> CameFrom(pushed[i], before))
    && (forall job :: job in before && job.nodes != [] ==> job in after || Left(job, pushed))
    && (forall job :: job in after ==> job in before)
  }

  /** What a preemption does: `pushed` waits in front, history stays, and only LOW jobs leave. */
  predicate PushesOut(pushed: seq<Job>, s: State, r: State) {
    r.queue == pushed + s.queue && r.history == s.history && OnlyLowLeave(pushed, s.active, r.active)
  }

  predicate Left(job: Job, pushed: seq<Job>) {
    job.priority == LOW && job.(status := RESCHEDULING) in pushed
  }

  lemma {:induction false} CompactKeeps(active: seq<Job>, job: Job)
    requires job in active && job.nodes != []
    ensures job in Compact(active)
    decreases |active|
  {
    if job != active[0] {
      assert job in active[1..];
      CompactKeeps(active[1..], job);
    }
  }

  lemma CompactLeave(active: seq<Job>)
    ensures OnlyLowLeave([], active, Compact(active))
  {
    CompactIsBusy(active);
    forall job | job in active && job.nodes != [] ensures job in Compact(active) {
      CompactKeeps(active, job);
    }
  }

  lemma PreemptForShape(job: Job, t: Tick, online: seq<nat>, cap: nat, now: nat) returns (pushed: seq<Job>)
    requires !CanAllocate(job, online, cap, t.loads)
    ensures var r := PreemptFor(job, t, online, cap, now);
            PushesOut(pushed, t.s, r.s)
  {
    var v, active := Victim(t.s.active, job.requested), t.s.active;
    if v == |active| {
      pushed := [];
      CompactLeave(active);
    } else {
      var out, blanked := active[v].(status := RESCHEDULING), active[v := BLANK];
      pushed := [out];
      assert PushedOut(active[v], out);
      CompactLeave(blanked);
      BusyMember(blanked);
      forall j | j in active && j.nodes != [] ensures j in Compact(blanked) || Left(j, pushed) {
        var i :| 0 <= i < |active| && active[i] == j;
        assert i != v ==> blanked[i] == j;
      }
      forall j | j in Compact(blanked) ensures j in active {
        var i :| 0 <= i < |blanked| && blanked[i] == j;
        assert i != v ==> active[i] == j;
      }
    }
  }

  lemma LeaveTwice(first: seq<Job>, second: seq<Job>, a: seq<Job>, b: seq<Job>, c: seq<Job>)
    requires OnlyLowLeave(first, a, b) && OnlyLowLeave(second, b, c)
    ensures OnlyLowLeave(second + first, a, c)
  {
    var all := second + first;
    forall i | 0 <= i < |all| ensures CameFrom(all[i], a) {
      if i < |second| {
        assert CameFrom(second[i], b);
        var k :| 0 <= k < |b| && PushedOut(b[k], second[i]);
        assert b[k] in a;
        var j :| 0 <= j < |a| && a[j] == b[k];
        assert PushedOut(a[j], all[i]);
      } else {
        assert CameFrom(first[i - |second|], a);
      }
    }
  }

  lemma PushTwice(first: seq<Job>, second: seq<Job>, a: State, b: State, c: State)
    requires PushesOut(first, a, b) && PushesOut(second, b, c)
    ensures PushesOut(second + first, a, c)
  {
    LeaveTwice(first, second, a.active, b.active, c.active);
    assert second + (first + a.queue) == (second + first) + a.queue;
  }

  /** The preemption pass: the jobs pushed out were active and LOW, they wait in front of what was
      already queued, and no other job that holds a node leaves. */
  lemma {:induction false} PreemptShape(jobs: seq<Job>, t: Tick, online: seq<nat>, cap: nat, now: nat)
    returns (pushed: seq<Job>)
    ensures var r := Preempt(jobs, t, online, cap, now);
            PushesOut(pushed, t.s, r.s)
    decreases |jobs|
  {
    if jobs == [] {
      pushed := [];
      assert [] + t.s.queue == t.s.queue;
    } else if !Urgent(jobs[0]) || CanAllocate(jobs[0], online, cap, t.loads) {
      pushed := PreemptShape(jobs[1..], t, online, cap, now);
    } else {
      var t' := PreemptFor(jobs[0], t, online, cap, now);
      var first := PreemptForShape(jobs[0], t, online, cap, now);
      var later := PreemptShape(jobs[1..], t', online, cap, now);
      PushTwice(first, later, t.s, t'.s, Preempt(jobs[1..], t', online, cap, now).s);
      pushed := later + first;
    }
  }

  lemma {:induction false} PreemptJobs(jobs: seq<Job>, t: Tick, online: seq<nat>, cap: nat, now: nat, least: nat)
    requires JobsOk(t.s, least)
    ensures JobsOk(Preempt(jobs, t, online, cap, now).s, least)
    decreases |jobs|
  {
    if jobs != [] {
      if !Urgent(jobs[0]) || CanAllocate(jobs[0], online, cap, t.loads) {
        PreemptJobs(jobs[1..], t, online, cap, now, least);
      } else {
        PreemptForJobs(jobs[0], t, online, cap, now, least);
        PreemptJobs(jobs[1..], PreemptFor(jobs[0], t, online, cap, now), online, cap, now, least);
      }
    }
  }

  lemma {:induction false} IdleAskedNothing(active: seq<Job>, least: nat)
    requires AllRun(active, least)
    ensures AskedNothing(Idle(active), least)
    decreases |active|
  {
    if active != [] {
      assert RunningJob(active[0], least);
      assert AllRun(active[1..], least);
      IdleAskedNothing(active[1..], least);
    }
  }

  /** A clean-up runs and there is something for it to lose. */
  predicate Loses(C: Config, t: Tick, online: seq<nat>) {
    C.preemption && Triggered(t.s.queue, online, C.cap, t.loads) && Idle(t.s.active) != []
  }

  predicate OnNone(jobs: seq<Job>) {
    exists job :: job in jobs && job.nodes == []
  }

  predicate AsksNone(jobs: seq<Job>) {
    exists job :: job in jobs && job.requested == 0
  }

  lemma {:induction false} IdleIff(active: seq<Job>)
    ensures Idle(active) != [] <==> OnNone(active)
    decreases |active|
  {
    if active != [] {
      IdleIff(active[1..]);
      assert forall job :: job in active <==> job == active[0] || job in active[1..];
    }
  }

  lemma {:induction false} PlaceExtends(online: seq<nat>, job: Job, cap: nat, loads: seq<NodeLoad>, got: seq<nat>)
    ensures got <= Place(online, job, cap, loads, got).nodes
    decreases |online|
  {
    if online != [] && |got| < job.requested {
      if Offers(online[0], job, cap, loads) {
        PlaceExtends(online[1..], job, cap, loads[online[0] := Bump(loads[online[0]], job)], got + [online[0]]);
      } else {
        PlaceExtends(online[1..], job, cap, loads, got);
      }
    }
  }

  /** A job that is placed gets no node exactly if it asked for none. */
  lemma {:induction false} NoNodeIff(online: seq<nat>, job: Job, cap: nat, loads: seq<NodeLoad>)
    requires job.requested == 0 || Available(online, job, cap, loads) >= 1
    ensures Allocate(job, online, cap, loads).nodes == [] <==> job.requested == 0
    decreases |online|
  {
    if job.requested >= 1 {
      var n := online[0];
      if Offers(n, job, cap, loads) {
        assert [] + [n] == [n];
        PlaceExtends(online[1..], job, cap, loads[n := Bump(loads[n], job)], [n]);
      } else {
        NoNodeIff(online[1..], job, cap, loads);
      }
    }
  }

  lemma {:induction false} StartedIdle(queue: seq<Job>, online: seq<nat>, cap: nat, loads: seq<NodeLoad>, now: nat)
    ensures OnNone(Schedule(queue, online, cap, loads, now).started) <==> AsksNone(queue)
    decreases |queue|
  {
    if queue != [] {
      var job, rest := queue[0], queue[1..];
      assert forall j :: j in queue <==> j == job || j in rest;
      if CanAllocate(job, online, cap, loads) {
        var a := Allocate(job, online, cap, loads);
        var p := Schedule(rest, online, cap, a.loads, now);
        NoNodeIff(online, job, cap, loads);
        StartedIdle(rest, online, cap, a.loads, now);
        assert forall j :: j in [Run(job, a.nodes, now)] + p.started <==> j == Run(job, a.nodes, now) || j in p.started;
      } else {
        StartedIdle(rest, online, cap, loads, now);
      }
    }
  }

  lemma AsksNoneBoosted(jobs: seq<Job>, tenants: seq<Tenant>)
    ensures AsksNone(Boost(jobs, tenants)) <==> AsksNone(jobs)
  {
    var q := Boost(jobs, tenants);
    if job :| job in jobs && job.requested == 0 {
      var i :| 0 <= i < |jobs| && jobs[i] == job;
      assert q[i] == Boosted(jobs[i], tenants) && q[i] in q;
    }
    if job :| job in q && job.requested == 0 {
      var i :| 0 <= i < |q| && q[i] == job;
      assert q[i] == Boosted(jobs[i], tenants) && jobs[i] in jobs;
    }
  }

  lemma SameMembers(a: seq<Job>, b: seq<Job>, job: Job)
    requires multiset(a) == multiset(b)
    ensures job in a <==> job in b
  {
    assert job in a <==> job in multiset(a);
    assert job in b <==> job in multiset(b);
  }

  lemma AsksNoneSorted(sorted: seq<Job>, queue: seq<Job>)
    requires multiset(sorted) == multiset(queue)
    ensures AsksNone(sorted) <==> AsksNone(queue)
  {
    if job :| job in sorted && job.requested == 0 { SameMembers(sorted, queue, job); }
    if job :| job in queue && job.requested == 0 { SameMembers(sorted, queue, job); }
  }

  /** After the starting pass some active job has no node exactly if one had none before, or a queued job
      asks for none. */
  lemma NodelessIff(s: State, sorted: seq<Job>, online: seq<nat>, cap: nat, loads: seq<NodeLoad>, now: nat)
    requires IsSorting(sorted, s.queue)
    ensures Idle(Start(s, sorted, online, cap, loads, now).s.active) != [] <==> OnNone(s.active) || AsksNone(s.queue)
  {
    var q := Boost(sorted, s.tenants);
    var started := Schedule(q, online, cap, loads, now).started;
    IdleIff(s.active + started);
    StartedIdle(q, online, cap, loads, now);
    AsksNoneBoosted(sorted, s.tenants);
    AsksNoneSorted(sorted, s.queue);
    assert forall job :: job in s.active + started <==> job in s.active || job in started;
  }

  /** A tick keeps every job exactly when no active job is without nodes and no queued job asks for none, or
      no clean-up runs because every urgent job was placed or could be. */
  lemma TickConservesIff(C: Config, s: State, sorted: seq<Job>, online: seq<nat>, loads: seq<NodeLoad>, now: nat)
    requires IsSorting(sorted, s.queue)
    ensures var t := Start(s, sorted, online, C.cap, loads, now);
            (forall id: nat :: Places(DoTick(C, s, sorted, online, loads, now).s, id) == Places(s, id))
            <==> !(C.preemption && (OnNone(s.active) || AsksNone(s.queue))
                   && Triggered(t.s.queue, online, C.cap, t.loads))
  {
    NodelessIff(s, sorted, online, C.cap, loads, now);
    var t := Start(s, sorted, online, C.cap, loads, now);
    forall id: nat
      ensures Places(DoTick(C, s, sorted, online, loads, now).s, id)
              + (if Loses(C, t, online) then Count(Idle(t.s.active), id) else 0) == Places(s, id)
    {
      TickPlaces(C, s, sorted, online, loads, now, id);
    }
    if Loses(C, t, online) {
      assert Count(Idle(t.s.active), Idle(t.s.active)[0].id) > 0;
    }
  }

  /** What a tick loses. */
  function TickLoses(C: Config, s: State, sorted: seq<Job>, online: seq<nat>, loads: seq<NodeLoad>, now: nat)
    : seq<Job>
  {
    var t := Start(s, sorted, online, C.cap, loads, now);
    if Loses(C, t, online) then Idle(t.s.active) else []
  }

  lemma TickPlaces(C: Config, s: State, sorted: seq<Job>, online: seq<nat>, loads: seq<NodeLoad>, now: nat, id: nat)
    requires IsSorting(sorted, s.queue)
    ensures Places(DoTick(C, s, sorted, online, loads, now).s, id)
            + Count(TickLoses(C, s, sorted, online, loads, now), id) == Places(s, id)
  {
    var t := Start(s, sorted, online, C.cap, loads, now);
    StartPlaces(s, sorted, online, C.cap, loads, now, id);
    if C.preemption { PreemptPlaces(t.s.queue, t, online, C.cap, now, id); }
  }

  lemma AskedConcat(a: seq<Job>, b: seq<Job>, least: nat)
    requires AskedNothing(a, least) && AskedNothing(b, least)
    ensures AskedNothing(a + b, least)
  {
    forall i | 0 <= i < |a + b| ensures (a + b)[i].requested == 0 {
      assert (a + b)[i] == if i < |a| then a[i] else b[i - |a|];
    }
  }

  lemma TickInv(C: Config, s: State, lost: seq<Job>, least: nat,
                sorted: seq<Job>, online: seq<nat>, loads: seq<NodeLoad>, now: nat)
    requires Inv(s, lost, least) && IsSorting(sorted, s.queue) && Distinct(online)
    ensures Inv(DoTick(C, s, sorted, online, loads, now).s, lost + TickLoses(C, s, sorted, online, loads, now), least)
  {
    var t, more := Start(s, sorted, online, C.cap, loads, now), TickLoses(C, s, sorted, online, loads, now);
    StartJobs(s, sorted, online, C.cap, loads, now, least);
    IdleAskedNothing(t.s.active, least);
    PreemptJobs(t.s.queue, t, online, C.cap, now, least);
    AskedConcat(lost, more, least);
    TickKeepsNext(C, s, sorted, online, loads, now);
    forall id: nat
      ensures Places(DoTick(C, s, sorted, online, loads, now).s, id) + Count(lost + more, id)
          == Places(s, id) + Count(lost, id)
    {
      TickPlaces(C, s, sorted, online, loads, now, id);
      CountConcat(lost, more, id);
    }
  }

  lemma {:induction false} PreemptKeepsNext(jobs: seq<Job>, t: Tick, online: seq<nat>, cap: nat, now: nat)
    ensures Preempt(jobs, t, online, cap, now).s.nextId == t.s.nextId
    decreases |jobs|
  {
    if jobs != [] {
      if !Urgent(jobs[0]) || CanAllocate(jobs[0], online, cap, t.loads) {
        PreemptKeepsNext(jobs[1..], t, online, cap, now);
      } else {
        PreemptKeepsNext(jobs[1..], PreemptFor(jobs[0], t, online, cap, now), online, cap, now);
      }
    }
  }

  lemma TickKeepsNext(C: Config, s: State, sorted: seq<Job>, online: seq<nat>, loads: seq<NodeLoad>, now: nat)
    ensures DoTick(C, s, sorted, online, loads, now).s.nextId == s.nextId
  {
    var t := Start(s, sorted, online, C.cap, loads, now);
    PreemptKeepsNext(t.s.queue, t, online, C.cap, now);
  }

  /** The tick as a whole: the walk of the sorted, boosted queue is good, the preemption pass leaves
      its loads alone, and what it could not place is still queued, behind pushed-out LOW jobs. */
  lemma TickIsGood(C: Config, s: State, sorted: seq<Job>, online: seq<nat>, loads: seq<NodeLoad>, now: nat)
    returns (pushed: seq<Job>)
    requires Distinct(online) && NoOverflow(Boost(sorted, s.tenants), C.cap, loads)
    ensures var p := Schedule(Boost(sorted, s.tenants), online, C.cap, loads, now);
            var r := DoTick(C, s, sorted, online, loads, now);
            && GoodPass(Boost(sorted, s.tenants), online, C.cap, loads, p)
            && r.loads == p.loads && r.started == |p.started|
            && r.s.queue == pushed + p.kept
            && (forall i :: 0 <= i < |p.kept| ==> !CanAllocate(p.kept[i], online, C.cap, r.loads))
            && OnlyLowLeave(pushed, s.active + p.started, r.s.active)
  {
    var q := Boost(sorted, s.tenants);
    ScheduleIsGood(q, online, C.cap, loads, now);
    var t := Start(s, sorted, online, C.cap, loads, now);
    pushed := [];
    if C.preemption {
      PreemptPlaces(t.s.queue, t, online, C.cap, now, 0);
      pushed := PreemptShape(t.s.queue, t, online, C.cap, now);
    }
  }

  // ---------------------------------------------------------------- eviction conserves

  lemma {:induction false} WithoutGone(nodes: seq<nat>, n: nat)
    requires Distinct(nodes)
    ensures n !in Without(nodes, n) && Distinct(Without(nodes, n))
    ensures forall m :: m in Without(nodes, n) ==> m in nodes
    decreases |nodes|
  {
    if nodes != [] {
      assert Distinct(nodes[1..]) && nodes[0] !in nodes[1..];
      WithoutGone(nodes[1..], n);
    }
  }

  predicate Clear(active: seq<Job>, n: nat) {
    forall i :: 0 <= i < |active| ==> n !in active[i].nodes
  }

  lemma {:induction false} EvictStep(jobs: seq<Job>, s: State, n: nat, now: nat, id: nat)
    requires AllRun(jobs, 0)
    ensures Places(EvictFrom(jobs, s, n, now), id) == Places(s, id) + Count(jobs, id)
    decreases |jobs|
  {
    if jobs != [] {
      var job, rest := Evicted(jobs[0], n, now), jobs[1..];
      assert RunningJob(jobs[0], 0) && AllRun(rest, 0);
      if n !in jobs[0].nodes {
        CountSnoc(s.active, job, id);
        EvictStep(rest, s.(active := s.active + [job]), n, now, id);
      } else if job.nodes == [] {
        CountSnoc(s.history, job, id);
        EvictStep(rest, s.(history := s.history + [job]), n, now, id);
      } else {
        CountCons(job, s.queue, id);
        EvictStep(rest, s.(queue := [job] + s.queue), n, now, id);
      }
    }
  }

  lemma {:induction false} EvictJobs(jobs: seq<Job>, s: State, n: nat, now: nat, least: nat)
    requires AllRun(jobs, least) && JobsOk(s, least) && Clear(s.active, n)
    ensures JobsOk(EvictFrom(jobs, s, n, now), least) && Clear(EvictFrom(jobs, s, n, now).active, n)
    ensures EvictFrom(jobs, s, n, now).nextId == s.nextId
    decreases |jobs|
  {
    if jobs != [] {
      var job, rest := Evicted(jobs[0], n, now), jobs[1..];
      assert RunningJob(jobs[0], least) && AllRun(rest, least);
      if n !in jobs[0].nodes {
        EvictJobs(rest, s.(active := s.active + [job]), n, now, least);
      } else if job.nodes == [] {
        EvictJobs(rest, s.(history := s.history + [job]), n, now, least);
      } else {
        EvictJobs(rest, s.(queue := [job] + s.queue), n, now, least);
      }
    }
  }

  /** Eviction loses no job, and afterwards no active job is assigned to the node. */
  lemma EvictInv(s: State, lost: seq<Job>, least: nat, n: nat, now: nat)
    requires Inv(s, lost, least)
    ensures Inv(Evict(s, n, now), lost, least) && Clear(Evict(s, n, now).active, n)
  {
    assert forall i :: 0 <= i < |s.active| ==> RunningJob(s.active[i], least);
    forall id: nat ensures Places(Evict(s, n, now), id) == Places(s, id) {
      EvictStep(s.active, s.(active := []), n, now, id);
    }
    EvictJobs(s.active, s.(active := []), n, now, least);
  }

  /** `out` is the active job `job` without the evicted node, sent back to the queue. */
  predicate Displaced(job: Job, n: nat, out: Job) {
    && n in job.nodes && out == job.(nodes := Without(job.nodes, n), status := RESCHEDULING)
    && out.nodes != [] && n !in out.nodes && Distinct(out.nodes)
  }

  /** `out` is the active job `job` that had no other node. */
  predicate Stranded(job: Job, n: nat, now: nat, out: Job) {
    job.nodes == [n] && out == job.(nodes := [], status := FAILED, completed := now)
  }

  predicate CameBack(out: Job, jobs: seq<Job>, n: nat) {
    exists i :: 0 <= i < |jobs| && Displaced(jobs[i], n, out)
  }

  predicate Died(out: Job, jobs: seq<Job>, n: nat, now: nat) {
    exists i :: 0 <= i < |jobs| && Stranded(jobs[i], n, now, out)
  }

  function Staying(jobs: seq<Job>, n: nat): seq<Job> {
    if jobs == [] then [] else (if n in jobs[0].nodes then [] else [jobs[0]]) + Staying(jobs[1..], n)
  }

  /** What evicting `n` does to active jobs `jobs`: those on other nodes stay, in order; those that keep a
      node wait in front of the queue; those that do not are in history. */
  predicate Evicts(jobs: seq<Job>, n: nat, now: nat, s: State, r: State, moved: seq<Job>, failed: seq<Job>) {
    && r.active == s.active + Staying(jobs, n) && r.queue == moved + s.queue && r.history == s.history + failed
    && (forall i :: 0 <= i < |moved| ==> CameBack(moved[i], jobs, n))
    && (forall i :: 0 <= i < |failed| ==> Died(failed[i], jobs, n, now))
    && |moved| + |failed| + |Staying(jobs, n)| == |jobs|
  }

  lemma EvictedOne(job: Job, n: nat, now: nat)
    requires RunningJob(job, 0) && n in job.nodes
    ensures var out := Evicted(job, n, now);
            if out.nodes == [] then Stranded(job, n, now, out) else Displaced(job, n, out)
  {
    WithoutGone(job.nodes, n);
    OneLess(job.nodes, n);
  }

  lemma {:induction false} OneLess(nodes: seq<nat>, n: nat)
    requires n in nodes
    ensures |Without(nodes, n)| == |nodes| - 1
    ensures Without(nodes, n) == [] ==> nodes == [n]
    decreases |nodes|
  {
    if nodes[0] != n { OneLess(nodes[1..], n); }
  }

  lemma StillCame(jobs: seq<Job>, n: nat, now: nat, out: Job)
    requires jobs != []
    ensures CameBack(out, jobs[1..], n) ==> CameBack(out, jobs, n)
    ensures Died(out, jobs[1..], n, now) ==> Died(out, jobs, n, now)
  {
    if i :| 0 <= i < |jobs[1..]| && Displaced(jobs[1..][i], n, out) {
      assert Displaced(jobs[i + 1], n, out);
    }
    if i :| 0 <= i < |jobs[1..]| && Stranded(jobs[1..][i], n, now, out) {
      assert Stranded(jobs[i + 1], n, now, out);
    }
  }

  /** One more job in front of a list that is dealt with already. */
  lemma EvictsMore(jobs: seq<Job>, n: nat, now: nat, s: State, t: State, r: State, moved: seq<Job>, failed: seq<Job>)
    returns (moved': seq<Job>, failed': seq<Job>)
    requires jobs != [] && RunningJob(jobs[0], 0) && Evicts(jobs[1..], n, now, t, r, moved, failed)
    requires var out := Evicted(jobs[0], n, now);
             t == if n !in jobs[0].nodes then s.(active := s.active + [out])
                  else if out.nodes == [] then s.(history := s.history + [out])
                  else s.(queue := [out] + s.queue)
    ensures Evicts(jobs, n, now, s, r, moved', failed')
  {
    var out, rest := Evicted(jobs[0], n, now), Staying(jobs[1..], n);
    moved', failed' := moved, failed;
    if n !in jobs[0].nodes {
      assert s.active + ([out] + rest) == (s.active + [out]) + rest;
    } else {
      EvictedOne(jobs[0], n, now);
      assert [] + rest == rest;
      if out.nodes == [] {
        failed' := [out] + failed;
        assert s.history + failed' == (s.history + [out]) + failed;
      } else {
        moved' := moved + [out];
        assert moved' + s.queue == moved + ([out] + s.queue);
      }
    }
    forall i | 0 <= i < |moved'| ensures CameBack(moved'[i], jobs, n) {
      if i < |moved| { StillCame(jobs, n, now, moved[i]); }
    }
    forall i | 0 <= i < |failed'| ensures Died(failed'[i], jobs, n, now) {
      if |failed'| == |failed| { StillCame(jobs, n, now, failed[i]); }
      else if i > 0 { StillCame(jobs, n, now, failed[i - 1]); }
    }
  }

  lemma {:induction false} EvictFromShape(jobs: seq<Job>, s: State, n: nat, now: nat)
    returns (moved: seq<Job>, failed: seq<Job>)
    requires AllRun(jobs, 0)
    ensures Evicts(jobs, n, now, s, EvictFrom(jobs, s, n, now), moved, failed)
    decreases |jobs|
  {
    if jobs == [] {
      moved, failed := [], [];
      assert s.active + [] == s.active && [] + s.queue == s.queue && s.history + [] == s.history;
    } else {
      var out := Evicted(jobs[0], n, now);
      assert RunningJob(jobs[0], 0);
      var t := if n !in jobs[0].nodes then s.(active := s.active + [out])
               else if out.nodes == [] then s.(history := s.history + [out])
               else s.(queue := [out] + s.queue);
      moved, failed := EvictFromShape(jobs[1..], t, n, now);
      moved, failed := EvictsMore(jobs, n, now, s, t, EvictFrom(jobs, s, n, now), moved, failed);
    }
  }

  /** Eviction: jobs on other nodes stay active, in order.  A job that keeps a node goes to the front of the
      queue on its other nodes, all distinct and none of them the evicted one.  A job that had only that
      node fails. */
  lemma EvictShape(s: State, n: nat, now: nat) returns (moved: seq<Job>, failed: seq<Job>)
    requires AllRun(s.active, 0)
    ensures Evicts(s.active, n, now, s.(active := []), Evict(s, n, now), moved, failed)
  {
    moved, failed := EvictFromShape(s.active, s.(active := []), n, now);
  }

  // ---------------------------------------------------------------- runs

  datatype Op =
    | OpSubmit(job: Job, now: nat)
    | OpCancel(id: nat, now: nat)
    | OpComplete(id: nat, success: bool, now: nat)
    | OpTick(sorted: seq<Job>, online: seq<nat>, loads: seq<NodeLoad>, now: nat)
    | OpEvict(node: nat, now: nat)

  /** What callers and the sort routine guarantee: node ids are distinct, and jobs ask for at least
      `least` nodes, which may be none. */
  predicate Allowed(s: State, op: Op, least: nat) {
    match op
    case OpSubmit(job, _) => job.requested >= least
    case OpTick(sorted, online, _, _) => IsSorting(sorted, s.queue) && Distinct(online)
    case _ => true
  }

  function Do(C: Config, s: State, op: Op): State {
    match op
    case OpSubmit(job, now) => Submit(s, job, now)
    case OpCancel(id, now) => Cancel(s, id, now)
    case OpComplete(id, success, now) => Complete(s, id, success, now)
    case OpTick(sorted, online, loads, now) => DoTick(C, s, sorted, online, loads, now).s
    case OpEvict(node, now) => Evict(s, node, now)
  }

  /** The jobs an operation drops without a trace. */
  function LostBy(C: Config, s: State, op: Op): seq<Job> {
    match op
    case OpTick(sorted, online, loads, now) => TickLoses(C, s, sorted, online, loads, now)
    case _ => []
  }

  predicate Legal(C: Config, s: State, ops: seq<Op>, least: nat)
    decreases |ops|
  {
    ops == [] || (Allowed(s, ops[0], least) && Legal(C, Do(C, s, ops[0]), ops[1..], least))
  }

  function Exec(C: Config, s: State, ops: seq<Op>): State
    decreases |ops|
  {
    if ops == [] then s else Exec(C, Do(C, s, ops[0]), ops[1..])
  }

  /** What was lost before, and what a run loses. */
  function LostIn(C: Config, s: State, ops: seq<Op>, lost: seq<Job>): seq<Job>
    decreases |ops|
  {
    if ops == [] then lost else LostIn(C, Do(C, s, ops[0]), ops[1..], lost + LostBy(C, s, ops[0]))
  }

  const FRESH := State([], [], [], 1, [], [])

  lemma SubmitInv(s: State, lost: seq<Job>, least: nat, job: Job, now: nat)
    requires Inv(s, lost, least) && job.requested >= least
    ensures Inv(Submit(s, job, now), lost, least)
  {
    forall id: nat ensures Places(Submit(s, job, now), id) == Places(s, id) + (if id == s.nextId then 1 else 0) {
      SubmitPlaces(s, job, now, id);
    }
  }

  lemma CancelInv(s: State, lost: seq<Job>, least: nat, id: nat, now: nat)
    requires Inv(s, lost, least)
    ensures Inv(Cancel(s, id, now), lost, least)
  {
    forall i: nat ensures Places(Cancel(s, id, now), i) == Places(s, i) { CancelPlaces(s, id, now, i); }
  }

  lemma CompleteInv(s: State, lost: seq<Job>, least: nat, id: nat, success: bool, now: nat)
    requires Inv(s, lost, least)
    ensures Inv(Complete(s, id, success, now), lost, least)
  {
    forall i: nat ensures Places(Complete(s, id, success, now), i) == Places(s, i) {
      CompletePlaces(s, id, success, now, i);
    }
  }

  lemma StepInv(C: Config, s: State, lost: seq<Job>, least: nat, op: Op)
    requires Inv(s, lost, least) && Allowed(s, op, least)
    ensures Inv(Do(C, s, op), lost + LostBy(C, s, op), least)
  {
    assert lost + [] == lost;
    match op
    case OpSubmit(job, now) => SubmitInv(s, lost, least, job, now);
    case OpCancel(id, now) => CancelInv(s, lost, least, id, now);
    case OpComplete(id, success, now) => CompleteInv(s, lost, least, id, success, now);
    case OpTick(sorted, online, loads, now) => TickInv(C, s, lost, least, sorted, online, loads, now);
    case OpEvict(node, now) => EvictInv(s, lost, least, node, now);
  }

  lemma {:induction false} RunFrom(C: Config, s: State, lost: seq<Job>, least: nat, ops: seq<Op>)
    requires Inv(s, lost, least) && Legal(C, s, ops, least)
    ensures Inv(Exec(C, s, ops), LostIn(C, s, ops, lost), least)
    decreases |ops|
  {
    if ops != [] {
      StepInv(C, s, lost, least, ops[0]);
      RunFrom(C, Do(C, s, ops[0]), lost + LostBy(C, s, ops[0]), least, ops[1..]);
    }
  }

  /** Over every run from a fresh scheduler, whatever is submitted: each id below the next one to be
      issued is in exactly one of queue, active, history, cancelled-while-pending and dropped by a
      clean-up, and no other id is anywhere.  Only jobs that asked for no node are dropped.  Every active
      job is RUNNING on distinct nodes, on at least one if it asked for any. */
  lemma EveryRun(C: Config, ops: seq<Op>, id: nat)
    requires Legal(C, FRESH, ops, 0)
    ensures var s, lost := Exec(C, FRESH, ops), LostIn(C, FRESH, ops, []);
            && Places(s, id) + Count(lost, id) == (if 1 <= id < s.nextId then 1 else 0)
            && AskedNothing(lost, 0) && AllRun(s.active, 0)
  {
    RunFrom(C, FRESH, [], 0, ops);
  }

  /** If every job asks for a node, none is lost. */
  lemma NothingLost(C: Config, ops: seq<Op>, id: nat)
    requires Legal(C, FRESH, ops, 1)
    ensures LostIn(C, FRESH, ops, []) == []
    ensures Places(Exec(C, FRESH, ops), id) == if 1 <= id < Exec(C, FRESH, ops).nextId then 1 else 0
    ensures AllRun(Exec(C, FRESH, ops).active, 1)
  {
    RunFrom(C, FRESH, [], 1, ops);
  }

  /** Asking for at least one node matters.  A job that asks for none is started on none, and the
      clean-up after the next urgent job that does not fit drops it from the scheduler. */
  lemma ZeroNodeJobIsLost()
    ensures var C := Config(0, true);
            var zero := Job(0, "a", 0, 0, NORMAL, PENDING, [], 0, 0, 0);
            var urgent := Job(0, "b", 1, 0, HIGH, PENDING, [], 0, 0, 0);
            var s1 := Submit(FRESH, zero, 1);
            var s2 := DoTick(C, s1, s1.queue, [], [], 2).s;
            var s3 := Submit(s2, urgent, 3);
            var s4 := DoTick(C, s3, s3.queue, [], [], 4).s;
            Places(s3, 1) == 1 && Places(s4, 1) == 0
  {
    var zero := Job(0, "a", 0, 0, NORMAL, PENDING, [], 0, 0, 0);
    var urgent := Job(0, "b", 1, 0, HIGH, PENDING, [], 0, 0, 0);
    var z1 := zero.(id := 1, submitted := 1);
    var z2 := Run(z1, [], 2);
    var u2 := urgent.(id := 2, submitted := 3);
    var s1 := Submit(FRESH, zero, 1);
    assert s1.queue == [z1];
    assert Boost([z1], []) == [z1];
    assert Schedule([z1], [], 0, [], 2) == Pass([], [z2], []);
    var s2 := State([], [z2], [], 2, [], []);
    assert Start(s1, [z1], [], 0, [], 2) == Tick(s2, [], 1);
    var s3 := Submit(s2, urgent, 3);
    assert s3 == State([u2], [z2], [], 3, [], []);
    assert Boost([u2], []) == [u2];
    assert Schedule([u2], [], 0, [], 4) == Pass([u2], [], []);
    var t := Tick(s3, [], 0);
    assert Start(s3, [u2], [], 0, [], 4) == t;
    assert Compact([z2]) == [];
    assert PreemptFor(u2, t, [], 0, 4) == t.(s := s3.(active := []));
    assert Preempt([u2], t, [], 0, 4) == t.(s := s3.(active := []));
  }
}
