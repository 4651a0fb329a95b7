/** What submit, cancel, complete, fair-share and preemption do to the records of jobs and tenants, field by
    field and without the functions that do it. */
module Records {
  import opened Common
  import opened Jobs
  import opened Scheduling

  // ---------------------------------------------------------------- submit and cancel

  /** A submitted job keeps every field its caller gave, and goes to the end of the queue. */
  lemma SubmitShape(s: State, job: Job, now: nat)
    ensures var r := Submit(s, job, now);
            && r.queue == s.queue + [Job(s.nextId, job.owner, job.requested, job.memory, job.priority, PENDING,
                                         job.nodes, now, job.started, job.completed)]
            && r.nextId == s.nextId + 1 && r.active == s.active && r.history == s.history
            && r.tenants == s.tenants && r.cancelled == s.cancelled
  {
  }

  predicate FirstAt(jobs: seq<Job>, i: nat, id: nat) {
    i < |jobs| && jobs[i].id == id && forall k :: 0 <= k < i ==> jobs[k].id != id
  }

  predicate Absent(jobs: seq<Job>, id: nat) {
    forall k :: 0 <= k < |jobs| ==> jobs[k].id != id
  }

  predicate SameElsewhere(s: State, r: State) {
    r.nextId == s.nextId && r.tenants == s.tenants
  }

  /** A queued job disappears and leaves nothing in history. */
  lemma CancelQueued(s: State, id: nat, now: nat, i: nat)
    requires FirstAt(s.queue, i, id)
    ensures var r := Cancel(s, id, now);
            && r.queue == s.queue[..i] + s.queue[i + 1..] && r.active == s.active && r.history == s.history
            && r.cancelled == s.cancelled + [id] && SameElsewhere(s, r)
  {
    FindFirst(s.queue, id, i);
  }

  /** A running job is recorded as failed, now, with every other field as it was. */
  lemma CancelActive(s: State, id: nat, now: nat, i: nat)
    requires Absent(s.queue, id) && FirstAt(s.active, i, id)
    ensures var r, j := Cancel(s, id, now), s.active[i];
            && r.active == s.active[..i] + s.active[i + 1..] && r.queue == s.queue && r.cancelled == s.cancelled
            && r.history == s.history + [Job(j.id, j.owner, j.requested, j.memory, j.priority, FAILED,
                                             j.nodes, j.submitted, j.started, now)]
            && SameElsewhere(s, r)
  {
    FindFirst(s.active, id, i);
    FindNone(s.queue, id);
  }

  lemma CancelUnknown(s: State, id: nat, now: nat)
    requires Absent(s.queue, id) && Absent(s.active, id)
    ensures Cancel(s, id, now) == s
  {
    FindNone(s.queue, id);
    FindNone(s.active, id);
  }

  lemma FindFirst(jobs: seq<Job>, id: nat, i: nat)
    requires FirstAt(jobs, i, id)
    ensures Find(jobs, id) == i
  {
  }

  lemma FindNone(jobs: seq<Job>, id: nat)
    requires Absent(jobs, id)
    ensures Find(jobs, id) == |jobs|
  {
  }

  // ---------------------------------------------------------------- tenants

  /** Node seconds recorded for an owner. */
  function SecondsOf(tenants: seq<Tenant>, owner: string): nat {
    if tenants == [] then 0
    else (if tenants[0].owner == owner then tenants[0].seconds else 0) + SecondsOf(tenants[1..], owner)
  }

  predicate IsTenant(tenants: seq<Tenant>, owner: string) {
    exists i :: 0 <= i < |tenants| && tenants[i].owner == owner
  }

  predicate OneEach(tenants: seq<Tenant>) {
    forall i, j :: 0 <= i < j < |tenants| ==> tenants[i].owner != tenants[j].owner
  }

  /** Charging an owner changes that owner's seconds and no others', and makes at most that one tenant. */
  lemma {:induction false} ChargeTenant(tenants: seq<Tenant>, owner: string, seconds: nat, other: string)
    ensures var r := AddSeconds(tenants, owner, seconds);
            && SecondsOf(r, other) == SecondsOf(tenants, other) + (if other == owner then seconds else 0)
            && TotalSeconds(r) == TotalSeconds(tenants) + seconds
            && (IsTenant(r, other) <==> IsTenant(tenants, other) || other == owner)
    decreases |tenants|
  {
    var r := AddSeconds(tenants, owner, seconds);
    if tenants == [] {
      assert r[0].owner == owner && r[1..] == [];
    } else {
      var rest := tenants[1..];
      assert IsTenant(tenants, other) <==> tenants[0].owner == other || IsTenant(rest, other) by {
        TenantHead(tenants, other);
      }
      TenantHead(r, other);
      if tenants[0].owner == owner {
        assert r[1..] == rest;
      } else {
        ChargeTenant(rest, owner, seconds, other);
        assert r[1..] == AddSeconds(rest, owner, seconds);
      }
    }
  }

  lemma TenantHead(tenants: seq<Tenant>, owner: string)
    requires tenants != []
    ensures IsTenant(tenants, owner) <==> tenants[0].owner == owner || IsTenant(tenants[1..], owner)
  {
    if i :| 0 <= i < |tenants[1..]| && tenants[1..][i].owner == owner {
      assert tenants[i + 1].owner == owner;
    }
    if i :| 0 <= i < |tenants| && tenants[i].owner == owner {
      assert i > 0 ==> tenants[1..][i - 1].owner == owner;
    }
  }

  lemma {:induction false} ChargeKeepsOneEach(tenants: seq<Tenant>, owner: string, seconds: nat)
    requires OneEach(tenants)
    ensures OneEach(AddSeconds(tenants, owner, seconds))
    decreases |tenants|
  {
    if tenants != [] && tenants[0].owner != owner {
      var rest := tenants[1..];
      var r := AddSeconds(rest, owner, seconds);
      assert OneEach(rest);
      ChargeKeepsOneEach(rest, owner, seconds);
      ChargeTenant(rest, owner, seconds, tenants[0].owner);
      assert !IsTenant(rest, tenants[0].owner);
      forall j | 0 <= j < |r| ensures r[j].owner != tenants[0].owner {
        assert r[j].owner == tenants[0].owner ==> IsTenant(r, tenants[0].owner);
      }
    }
  }

  // ---------------------------------------------------------------- complete

  /** Whole seconds from start to `now`, on the 64-bit clock. */
  lemma ElapsedIs(job: Job, now: nat)
    requires job.started <= now < U64
    ensures Elapsed(job, now) == (now - job.started) / 1_000_000
  {
  }

  /** The job moves to the end of history with only its status and completion time changed: COMPLETED exactly
      on success.  The others stay active in order, and the owner is charged its whole seconds on each node. */
  lemma CompleteShape(s: State, id: nat, success: bool, now: nat, i: nat, other: string)
    requires FirstAt(s.active, i, id)
    ensures var r, j := Complete(s, id, success, now), s.active[i];
            && r.active == s.active[..i] + s.active[i + 1..] && r.queue == s.queue
            && r.nextId == s.nextId && r.cancelled == s.cancelled
            && (exists done :: r.history == s.history + [done] && Done(j, success, now, done))
            && SecondsOf(r.tenants, other) == SecondsOf(s.tenants, other)
                 + (if other == j.owner && j.started > 0 then Elapsed(j, now) * |j.nodes| else 0)
            && (OneEach(s.tenants) ==> OneEach(r.tenants))
  {
    var r, j := Complete(s, id, success, now), s.active[i];
    FindFirst(s.active, id, i);
    var done := r.history[|s.history|];
    assert r.history == s.history + [done] && Done(j, success, now, done);
    ChargeTenant(s.tenants, j.owner, Elapsed(j, now) * |j.nodes|, other);
    if OneEach(s.tenants) { ChargeKeepsOneEach(s.tenants, j.owner, Elapsed(j, now) * |j.nodes|); }
  }

  predicate Done(j: Job, success: bool, now: nat, done: Job) {
    && (done.status == COMPLETED <==> success) && (done.status == FAILED <==> !success) && done.completed == now
    && done == Job(j.id, j.owner, j.requested, j.memory, j.priority, done.status, j.nodes, j.submitted, j.started, now)
  }

  lemma CompleteUnknown(s: State, id: nat, success: bool, now: nat)
    requires Absent(s.active, id)
    ensures Complete(s, id, success, now) == s
  {
    FindNone(s.active, id);
  }

  // ---------------------------------------------------------------- fair-share

  lemma {:induction false} FoundTenant(tenants: seq<Tenant>, owner: string)
    requires OneEach(tenants)
    ensures var i := FindTenant(tenants, owner);
            (i < |tenants| <==> IsTenant(tenants, owner))
            && (i < |tenants| ==> tenants[i].seconds == SecondsOf(tenants, owner))
            && (i == |tenants| ==> SecondsOf(tenants, owner) == 0)
    decreases |tenants|
  {
    if tenants != [] {
      TenantHead(tenants, owner);
      assert OneEach(tenants[1..]);
      FoundTenant(tenants[1..], owner);
      if tenants[0].owner == owner {
        assert !IsTenant(tenants[1..], owner);
      }
    }
  }

  /** A share below one over n, in whole numbers. */
  lemma ShareIff(x: nat, total: nat, n: nat)
    requires total > 0 && n > 0
    ensures x as real / total as real < 1.0 / n as real <==> x * n < total
  {
    var a, b, c := x as real, total as real, n as real;
    var q := a / b;
    assert q * b == a;
    var h := 1.0 / c;
    assert h * c == 1.0;
    ScaleLess(q, h, b * c);
    assert q * (b * c) == a * c && h * (b * c) == b;
    assert (x * n) as real == a * c;
  }

  lemma ScaleLess(p: real, q: real, k: real)
    requires k > 0.0
    ensures p < q <==> p * k < q * k
  {
    if p < q { assert (q - p) * k > 0.0; } else { assert (p - q) * k >= 0.0; }
  }

  /** Exactly the LOW jobs of tenants that have run, but less than an equal share of all node seconds, become
      NORMAL; nothing else about a job changes. */
  lemma BoostIff(job: Job, tenants: seq<Tenant>)
    requires OneEach(tenants)
    ensures var r := Boosted(job, tenants);
            && r == job.(priority := r.priority)
            && r.priority == (if job.priority == LOW && IsTenant(tenants, job.owner) && TotalSeconds(tenants) > 0
                                 && SecondsOf(tenants, job.owner) * |tenants| < TotalSeconds(tenants)
                              then NORMAL else job.priority)
  {
    FoundTenant(tenants, job.owner);
    if IsTenant(tenants, job.owner) && TotalSeconds(tenants) > 0 {
      ShareIff(SecondsOf(tenants, job.owner), TotalSeconds(tenants), |tenants|);
    }
  }

  /** Over every run there is one entry for each tenant. */
  lemma {:induction false} TenantsDiffer(C: Config, s: State, ops: seq<Op>)
    requires OneEach(s.tenants)
    ensures OneEach(Exec(C, s, ops).tenants)
    decreases |ops|
  {
    if ops != [] {
      TenantsStep(C, s, ops[0]);
      TenantsDiffer(C, Do(C, s, ops[0]), ops[1..]);
    }
  }

  lemma TenantsStep(C: Config, s: State, op: Op)
    requires OneEach(s.tenants)
    ensures OneEach(Do(C, s, op).tenants)
  {
    match op
    case OpComplete(id, success, now) =>
      if Find(s.active, id) < |s.active| {
        var j := s.active[Find(s.active, id)];
        ChargeKeepsOneEach(s.tenants, j.owner, Elapsed(j, now) * |j.nodes|);
      }
    case OpTick(sorted, online, loads, now) => TickTenants(C, s, sorted, online, loads, now);
    case OpEvict(node, now) => EvictTenants(s.active, s.(active := []), node, now);
    case _ =>
  }

  lemma TickTenants(C: Config, s: State, sorted: seq<Job>, online: seq<nat>, loads: seq<NodeLoad>, now: nat)
    ensures DoTick(C, s, sorted, online, loads, now).s.tenants == s.tenants
  {
    var t := Start(s, sorted, online, C.cap, loads, now);
    PreemptTenants(t.s.queue, t, online, C.cap, now);
  }

  lemma {:induction false} PreemptTenants(jobs: seq<Job>, t: Tick, online: seq<nat>, cap: nat, now: nat)
    ensures Preempt(jobs, t, online, cap, now).s.tenants == t.s.tenants
    decreases |jobs|
  {
    if jobs != [] {
      if !Urgent(jobs[0]) || CanAllocate(jobs[0], online, cap, t.loads) {
        PreemptTenants(jobs[1..], t, online, cap, now);
      } else {
        PreemptTenants(jobs[1..], PreemptFor(jobs[0], t, online, cap, now), online, cap, now);
      }
    }
  }

  lemma {:induction false} EvictTenants(jobs: seq<Job>, s: State, n: nat, now: nat)
    ensures EvictFrom(jobs, s, n, now).tenants == s.tenants
    decreases |jobs|
  {
    if jobs != [] {
      var job := Evicted(jobs[0], n, now);
      if n !in jobs[0].nodes {
        EvictTenants(jobs[1..], if Gone(job) then s else s.(active := s.active + [job]), n, now);
      } else if job.nodes == [] {
        EvictTenants(jobs[1..], s.(history := s.history + [job]), n, now);
      } else {
        EvictTenants(jobs[1..], s.(queue := [job] + s.queue), n, now);
      }
    }
  }

  // ---------------------------------------------------------------- preemption

  predicate MayPreempt(job: Job) {
    job.priority == HIGH || job.priority == CRITICAL
  }

  /** LOW, and on at least as many nodes. */
  predicate CanMakeWay(active: Job, requested: nat) {
    active.priority == LOW && |active.nodes| >= requested
  }

  predicate FirstToGo(active: seq<Job>, v: nat, requested: nat) {
    v < |active| && CanMakeWay(active[v], requested) && forall i :: 0 <= i < v ==> !CanMakeWay(active[i], requested)
  }

  lemma {:induction false} VictimFirst(active: seq<Job>, requested: nat)
    ensures var v := Victim(active, requested);
            (v < |active| ==> FirstToGo(active, v, requested))
            && (v == |active| ==> forall i :: 0 <= i < |active| ==> !CanMakeWay(active[i], requested))
    decreases |active|
  {
    if active != [] {
      VictimFirst(active[1..], requested);
      assert forall i :: 1 <= i < |active| ==> active[i] == active[1..][i - 1];
    }
  }

  lemma FirstIsVictim(active: seq<Job>, v: nat, requested: nat)
    requires FirstToGo(active, v, requested)
    ensures Victim(active, requested) == v
  {
    VictimFirst(active, requested);
    assert CanMakeWay(active[v], requested);
  }

  /** The clean-up keeps exactly the jobs that hold a node, in order. */
  lemma {:induction false} CompactSplits(a: seq<Job>, b: seq<Job>)
    ensures Compact(a + b) == Compact(a) + Compact(b)
    decreases |a|
  {
    if a == [] {
      assert a + b == b;
    } else {
      assert (a + b)[1..] == a[1..] + b;
      CompactSplits(a[1..], b);
    }
  }

  lemma CompactOne(job: Job)
    ensures Compact([job]) == if job.nodes == [] then [] else [job]
  {
    assert [job][1..] == [];
  }

  /** An urgent job that does not fit pushes out the first active LOW job on at least as many nodes, if there
      is one: that job, marked for rescheduling, is at the front of the queue, and gone from the active jobs. */
  lemma PreemptsFirst(job: Job, t: Tick, online: seq<nat>, cap: nat, now: nat, v: nat)
    requires !CanAllocate(job, online, cap, t.loads) && FirstToGo(t.s.active, v, job.requested)
    ensures var r, j := PreemptFor(job, t, online, cap, now).s, t.s.active[v];
            && r.queue == [Job(j.id, j.owner, j.requested, j.memory, LOW, RESCHEDULING,
                               j.nodes, j.submitted, j.started, j.completed)] + t.s.queue
            && r.active == Compact(t.s.active[..v]) + Compact(t.s.active[v + 1..])
  {
    FirstIsVictim(t.s.active, v, job.requested);
    var a, b := t.s.active[..v], t.s.active[v + 1..];
    assert t.s.active[v := BLANK] == a + ([BLANK] + b);
    CompactSplits(a, [BLANK] + b);
    CompactSplits([BLANK], b);
    CompactOne(BLANK);
    assert [] + Compact(b) == Compact(b);
  }

  lemma PreemptsNobody(job: Job, t: Tick, online: seq<nat>, cap: nat, now: nat)
    requires !CanAllocate(job, online, cap, t.loads)
    requires forall i :: 0 <= i < |t.s.active| ==> !CanMakeWay(t.s.active[i], job.requested)
    ensures var r := PreemptFor(job, t, online, cap, now).s;
            r.queue == t.s.queue && r.active == Compact(t.s.active)
  {
    VictimFirst(t.s.active, job.requested);
  }

  /** Jobs that are neither HIGH nor CRITICAL, or that fit, push nobody out. */
  lemma {:induction false} OnlyUrgentPreempt(jobs: seq<Job>, t: Tick, online: seq<nat>, cap: nat, now: nat)
    requires forall i :: 0 <= i < |jobs| ==> !MayPreempt(jobs[i]) || CanAllocate(jobs[i], online, cap, t.loads)
    ensures Preempt(jobs, t, online, cap, now) == t
    decreases |jobs|
  {
    if jobs != [] { OnlyUrgentPreempt(jobs[1..], t, online, cap, now); }
  }

  /** The pass goes through the queue in order: the first HIGH or CRITICAL job that does not fit is served, then
      the rest of the queue. */
  lemma {:induction false} FirstUrgentServed(jobs: seq<Job>, t: Tick, online: seq<nat>, cap: nat, now: nat, k: nat)
    requires k < |jobs| && MayPreempt(jobs[k]) && !CanAllocate(jobs[k], online, cap, t.loads)
    requires forall i :: 0 <= i < k ==> !MayPreempt(jobs[i]) || CanAllocate(jobs[i], online, cap, t.loads)
    ensures Preempt(jobs, t, online, cap, now)
         == Preempt(jobs[k + 1..], PreemptFor(jobs[k], t, online, cap, now), online, cap, now)
    decreases k
  {
    if k > 0 {
      FirstUrgentServed(jobs[1..], t, online, cap, now, k - 1);
      assert jobs[1..][k..] == jobs[k + 1..];
    }
  }
}
