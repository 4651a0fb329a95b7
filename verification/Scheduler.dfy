/** The scheduler as the source has it: an object whose lists the methods update in place, and a
    table of node loads that a tick charges through a reference. */
module SchedulerClass {
  import opened Common
  import opened Jobs
  import opened Scheduling
  import Turns

  class Scheduler {
    const config: Config
    var queue: seq<Job>
    var active: seq<Job>
    var history: seq<Job>
    var nextId: nat
    var tenants: seq<Tenant>
    ghost var cancelled: seq<nat>

    ghost function View(): State
      reads this
    {
      State(queue, active, history, nextId, tenants, cancelled)
    }

    constructor (config: Config)
      ensures this.config == config && View() == FRESH
    {
      this.config := config;
      queue, active, history, nextId, tenants, cancelled := [], [], [], 1, [], [];
    }

    method SubmitJob(job: Job, now: nat) returns (id: nat)
      modifies this
      ensures View() == Submit(old(View()), job, now) && id == old(nextId)
    {
      id := nextId;
      nextId := nextId + 1;
      queue := queue + [job.(id := id, status := PENDING, submitted := now)];
    }

    method CancelJob(id: nat, now: nat) returns (found: bool)
      modifies this
      ensures View() == Cancel(old(View()), id, now)
      ensures found <==> Count(old(queue), id) + Count(old(active), id) > 0
    {
      FindIsCount(queue, id);
      FindIsCount(active, id);
      var q := Find(queue, id);
      if q < |queue| {
        queue := Drop(queue, q);
        cancelled := cancelled + [id];
        return true;
      }
      var a := Find(active, id);
      if a < |active| {
        history := history + [active[a].(status := FAILED, completed := now)];
        active := Drop(active, a);
        return true;
      }
      return false;
    }

    method CompleteJob(id: nat, success: bool, now: nat) returns (found: bool)
      modifies this
      ensures View() == Complete(old(View()), id, success, now)
      ensures found <==> Count(old(active), id) > 0
    {
      FindIsCount(active, id);
      var a := Find(active, id);
      if a == |active| {
        return false;
      }
      var job := active[a].(status := if success then COMPLETED else FAILED, completed := now);
      if job.started > 0 {
        tenants := AddSeconds(tenants, job.owner, Elapsed(job, now) * |job.nodes|);
      }
      history := history + [job];
      active := Drop(active, a);
      return true;
    }

    method CanPlace(job: Job, online: seq<nat>, loads: array<NodeLoad>) returns (ok: bool)
      ensures ok == CanAllocate(job, online, config.cap, loads[..])
    {
      var available := 0;
      for i := 0 to |online|
        invariant available + Available(online[i..], job, config.cap, loads[..])
            == Available(online, job, config.cap, loads[..])
      {
        assert online[i..][1..] == online[i + 1..];
        var nid := online[i];
        if nid < loads.Length && (loads[nid].used + job.memory) % U64 <= config.cap {
          available := available + 1;
        }
      }
      ok := available >= job.requested;
    }

    method TakeNodes(job: Job, online: seq<nat>, loads: array<NodeLoad>) returns (nodes: seq<nat>)
      modifies loads
      ensures Placement(nodes, loads[..]) == Allocate(job, online, config.cap, old(loads[..]))
    {
      nodes := [];
      for i := 0 to |online|
        invariant Allocate(job, online, config.cap, old(loads[..]))
            == Place(online[i..], job, config.cap, loads[..], nodes)
      {
        assert online[i..][1..] == online[i + 1..];
        if |nodes| >= job.requested {
          break;
        }
        var nid := online[i];
        if nid < loads.Length && (loads[nid].used + job.memory) % U64 <= config.cap {
          nodes := nodes + [nid];
          ghost var before := loads[..];
          loads[nid] := NodeLoad((loads[nid].used + job.memory) % U64, loads[nid].jobs + 1);
          assert loads[..] == before[nid := Bump(before[nid], job)];
        }
      }
    }

    /** Fair-share: queued LOW jobs of tenants below their share move up one level. */
    method BoostQueue()
      modifies this`queue
      ensures queue == Boost(old(queue), tenants)
    {
      var total := 0;
      for i := 0 to |tenants|
        invariant total + TotalSeconds(tenants[i..]) == TotalSeconds(tenants)
      {
        assert tenants[i..][1..] == tenants[i + 1..];
        total := total + tenants[i].seconds;
      }
      if total > 0 {
        for i := 0 to |queue|
          invariant |queue| == |old(queue)|
          invariant forall j :: 0 <= j < i ==> queue[j] == Boosted(old(queue)[j], tenants)
          invariant forall j :: i <= j < |queue| ==> queue[j] == old(queue)[j]
        {
          var t := FindTenant(tenants, queue[i].owner);
          if t < |tenants| && tenants[t].seconds as real / total as real < 1.0 / |tenants| as real {
            if queue[i].priority == LOW {
              queue := queue[i := queue[i].(priority := NORMAL)];
            }
          }
        }
      }
    }

    /** Start what fits, in queue order; the iterator moves on only past jobs that stay. */
    method StartJobs(online: seq<nat>, loads: array<NodeLoad>, now: nat) returns (started: nat)
      modifies this`queue, this`active, loads
      ensures var p := Schedule(old(queue), online, config.cap, old(loads[..]), now);
              queue == p.kept && active == old(active) + p.started && loads[..] == p.loads && started == |p.started|
    {
      started := 0;
      var i := 0;
      ghost var ran: seq<Job> := [];
      ghost var all := Schedule(queue, online, config.cap, loads[..], now);
      while i < |queue|
        invariant 0 <= i <= |queue| && started == |ran| && active == old(active) + ran
        invariant var p := Schedule(queue[i..], online, config.cap, loads[..], now);
                  all == Pass(queue[..i] + p.kept, ran + p.started, p.loads)
        decreases |queue| - i
      {
        var job := queue[i];
        ghost var p := Schedule(queue[i..], online, config.cap, loads[..], now);
        assert queue[i..][1..] == queue[i + 1..];
        var ok := CanPlace(job, online, loads);
        if ok {
          var nodes := TakeNodes(job, online, loads);
          var run := job.(nodes := nodes, status := RUNNING, started := now);
          ghost var q := Schedule(queue[i + 1..], online, config.cap, loads[..], now);
          assert p == q.(started := [run] + q.started);
          assert ran + ([run] + q.started) == (ran + [run]) + q.started;
          active := active + [run];
          ghost var was := queue;
          queue := Drop(queue, i);
          assert queue[..i] == was[..i] && queue[i..] == was[i + 1..];
          ran := ran + [run];
          started := started + 1;
        } else {
          ghost var q := Schedule(queue[i + 1..], online, config.cap, loads[..], now);
          assert p == q.(kept := [job] + q.kept);
          assert queue[..i] + ([job] + q.kept) == queue[..i + 1] + q.kept;
          i := i + 1;
        }
      }
      assert queue[..i] == queue;
    }

    /** The body of the preemption loop for one urgent job that did not fit. */
    method PushOut(job: Job, online: seq<nat>, loads: array<NodeLoad>, now: nat, count: nat) returns (started: nat)
      modifies this`queue, this`active, loads
      ensures Tick(View(), loads[..], started)
          == PreemptFor(job, Tick(old(View()), old(loads[..]), count), online, config.cap, now)
    {
      started := count;
      var v := 0;
      while v < |active| && !(active[v].priority == LOW && |active[v].nodes| >= job.requested)
        invariant 0 <= v <= |active|
        invariant v + Victim(active[v..], job.requested) == Victim(active, job.requested)
      {
        assert active[v..][1..] == active[v + 1..];
        v := v + 1;
      }
      if v < |active| {
        queue := [active[v].(status := RESCHEDULING)] + queue;
        active := active[v := BLANK];
        var again := CanPlace(job, online, loads);
        if again {
          var nodes := TakeNodes(job, online, loads);
          var run := job.(nodes := nodes, status := RUNNING, started := now);
          queue := Mutate(queue, run);
          active := active + [run];
          started := started + 1;
        }
      }
      active := Compact(active);
    }

    method PreemptJobs(online: seq<nat>, loads: array<NodeLoad>, now: nat, count: nat) returns (started: nat)
      modifies this`queue, this`active, loads
      ensures Tick(View(), loads[..], started)
          == Preempt(old(queue), Tick(old(View()), old(loads[..]), count), online, config.cap, now)
    {
      started := count;
      var jobs := queue;
      for i := 0 to |jobs|
        invariant Preempt(jobs, Tick(old(View()), old(loads[..]), count), online, config.cap, now)
               == Preempt(jobs[i..], Tick(View(), loads[..], started), online, config.cap, now)
      {
        assert jobs[i..][1..] == jobs[i + 1..];
        var job := jobs[i];
        var fits := CanPlace(job, online, loads);
        if Urgent(job) && !fits {
          started := PushOut(job, online, loads, now, started);
        }
      }
    }

    /** `std::sort`: any order by priority and submission time, ties as they fall. */
    method SortQueue()
      modifies this`queue
      ensures IsSorting(queue, old(queue))
    {
      ghost var some := CanSort(queue);
      var sorted :| IsSorting(sorted, queue);
      queue := sorted;
    }

    /** `sorted` is the queue as the sort left it.  If node ids differ and no sum overflows, `turns` is whose turn
        it was: every queued job has one, whoever outranks another comes first, and each starts exactly if there
        is room when its turn comes. */
    method ScheduleTick(online: seq<nat>, loads: array<NodeLoad>, now: nat)
      returns (started: nat, ghost sorted: seq<Job>, ghost turns: seq<Turns.Turn>, ghost pushed: seq<Job>)
      modifies this`queue, this`active, loads
      ensures IsSorting(sorted, old(queue))
      ensures Tick(View(), loads[..], started) == DoTick(config, old(View()), sorted, online, old(loads[..]), now)
      ensures Distinct(online) && NoOverflow(old(queue), config.cap, old(loads[..])) ==>
                && Turns.Honours(turns, old(queue), online, config.cap, old(loads[..]), loads[..])
                && Turns.Carried(turns, pushed, old(View()), View(), now)
                && started == |Turns.Starting(turns, tenants, now)|
    {
      turns, pushed := [], [];
      SortQueue();
      sorted := queue;
      if Distinct(online) && NoOverflow(old(queue), config.cap, old(loads[..])) {
        turns, pushed := Turns.TickTurns(config, old(View()), sorted, online, old(loads[..]), now);
      }
      BoostQueue();
      started := StartJobs(online, loads, now);
      if config.preemption {
        started := PreemptJobs(online, loads, now, started);
      }
    }

    /** The final removal of failed and rescheduled jobs is done as the loop goes. */
    method EvictNode(n: nat, now: nat)
      modifies this`queue, this`active, this`history
      ensures View() == Evict(old(View()), n, now)
    {
      var jobs := active;
      active := [];
      for i := 0 to |jobs|
        invariant Evict(old(View()), n, now) == EvictFrom(jobs[i..], View(), n, now)
      {
        assert jobs[i..][1..] == jobs[i + 1..];
        var job := jobs[i];
        if n !in job.nodes {
          if !Gone(job) {
            active := active + [job];
          }
        } else {
          var left := Without(job.nodes, n);
          if left == [] {
            history := history + [job.(nodes := left, status := FAILED, completed := now)];
          } else {
            queue := [job.(nodes := left, status := RESCHEDULING)] + queue;
          }
        }
      }
    }
  }

  lemma {:induction false} FindIsCount(jobs: seq<Job>, id: nat)
    ensures Find(jobs, id) < |jobs| <==> Count(jobs, id) > 0
    decreases |jobs|
  {
    if jobs != [] { FindIsCount(jobs[1..], id); }
  }
}
