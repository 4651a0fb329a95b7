/** The bounded progress engine: any number of submitting threads, one worker, one stopping thread,
    a mutex, and two condition variables.  A waiting thread gives up the mutex and sleeps until a
    notification, or a spurious wakeup, makes it compete for the mutex again. */
module Engine {

  /** How the three callbacks of an operation behave when called. */
  datatype Op = Op(id: nat, executeOk: bool, hasComplete: bool, completeOk: bool, hasError: bool, errorOk: bool)

  datatype Event = Execute(op: Op) | OnComplete(op: Op) | OnError(op: Op)

  datatype Phase =
    | Ready              // outside submit
    | WantLock(op: Op)   // past the running check
    | Holding(op: Op)    // owns the mutex, about to test the wait predicate
    | Asleep(op: Op)     // in not_full_.wait, not notified
    | Woken(op: Op)      // in not_full_.wait, to take the mutex again
    | Owes(op: Op)       // enqueued and unlocked; not_empty_.notify_one still to come

  datatype Submitter = Submitter(phase: Phase, todo: seq<Op>)

  datatype Worker =
    | WWantLock | WHolding | WAsleep | WWoken
    | WOwes(op: Op)      // popped and unlocked; not_full_.notify_one still to come
    | WRunning(op: Op)
    | WExited

  datatype Stopper =
    | SIdle | SWantLock | SHolding
    | SOwesBoth          // stop flag set and unlocked; both notifications still to come
    | SOwesAll           // not_full_.notify_all still to come
    | SJoining | SDone

  datatype Owner = Nobody | TheWorker | TheStopper | Sub(i: nat)

  datatype State = State(
    depth: nat,
    queue: seq<Op>,
    stop: bool,
    running: bool,
    mutex: Owner,
    subs: seq<Submitter>,
    worker: Worker,
    stopper: Stopper,
    accepted: seq<Op>,
    executed: seq<Op>,
    rejected: seq<Op>,
    events: seq<Event>)

  datatype Move =
    | Call(i: nat) | Acquire(i: nat) | Decide(i: nat) | NotifyWorker(i: nat)
    | WAcquire | WDecide | WNotify(i: nat) | WRun
    | SCall | SAcquire | SSet | SNotifyOne | SNotifyAll | SJoin
    | Spurious(i: nat) | WSpurious

  /** After `start`: running, nothing queued, the worker about to take the mutex. */
  predicate Initial(s: State) {
    && s.depth > 0 && s.queue == [] && !s.stop && s.running && s.mutex == Nobody
    && (forall i :: 0 <= i < |s.subs| ==> s.subs[i].phase == Ready)
    && s.worker == WWantLock && s.stopper == SIdle
    && s.accepted == s.executed == s.rejected == [] && s.events == []
  }

  predicate NobodySleeps(s: State) {
    forall i :: 0 <= i < |s.subs| ==> !s.subs[i].phase.Asleep?
  }

  predicate Enabled(s: State, m: Move) {
    match m
    case Call(i) => i < |s.subs| && s.subs[i].phase == Ready && s.subs[i].todo != []
    case Acquire(i) => i < |s.subs| && (s.subs[i].phase.WantLock? || s.subs[i].phase.Woken?) && s.mutex == Nobody
    case Decide(i) => i < |s.subs| && s.subs[i].phase.Holding?
    case NotifyWorker(i) => i < |s.subs| && s.subs[i].phase.Owes?
    case WAcquire => (s.worker == WWantLock || s.worker == WWoken) && s.mutex == Nobody
    case WDecide => s.worker == WHolding
    case WNotify(i) => s.worker.WOwes? && (if i < |s.subs| then s.subs[i].phase.Asleep? else NobodySleeps(s))
    case WRun => s.worker.WRunning?
    case SCall => s.stopper == SIdle
    case SAcquire => s.stopper == SWantLock && s.mutex == Nobody
    case SSet => s.stopper == SHolding
    case SNotifyOne => s.stopper == SOwesBoth
    case SNotifyAll => s.stopper == SOwesAll
    case SJoin => s.stopper == SJoining && s.worker == WExited
    case Spurious(i) => i < |s.subs| && s.subs[i].phase.Asleep?
    case WSpurious => s.worker == WAsleep
  }

  function Wake(w: Worker): Worker {
    if w == WAsleep then WWoken else w
  }

  function WakeSub(u: Submitter): Submitter {
    if u.phase.Asleep? then u.(phase := Woken(u.phase.op)) else u
  }

  function WakeAll(subs: seq<Submitter>): (t: seq<Submitter>)
    ensures |t| == |subs| && forall i :: 0 <= i < |subs| ==> t[i] == WakeSub(subs[i])
  {
    seq(|subs|, i requires 0 <= i < |subs| => WakeSub(subs[i]))
  }

  function Go(s: State, i: nat, phase: Phase): State
    requires i < |s.subs|
  {
    s.(subs := s.subs[i := s.subs[i].(phase := phase)])
  }

  function Apply(s: State, m: Move): State
    requires Enabled(s, m)
  {
    match m
    case Call(i) =>
      var op := s.subs[i].todo[0];
      if s.running then
        s.(subs := s.subs[i := Submitter(WantLock(op), s.subs[i].todo[1..])])
      else
        s.(subs := s.subs[i := Submitter(Ready, s.subs[i].todo[1..])], rejected := s.rejected + [op])
    case Acquire(i) => Go(s, i, Holding(s.subs[i].phase.op)).(mutex := Sub(i))
    case Decide(i) =>
      var op := s.subs[i].phase.op;
      var s' := s.(mutex := Nobody);
      if s.stop then Go(s', i, Ready).(rejected := s.rejected + [op])
      else if |s.queue| < s.depth then
        Go(s', i, Owes(op)).(queue := s.queue + [op], accepted := s.accepted + [op])
      else Go(s', i, Asleep(op))
    case NotifyWorker(i) => Go(s, i, Ready).(worker := Wake(s.worker))
    case WAcquire => s.(worker := WHolding, mutex := TheWorker)
    case WDecide =>
      var s' := s.(mutex := Nobody);
      if s.queue == [] then s'.(worker := if s.stop then WExited else WAsleep)
      else s'.(worker := WOwes(s.queue[0]), queue := s.queue[1..])
    case WNotify(i) =>
      var s' := s.(worker := WRunning(s.worker.op));
      if i < |s.subs| then s'.(subs := s.subs[i := WakeSub(s.subs[i])]) else s'
    case WRun =>
      s.(worker := WWantLock, executed := s.executed + [s.worker.op], events := s.events + Callbacks(s.worker.op))
    case SCall => s.(stopper := SWantLock)
    case SAcquire => s.(stopper := SHolding, mutex := TheStopper)
    case SSet => s.(stopper := SOwesBoth, stop := true, mutex := Nobody)
    case SNotifyOne => s.(stopper := SOwesAll, worker := Wake(s.worker))
    case SNotifyAll => s.(stopper := SJoining, subs := WakeAll(s.subs))
    case SJoin => s.(stopper := SDone, running := false)
    case Spurious(i) => s.(subs := s.subs[i := WakeSub(s.subs[i])])
    case WSpurious => s.(worker := WWoken)
  }

  // ---------------------------------------------------------------- callbacks

  /** The events of one operation: on_complete after a successful execute, on_error after whichever
      of the two threw; a throwing on_error is swallowed. */
  function Callbacks(op: Op): seq<Event> {
    [Execute(op)]
    + (if op.executeOk && op.hasComplete then [OnComplete(op)] else [])
    + (if op.hasError && (!op.executeOk || (op.hasComplete && !op.completeOk)) then [OnError(op)] else [])
  }

  predicate Threw(op: Op) {
    !op.executeOk || (op.hasComplete && !op.completeOk)
  }

  /** `execute` comes first.  `on_complete` is called, once and next, exactly if there is one and `execute`
      succeeded; `on_error`, once and last, exactly if there is one and `execute` or `on_complete` threw. */
  predicate CalledBack(op: Op, events: seq<Event>) {
    && (forall i :: 0 <= i < |events| ==> events[i].op == op)
    && events != [] && events[0] == Execute(op)
    && (forall i :: 0 < i < |events| ==> events[i] != Execute(op))
    && (OnComplete(op) in events <==> op.executeOk && op.hasComplete)
    && (OnError(op) in events <==> Threw(op) && op.hasError)
    && (forall i :: 0 <= i < |events| && events[i].OnComplete? ==> i == 1)
    && (forall i :: 0 <= i < |events| && events[i].OnError? ==> i == |events| - 1)
  }

  lemma CallbacksDue(op: Op)
    ensures CalledBack(op, Callbacks(op))
  {
    var complete := if op.executeOk && op.hasComplete then [OnComplete(op)] else [];
    var error := if op.hasError && (!op.executeOk || (op.hasComplete && !op.completeOk)) then [OnError(op)] else [];
    assert Callbacks(op) == [Execute(op)] + complete + error;
    assert op.executeOk && op.hasComplete ==> Callbacks(op)[1] == OnComplete(op);
    assert Threw(op) && op.hasError ==> Callbacks(op)[|Callbacks(op)| - 1] == OnError(op);
  }

  /** The try/catch blocks of the worker loop. */
  method RunOp(op: Op) returns (events: seq<Event>)
    ensures events == Callbacks(op) && CalledBack(op, events)
  {
    CallbacksDue(op);
    var executed := op.executeOk;
    events := [Execute(op)];
    if executed {
      var completeThrew := false;
      if op.hasComplete {
        events := events + [OnComplete(op)];
        completeThrew := !op.completeOk;
      }
      if completeThrew && op.hasError {
        events := events + [OnError(op)];
      }
    } else if op.hasError {
      events := events + [OnError(op)];
    }
  }

  function Log(ops: seq<Op>): seq<Event> {
    if ops == [] then [] else Log(ops[..|ops| - 1]) + Callbacks(ops[|ops| - 1])
  }

  // ---------------------------------------------------------------- the invariant

  predicate MutexOk(s: State) {
    && (forall i: nat :: i < |s.subs| ==> (s.subs[i].phase.Holding? <==> s.mutex == Sub(i)))
    && (s.mutex.Sub? ==> s.mutex.i < |s.subs|)
    && (s.worker == WHolding <==> s.mutex == TheWorker)
    && (s.stopper == SHolding <==> s.mutex == TheStopper)
  }

  function InFlight(w: Worker): seq<Op> {
    if w.WOwes? || w.WRunning? then [w.op] else []
  }

  /** Enqueue order is kept: what was accepted has run, is running, or is queued, in that order. */
  predicate OrderOk(s: State) {
    && s.accepted == s.executed + InFlight(s.worker) + s.queue
    && |s.queue| <= s.depth
    && s.depth > 0
    && s.events == Log(s.executed)
  }

  predicate StopOk(s: State) {
    && (s.stop <==> s.stopper.SOwesBoth? || s.stopper.SOwesAll? || s.stopper.SJoining? || s.stopper.SDone?)
    && (s.running <==> s.stopper != SDone)
    && (s.worker == WExited ==> s.stop && s.queue == [])
    && (s.stopper == SDone ==> s.worker == WExited)
  }

  predicate WorkerOwed(s: State) {
    s.stopper == SOwesBoth || exists i :: 0 <= i < |s.subs| && s.subs[i].phase.Owes?
  }

  /** No lost wakeup of the worker. */
  predicate WorkerWakeup(s: State) {
    s.worker == WAsleep && (s.queue != [] || s.stop) ==> WorkerOwed(s)
  }

  function IsActive(u: Submitter): nat {
    if u.phase.Woken? || u.phase.Holding? then 1 else 0
  }

  /** Submitters that have been woken or are testing the predicate right now. */
  function Active(subs: seq<Submitter>): nat {
    if subs == [] then 0
    else Active(subs[..|subs| - 1]) + IsActive(subs[|subs| - 1])
  }

  /** No lost wakeup of submitters: while some sleep, free slots are covered by owed notifications
      and woken submitters; once stop is requested, a notify_all is still to come. */
  predicate SubmitterWakeup(s: State) {
    !NobodySleeps(s) ==>
      if s.stop then s.stopper == SOwesBoth || s.stopper == SOwesAll
      else s.depth - |s.queue| <= (if s.worker.WOwes? then 1 else 0) + Active(s.subs)
  }

  predicate Inv(s: State) {
    MutexOk(s) && OrderOk(s) && StopOk(s) && WorkerWakeup(s) && SubmitterWakeup(s)
  }

  lemma {:induction false} ActiveUpdate(subs: seq<Submitter>, i: nat, u: Submitter)
    requires i < |subs|
    ensures Active(subs[i := u]) == Active(subs) - IsActive(subs[i]) + IsActive(u)
  {
    var n := |subs| - 1;
    if i == n {
      assert subs[i := u][..n] == subs[..n];
    } else {
      ActiveUpdate(subs[..n], i, u);
      assert subs[i := u][..n] == subs[..n][i := u];
    }
  }

  lemma {:induction false} ActiveIsCovered(subs: seq<Submitter>)
    requires forall i :: 0 <= i < |subs| ==> IsActive(subs[i]) == 0
    ensures Active(subs) == 0
  {
    if subs != [] { ActiveIsCovered(subs[..|subs| - 1]); }
  }

  lemma InitialInv(s: State)
    requires Initial(s)
    ensures Inv(s)
  {
  }

  lemma LogSnoc(ops: seq<Op>, op: Op)
    ensures Log(ops + [op]) == Log(ops) + Callbacks(op)
  {
    assert (ops + [op])[..|ops|] == ops;
  }

  lemma SubmitterStep(s: State, m: Move)
    requires Inv(s) && Enabled(s, m) && (m.Call? || m.Acquire? || m.Spurious?)
    ensures Inv(Apply(s, m))
  {
    var s' := Apply(s, m);
    ActiveUpdate(s.subs, m.i, s'.subs[m.i]);
  }

  lemma NotifyStep(s: State, i: nat)
    requires Inv(s) && Enabled(s, NotifyWorker(i))
    ensures Inv(Apply(s, NotifyWorker(i)))
  {
    ActiveUpdate(s.subs, i, Apply(s, NotifyWorker(i)).subs[i]);
  }

  lemma DecideStep(s: State, i: nat)
    requires Inv(s) && Enabled(s, Decide(i))
    ensures Inv(Apply(s, Decide(i)))
  {
    var s' := Apply(s, Decide(i));
    ActiveUpdate(s.subs, i, s'.subs[i]);
    if s.stop {
      assert s'.queue == s.queue;
    } else if |s.queue| < s.depth {
      assert s'.subs[i].phase.Owes? && WorkerOwed(s');
    } else {
      assert s'.queue == s.queue;
    }
  }

  lemma WorkerStep(s: State, m: Move)
    requires Inv(s) && Enabled(s, m) && (m.WAcquire? || m.WSpurious?)
    ensures Inv(Apply(s, m))
  {
  }

  lemma TakeInOrder(s: State)
    requires Inv(s) && Enabled(s, WDecide) && s.queue != []
    ensures OrderOk(Apply(s, WDecide))
  {
    assert s.queue == [s.queue[0]] + s.queue[1..];
  }

  lemma TakeWakes(s: State)
    requires Inv(s) && Enabled(s, WDecide) && s.queue != []
    ensures WorkerWakeup(Apply(s, WDecide)) && SubmitterWakeup(Apply(s, WDecide))
  {
    assert |s.queue[1..]| == |s.queue| - 1;
  }

  lemma WTakeStep(s: State)
    requires Inv(s) && Enabled(s, WDecide) && s.queue != []
    ensures Inv(Apply(s, WDecide))
  {
    TakeInOrder(s);
    TakeWakes(s);
  }

  lemma WIdleStep(s: State)
    requires Inv(s) && Enabled(s, WDecide) && s.queue == []
    ensures Inv(Apply(s, WDecide))
  {
  }

  lemma WRunStep(s: State)
    requires Inv(s) && Enabled(s, WRun)
    ensures Inv(Apply(s, WRun))
  {
    var s', op := Apply(s, WRun), s.worker.op;
    assert OrderOk(s') by {
      LogSnoc(s.executed, op);
      assert s.executed + [op] + s.queue == (s.executed + [op]) + [] + s.queue;
    }
    assert WorkerOwed(s) == WorkerOwed(s') && NobodySleeps(s) == NobodySleeps(s');
  }

  lemma WNotifyStep(s: State, i: nat)
    requires Inv(s) && Enabled(s, WNotify(i))
    ensures Inv(Apply(s, WNotify(i)))
  {
    var s' := Apply(s, WNotify(i));
    if i < |s.subs| { ActiveUpdate(s.subs, i, s'.subs[i]); }
  }

  lemma StopperStep(s: State, m: Move)
    requires Inv(s) && Enabled(s, m)
    requires m.SCall? || m.SAcquire? || m.SSet? || m.SNotifyOne? || m.SNotifyAll? || m.SJoin?
    ensures Inv(Apply(s, m))
  {
  }

  /** Every step of every thread keeps the invariant. */
  lemma StepInv(s: State, m: Move)
    requires Inv(s) && Enabled(s, m)
    ensures Inv(Apply(s, m))
  {
    match m
    case Decide(i) => DecideStep(s, i);
    case WNotify(i) => WNotifyStep(s, i);
    case WAcquire => WorkerStep(s, m);
    case WDecide => if s.queue == [] { WIdleStep(s); } else { WTakeStep(s); }
    case WRun => WRunStep(s);
    case WSpurious => WorkerStep(s, m);
    case Call(_) => SubmitterStep(s, m);
    case Acquire(_) => SubmitterStep(s, m);
    case NotifyWorker(i) => NotifyStep(s, i);
    case Spurious(_) => SubmitterStep(s, m);
    case _ => StopperStep(s, m);
  }

  // ---------------------------------------------------------------- nothing waits for ever

  predicate SubsDone(s: State) {
    forall i :: 0 <= i < |s.subs| ==> s.subs[i] == Submitter(Ready, [])
  }

  predicate IsSpurious(m: Move) {
    m.Spurious? || m.WSpurious?
  }

  /** No thread can move by itself, apart from a call of stop that has not been made. */
  ghost predicate Quiet(s: State) {
    forall m :: Enabled(s, m) ==> IsSpurious(m) || m == SCall
  }

  lemma QuietSubmitter(s: State, i: nat)
    requires Inv(s) && Quiet(s) && s.mutex == Nobody && i < |s.subs|
    ensures s.subs[i] == Submitter(Ready, []) || s.subs[i].phase.Asleep?
  {
    assert !Enabled(s, Call(i)) && !Enabled(s, Acquire(i)) && !Enabled(s, Decide(i)) && !Enabled(s, NotifyWorker(i));
  }

  lemma QuietMutex(s: State)
    requires Inv(s) && Quiet(s)
    ensures s.mutex == Nobody
  {
    assert !Enabled(s, WDecide) && !Enabled(s, SSet);
    assert s.mutex.Sub? ==> !Enabled(s, Decide(s.mutex.i));
  }

  lemma QuietWorker(s: State)
    requires Inv(s) && Quiet(s) && s.mutex == Nobody
    ensures s.worker == WAsleep || s.worker == WExited
  {
    assert !Enabled(s, WAcquire) && !Enabled(s, WDecide) && !Enabled(s, WRun);
    assert !Enabled(s, WNotify(|s.subs|));
    forall i: nat | i < |s.subs| ensures s.worker.WOwes? ==> !s.subs[i].phase.Asleep? {
      assert !Enabled(s, WNotify(i));
    }
  }

  lemma QuietStopper(s: State)
    requires Inv(s) && Quiet(s) && s.mutex == Nobody
    ensures s.stopper == SIdle || s.stopper == SJoining || s.stopper == SDone
  {
    assert !Enabled(s, SAcquire) && !Enabled(s, SSet) && !Enabled(s, SNotifyOne) && !Enabled(s, SNotifyAll);
  }

  /** Nobody is left waiting: when no thread can move, every submit call has returned, and either
      the worker sleeps on an empty queue, or stop has returned.  Everything accepted has run. */
  lemma QuietMeansDone(s: State)
    requires Inv(s) && Quiet(s)
    ensures SubsDone(s) && s.queue == [] && s.executed == s.accepted
    ensures (s.stopper == SIdle && s.worker == WAsleep) || (s.stopper == SDone && s.worker == WExited)
  {
    QuietMutex(s);
    QuietWorker(s);
    QuietStopper(s);
    forall i: nat | i < |s.subs| ensures s.subs[i] == Submitter(Ready, []) || s.subs[i].phase.Asleep? {
      QuietSubmitter(s, i);
    }
    ActiveIsCovered(s.subs);
    assert s.stopper == SJoining ==> Enabled(s, SJoin) || s.worker == WAsleep;
  }

  // ---------------------------------------------------------------- every run is finite

  function SubWeight(u: Submitter): nat {
    12 * |u.todo| +
    match u.phase
    case Ready => 0
    case WantLock(_) => 11
    case Woken(_) => 11
    case Holding(_) => 10
    case Asleep(_) => 9
    case Owes(_) => 3
  }

  function SubsWeight(subs: seq<Submitter>): nat {
    if subs == [] then 0 else SubsWeight(subs[..|subs| - 1]) + SubWeight(subs[|subs| - 1])
  }

  function WorkerWeight(w: Worker): nat {
    match w
    case WOwes(_) => 6
    case WRunning(_) => 3
    case WWantLock => 2
    case WWoken => 2
    case WHolding => 1
    case WAsleep => 0
    case WExited => 0
  }

  function StopperWeight(p: Stopper, n: nat): nat {
    match p
    case SIdle => 2 * n + 8
    case SWantLock => 2 * n + 7
    case SHolding => 2 * n + 6
    case SOwesBoth => 2 * n + 5
    case SOwesAll => 2 * n + 2
    case SJoining => 1
    case SDone => 0
  }

  /** Bounds the steps left, spurious wakeups aside. */
  function Weight(s: State): nat {
    SubsWeight(s.subs) + 6 * |s.queue| + WorkerWeight(s.worker) + StopperWeight(s.stopper, |s.subs|)
  }

  lemma {:induction false} WeightUpdate(subs: seq<Submitter>, i: nat, u: Submitter)
    requires i < |subs|
    ensures SubsWeight(subs[i := u]) == SubsWeight(subs) - SubWeight(subs[i]) + SubWeight(u)
  {
    var n := |subs| - 1;
    if i == n {
      assert subs[i := u][..n] == subs[..n];
    } else {
      WeightUpdate(subs[..n], i, u);
      assert subs[i := u][..n] == subs[..n][i := u];
    }
  }

  lemma {:induction false} WakeAllWeight(subs: seq<Submitter>)
    ensures SubsWeight(WakeAll(subs)) <= SubsWeight(subs) + 2 * |subs|
  {
    if subs != [] {
      var n := |subs| - 1;
      WakeAllWeight(subs[..n]);
      assert WakeAll(subs)[..n] == WakeAll(subs[..n]);
    }
  }

  lemma SubStepWeight(s: State, m: Move)
    requires Enabled(s, m) && (m.Call? || m.Acquire? || m.Decide? || m.NotifyWorker? || m.Spurious?)
    ensures !IsSpurious(m) ==> Weight(Apply(s, m)) < Weight(s)
    ensures IsSpurious(m) ==> Weight(Apply(s, m)) <= Weight(s) + 2
  {
    var s' := Apply(s, m);
    WeightUpdate(s.subs, m.i, s'.subs[m.i]);
    assert s'.subs == s.subs[m.i := s'.subs[m.i]];
  }

  lemma WorkerStepWeight(s: State, m: Move)
    requires Enabled(s, m) && (m.WAcquire? || m.WDecide? || m.WNotify? || m.WRun? || m.WSpurious?)
    ensures !IsSpurious(m) ==> Weight(Apply(s, m)) < Weight(s)
    ensures IsSpurious(m) ==> Weight(Apply(s, m)) <= Weight(s) + 2
  {
    if m.WNotify? && m.i < |s.subs| { WeightUpdate(s.subs, m.i, Apply(s, m).subs[m.i]); }
  }

  /** Every step but a spurious wakeup makes the weight smaller. */
  lemma StepWeight(s: State, m: Move)
    requires Enabled(s, m)
    ensures !IsSpurious(m) ==> Weight(Apply(s, m)) < Weight(s)
    ensures IsSpurious(m) ==> Weight(Apply(s, m)) <= Weight(s) + 2
  {
    if m.Call? || m.Acquire? || m.Decide? || m.NotifyWorker? || m.Spurious? {
      SubStepWeight(s, m);
    } else if m.WAcquire? || m.WDecide? || m.WNotify? || m.WRun? || m.WSpurious? {
      WorkerStepWeight(s, m);
    } else {
      WakeAllWeight(s.subs);
    }
  }

  // ---------------------------------------------------------------- runs

  predicate Legal(s: State, moves: seq<Move>)
    decreases |moves|
  {
    moves == [] || (Enabled(s, moves[0]) && Legal(Apply(s, moves[0]), moves[1..]))
  }

  function Exec(s: State, moves: seq<Move>): State
    requires Legal(s, moves)
    decreases |moves|
  {
    if moves == [] then s else Exec(Apply(s, moves[0]), moves[1..])
  }

  function SpuriousCount(moves: seq<Move>): nat {
    if moves == [] then 0 else (if IsSpurious(moves[0]) then 1 else 0) + SpuriousCount(moves[1..])
  }

  lemma {:induction false} RunFrom(s: State, moves: seq<Move>)
    requires Inv(s) && Legal(s, moves)
    ensures Inv(Exec(s, moves))
    ensures |moves| + Weight(Exec(s, moves)) <= Weight(s) + 3 * SpuriousCount(moves)
    decreases |moves|
  {
    if moves != [] {
      StepInv(s, moves[0]);
      StepWeight(s, moves[0]);
      RunFrom(Apply(s, moves[0]), moves[1..]);
    }
  }

  /** Over whole runs, any number of submitters and any interleaving: the queue is never over its
      depth, accepted operations run in enqueue order, each once and with the callbacks due to it,
      and apart from spurious wakeups the run is no longer than the initial weight. */
  lemma EveryRun(s: State, moves: seq<Move>)
    requires Initial(s) && Legal(s, moves)
    ensures var t := Exec(s, moves);
            && t.accepted == t.executed + InFlight(t.worker) + t.queue
            && t.events == Log(t.executed)
            && |t.queue| <= t.depth
            && |moves| <= Weight(s) + 3 * SpuriousCount(moves)
    ensures Exec(s, moves).stopper == SDone ==> Exec(s, moves).executed == Exec(s, moves).accepted
  {
    InitialInv(s);
    RunFrom(s, moves);
  }

  /** A run that cannot go on by itself has served everybody. */
  lemma EveryRunServes(s: State, moves: seq<Move>)
    requires Initial(s) && Legal(s, moves) && Quiet(Exec(s, moves))
    ensures var t := Exec(s, moves);
            SubsDone(t) && t.executed == t.accepted && (t.stopper == SIdle || t.stopper == SDone)
    ensures Exec(s, moves).stopper == SIdle ==> Exec(s, moves).worker == WAsleep
  {
    InitialInv(s);
    RunFrom(s, moves);
    QuietMeansDone(Exec(s, moves));
  }

  /** Nothing is accepted once stop has been requested. */
  lemma {:induction false} NothingAfterStop(s: State, moves: seq<Move>)
    requires s.stop && Legal(s, moves)
    ensures Exec(s, moves).stop && Exec(s, moves).accepted == s.accepted
    decreases |moves|
  {
    if moves != [] { NothingAfterStop(Apply(s, moves[0]), moves[1..]); }
  }

  // ---------------------------------------------------------------- what was submitted

  function Count(ops: seq<Op>, op: Op): nat {
    if ops == [] then 0 else Count(ops[..|ops| - 1], op) + (if ops[|ops| - 1] == op then 1 else 0)
  }

  lemma CountSnoc(ops: seq<Op>, x: Op, op: Op)
    ensures Count(ops + [x], op) == Count(ops, op) + (if x == op then 1 else 0)
  {
    assert (ops + [x])[..|ops|] == ops;
  }

  lemma {:induction false} CountHead(ops: seq<Op>, op: Op)
    requires ops != []
    ensures Count(ops, op) == Count(ops[1..], op) + (if ops[0] == op then 1 else 0)
    decreases |ops|
  {
    var n := |ops| - 1;
    if n > 0 {
      CountHead(ops[..n], op);
      assert ops[..n][1..] == ops[1..][..n - 1];
    }
  }

  /** An operation inside a submit call that has neither been accepted nor refused. */
  function Pending(u: Submitter): seq<Op> {
    if u.phase.WantLock? || u.phase.Holding? || u.phase.Asleep? || u.phase.Woken? then [u.phase.op] else []
  }

  /** How often a submitter still has `op` to get rid of. */
  function LeftWith(u: Submitter, op: Op): nat {
    Count(u.todo, op) + Count(Pending(u), op)
  }

  function Left(subs: seq<Submitter>, op: Op): nat {
    if subs == [] then 0 else Left(subs[..|subs| - 1], op) + LeftWith(subs[|subs| - 1], op)
  }

  lemma {:induction false} LeftUpdate(subs: seq<Submitter>, i: nat, u: Submitter, op: Op)
    requires i < |subs|
    ensures Left(subs[i := u], op) == Left(subs, op) - LeftWith(subs[i], op) + LeftWith(u, op)
  {
    var n := |subs| - 1;
    if i == n {
      assert subs[i := u][..n] == subs[..n];
    } else {
      LeftUpdate(subs[..n], i, u, op);
      assert subs[i := u][..n] == subs[..n][i := u];
    }
  }

  lemma {:induction false} LeftAwake(subs: seq<Submitter>, op: Op)
    ensures Left(WakeAll(subs), op) == Left(subs, op)
  {
    if subs != [] {
      var n := |subs| - 1;
      LeftAwake(subs[..n], op);
      assert WakeAll(subs)[..n] == WakeAll(subs[..n]);
    }
  }

  /** Where the copies of `op` are: with submitters, accepted, or refused. */
  function Accounted(s: State, op: Op): nat {
    Left(s.subs, op) + Count(s.accepted, op) + Count(s.rejected, op)
  }

  lemma CallAccounts(s: State, i: nat, op: Op)
    requires Enabled(s, Call(i))
    ensures Accounted(Apply(s, Call(i)), op) == Accounted(s, op)
  {
    var s', x := Apply(s, Call(i)), s.subs[i].todo[0];
    CountHead(s.subs[i].todo, op);
    CountSnoc([], x, op);
    CountSnoc(s.rejected, x, op);
    assert [] + [x] == [x];
    LeftUpdate(s.subs, i, s'.subs[i], op);
    assert s'.subs == s.subs[i := s'.subs[i]];
  }

  lemma PendingOne(u: Submitter, op: Op)
    ensures LeftWith(u, op) == Count(u.todo, op) + (if Pending(u) != [] && u.phase.op == op then 1 else 0)
  {
    if Pending(u) != [] {
      assert [] + [u.phase.op] == Pending(u);
      CountSnoc([], u.phase.op, op);
    }
  }

  lemma DecideAccounts(s: State, i: nat, op: Op)
    requires Enabled(s, Decide(i))
    ensures Accounted(Apply(s, Decide(i)), op) == Accounted(s, op)
  {
    var s', u := Apply(s, Decide(i)), s.subs[i];
    var u' := s'.subs[i];
    assert s'.subs == s.subs[i := u'];
    LeftUpdate(s.subs, i, u', op);
    PendingOne(u, op);
    PendingOne(u', op);
    if s.stop {
      CountSnoc(s.rejected, u.phase.op, op);
    } else if |s.queue| < s.depth {
      CountSnoc(s.accepted, u.phase.op, op);
    }
  }

  lemma StepAccounts(s: State, m: Move, op: Op)
    requires Enabled(s, m)
    ensures Accounted(Apply(s, m), op) == Accounted(s, op)
  {
    match m
    case Call(i) => CallAccounts(s, i, op);
    case Decide(i) => DecideAccounts(s, i, op);
    case Acquire(i) => LeftUpdate(s.subs, i, Apply(s, m).subs[i], op);
    case NotifyWorker(i) => LeftUpdate(s.subs, i, Apply(s, m).subs[i], op);
    case Spurious(i) => LeftUpdate(s.subs, i, Apply(s, m).subs[i], op);
    case WNotify(i) => if i < |s.subs| { LeftUpdate(s.subs, i, Apply(s, m).subs[i], op); }
    case SNotifyAll => LeftAwake(s.subs, op);
    case _ =>
  }

  /** Every copy of every operation that was to be submitted is still with its submitter, accepted, or
      refused, and nothing else is. */
  lemma {:induction false} NothingVanishes(s: State, moves: seq<Move>, op: Op)
    requires Legal(s, moves)
    ensures Accounted(Exec(s, moves), op) == Accounted(s, op)
    decreases |moves|
  {
    if moves != [] {
      StepAccounts(s, moves[0], op);
      NothingVanishes(Apply(s, moves[0]), moves[1..], op);
    }
  }

  /** A call is refused exactly if the engine is not running; past that check it is refused exactly if stop
      has been requested, accepted exactly if otherwise there is room, and put to sleep on a full queue. */
  lemma RefusedIff(s: State, m: Move)
    requires Inv(s) && Enabled(s, m)
    ensures Apply(s, m).rejected != s.rejected <==> (m.Call? && !s.running) || (m.Decide? && s.stop)
    ensures Apply(s, m).accepted != s.accepted <==> m.Decide? && !s.stop && |s.queue| < s.depth
    ensures m.Decide? && !s.stop && |s.queue| == s.depth ==> Apply(s, m).subs[m.i].phase == Asleep(s.subs[m.i].phase.op)
  {
    var s' := Apply(s, m);
    assert |s'.rejected| == |s.rejected| <==> s'.rejected == s.rejected;
    assert |s'.accepted| == |s.accepted| <==> s'.accepted == s.accepted;
  }

  /** Without a call of stop nothing is refused. */
  lemma {:induction false} NothingRefused(s: State, moves: seq<Move>)
    requires Inv(s) && Legal(s, moves) && !s.stop && SSet !in moves
    ensures !Exec(s, moves).stop && Exec(s, moves).rejected == s.rejected
    decreases |moves|
  {
    if moves != [] {
      assert moves[0] in moves && forall m :: m in moves[1..] ==> m in moves;
      StepInv(s, moves[0]);
      RefusedIff(s, moves[0]);
      NothingRefused(Apply(s, moves[0]), moves[1..]);
    }
  }

  lemma {:induction false} NoneLeft(subs: seq<Submitter>, op: Op)
    requires forall i :: 0 <= i < |subs| ==> subs[i] == Submitter(Ready, [])
    ensures Left(subs, op) == 0
  {
    if subs != [] { NoneLeft(subs[..|subs| - 1], op); }
  }

  /** A run that cannot go on by itself has executed or refused each operation as often as it was submitted,
      and refused none of them unless stop was called. */
  lemma EveryRunAccounts(s: State, moves: seq<Move>, op: Op)
    requires Initial(s) && Legal(s, moves) && Quiet(Exec(s, moves))
    ensures var t := Exec(s, moves);
            && Count(t.executed, op) + Count(t.rejected, op) == Left(s.subs, op)
            && (SSet !in moves ==> t.rejected == [] && Count(t.executed, op) == Left(s.subs, op))
  {
    InitialInv(s);
    EveryRunServes(s, moves);
    NothingVanishes(s, moves, op);
    NoneLeft(Exec(s, moves).subs, op);
    if SSet !in moves { NothingRefused(s, moves); }
  }

  // ---------------------------------------------------------------- what was called back

  function CountEvents(events: seq<Event>, e: Event): nat {
    if events == [] then 0 else CountEvents(events[..|events| - 1], e) + (if events[|events| - 1] == e then 1 else 0)
  }

  lemma {:induction false} CountEventsConcat(a: seq<Event>, b: seq<Event>, e: Event)
    ensures CountEvents(a + b, e) == CountEvents(a, e) + CountEvents(b, e)
    decreases |b|
  {
    if b == [] {
      assert a + b == a;
    } else {
      var n := |b| - 1;
      CountEventsConcat(a, b[..n], e);
      assert (a + b)[..|a + b| - 1] == a + b[..n];
    }
  }

  lemma OneOfEach(x: Op, op: Op)
    ensures CountEvents(Callbacks(x), Execute(op)) == (if x == op then 1 else 0)
    ensures CountEvents(Callbacks(x), OnComplete(op)) == (if x == op && op.executeOk && op.hasComplete then 1 else 0)
    ensures CountEvents(Callbacks(x), OnError(op)) == (if x == op && Threw(op) && op.hasError then 1 else 0)
  {
    var complete := if x.executeOk && x.hasComplete then [OnComplete(x)] else [];
    var error := if x.hasError && (!x.executeOk || (x.hasComplete && !x.completeOk)) then [OnError(x)] else [];
    assert Callbacks(x) == [Execute(x)] + complete + error;
    forall e: Event
      ensures CountEvents(Callbacks(x), e)
           == CountEvents([Execute(x)], e) + CountEvents(complete, e) + CountEvents(error, e)
    {
      CountEventsConcat([Execute(x)] + complete, error, e);
      CountEventsConcat([Execute(x)], complete, e);
    }
  }

  /** Each execution is logged once, with its completion if it succeeded and has one, and its error if
      something threw and there is someone to tell. */
  lemma {:induction false} LogCounts(ops: seq<Op>, op: Op)
    ensures CountEvents(Log(ops), Execute(op)) == Count(ops, op)
    ensures CountEvents(Log(ops), OnComplete(op)) == (if op.executeOk && op.hasComplete then Count(ops, op) else 0)
    ensures CountEvents(Log(ops), OnError(op)) == (if Threw(op) && op.hasError then Count(ops, op) else 0)
    decreases |ops|
  {
    if ops != [] {
      var n := |ops| - 1;
      LogCounts(ops[..n], op);
      OneOfEach(ops[n], op);
      CountEventsConcat(Log(ops[..n]), Callbacks(ops[n]), Execute(op));
      CountEventsConcat(Log(ops[..n]), Callbacks(ops[n]), OnComplete(op));
      CountEventsConcat(Log(ops[..n]), Callbacks(ops[n]), OnError(op));
    }
  }
}
