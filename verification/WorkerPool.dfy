/**
 The worker pool as a protocol: submitters, workers and one closing goroutine share a bounded channel, a
 read-write lock, a flag and a signal channel. Every atomic operation is one step, in any interleaving.
 */
module WorkerPool {

  /** Tasks are named by numbers; the same task may be submitted more than once. */
  type Task = nat

  /** A call of Submit (`blocking` false) or SubmitContext (`blocking` true). All but Away hold the read lock. */
  datatype Submitter =
    | Away
    | AtFlag(task: Task, blocking: bool)
    | AtSignal(task: Task, blocking: bool)
    | AtSelect(task: Task, blocking: bool)

  /** Gone is a worker whose goroutine a task has ended with runtime.Goexit. */
  datatype Worker = Waiting | Running(task: Task) | Exited | Gone

  /** How a task ends; executeSafely recovers a panic, but nothing stops a Goexit. */
  datatype Ending = Completes | Panics | Quits

  /** The one execution of the body of Stop that closeOnce lets through. */
  datatype Closer = NotCalled | Signalled | Pending | Locked | Flagged | Emptied | Returned

  /** The buffered channel, the workers, and what has become of every task. */
  datatype Ledger = Ledger(
    queue: seq<Task>,
    workers: seq<Worker>,
    accepted: seq<Task>,
    started: seq<Task>,
    completed: multiset<Task>,
    panicked: multiset<Task>,
    quit: multiset<Task>)

  datatype Pool = Pool(
    capacity: nat,
    tasksClosed: bool,
    signalClosed: bool,
    isClosed: bool,
    closer: Closer,
    submitters: seq<Submitter>,
    ledger: Ledger,
    crashed: bool)

  datatype Action =
    | Enter(p: nat, task: Task, blocking: bool)
    | TestFlag(p: nat)
    | TestSignal(p: nat)
    | Send(p: nat)
    | GiveUp(p: nat)
    | ContextDone(p: nat)
    | Take(w: nat)
    | Finish(w: nat, ending: Ending)
    | Exit(w: nat)
    | Close

  predicate Reader(x: Submitter) {
    !x.Away?
  }

  predicate NoReaders(s: Pool) {
    forall p :: 0 <= p < |s.submitters| ==> !Reader(s.submitters[p])
  }

  /** A waiting writer keeps new readers out, as Go's RWMutex does. */
  predicate ReadLockFree(s: Pool) {
    s.closer.NotCalled? || s.closer.Signalled? || s.closer.Returned?
  }

  function At(s: Pool, p: nat): Submitter {
    if p < |s.submitters| then s.submitters[p] else Away
  }

  function Put(s: Pool, p: nat, x: Submitter): Pool {
    if p < |s.submitters| then s.(submitters := s.submitters[p := x]) else s
  }

  function Accept(l: Ledger, task: Task): Ledger {
    l.(queue := l.queue + [task], accepted := l.accepted + [task])
  }

  function TakeTask(l: Ledger, w: nat): Ledger {
    if w < |l.workers| && l.workers[w].Waiting? && l.queue != [] then
      l.(workers := l.workers[w := Running(l.queue[0])], queue := l.queue[1..], started := l.started + [l.queue[0]])
    else l
  }

  function FinishTask(l: Ledger, w: nat, ending: Ending): Ledger {
    if w < |l.workers| && l.workers[w].Running? then
      var done := l.(workers := l.workers[w := if ending.Quits? then Gone else Waiting]);
      var task := l.workers[w].task;
      match ending
      case Completes => done.(completed := l.completed + multiset{task})
      case Panics => done.(panicked := l.panicked + multiset{task})
      case Quits => done.(quit := l.quit + multiset{task})
    else l
  }

  /** A worker leaves its loop when the channel is closed and empty. */
  function Leave(l: Ledger, w: nat, closed: bool): Ledger {
    if w < |l.workers| && l.workers[w].Waiting? && l.queue == [] && closed then l.(workers := l.workers[w := Exited])
    else l
  }

  /** A send on a closed channel panics; otherwise it needs room in the buffer. */
  function SendStep(s: Pool, p: nat, task: Task): Pool {
    if s.tasksClosed then s.(crashed := true)
    else if |s.ledger.queue| < s.capacity then Put(s.(ledger := Accept(s.ledger, task)), p, Away)
    else s
  }

  /** The ways out of the final select other than sending: a full queue, or the closed signal. */
  predicate MayGiveUp(s: Pool, blocking: bool) {
    if blocking then s.signalClosed else |s.ledger.queue| >= s.capacity
  }

  function CloseStep(s: Pool): Pool {
    match s.closer
    case NotCalled => if s.signalClosed then s.(crashed := true) else s.(signalClosed := true, closer := Signalled)
    case Signalled => s.(closer := Pending)
    case Pending => if NoReaders(s) then s.(closer := Locked) else s
    case Locked => s.(isClosed := true, closer := Flagged)
    case Flagged => if s.tasksClosed then s.(crashed := true) else s.(tasksClosed := true, closer := Emptied)
    case Emptied => s.(closer := Returned)
    case Returned => s
  }

  /** One atomic step; an action that is not possible in the current state changes nothing. */
  function Step(s: Pool, a: Action): Pool {
    match a
    case Enter(p, task, blocking) =>
      if At(s, p).Away? && ReadLockFree(s) then Put(s, p, AtFlag(task, blocking)) else s
    case TestFlag(p) =>
      (match At(s, p)
       case AtFlag(task, blocking) => Put(s, p, if s.isClosed then Away else AtSignal(task, blocking))
       case _ => s)
    case TestSignal(p) =>
      (match At(s, p)
       case AtSignal(task, blocking) => Put(s, p, if s.signalClosed then Away else AtSelect(task, blocking))
       case _ => s)
    case Send(p) =>
      (match At(s, p)
       case AtSelect(task, _) => SendStep(s, p, task)
       case _ => s)
    case GiveUp(p) =>
      (match At(s, p)
       case AtSelect(_, blocking) => if MayGiveUp(s, blocking) then Put(s, p, Away) else s
       case _ => s)
    case ContextDone(p) =>
      (match At(s, p)
       case AtSelect(_, true) => Put(s, p, Away)
       case _ => s)
    case Take(w) => s.(ledger := TakeTask(s.ledger, w))
    case Finish(w, ending) => s.(ledger := FinishTask(s.ledger, w, ending))
    case Exit(w) => s.(ledger := Leave(s.ledger, w, s.tasksClosed))
    case Close => CloseStep(s)
  }

  function Run(s: Pool, actions: seq<Action>): Pool
    decreases |actions|
  {
    if actions == [] then s else Run(Step(s, actions[0]), actions[1..])
  }

  /** New: at least one worker, and a queue of twice the workers unless a size is given. */
  function New(workers: int, queueSize: int, callers: nat): Pool {
    var n: nat := if workers <= 0 then 1 else workers;
    Pool(if queueSize <= 0 then n * 2 else queueSize, false, false, false, NotCalled, seq(callers, _ => Away),
         Ledger([], seq(n, _ => Waiting), [], [], multiset{}, multiset{}, multiset{}), false)
  }

  predicate Ended(x: Worker) {
    x.Exited? || x.Gone?
  }

  /** What StopWait waits for: Stop has returned and every worker's goroutine has ended. */
  predicate Drained(s: Pool) {
    s.closer.Returned? && forall w :: 0 <= w < |s.ledger.workers| ==> Ended(s.ledger.workers[w])
  }

  /** The tasks that workers are executing. */
  ghost function InHand(workers: seq<Worker>): multiset<Task> {
    if workers == [] then multiset{}
    else Held(workers[0]) + InHand(workers[1..])
  }

  // ----- the invariant -----

  /** A submitter past the flag test keeps the closer from taking the lock. */
  ghost predicate SubmitterOk(closer: Closer, x: Submitter) {
    && (Reader(x) ==> !closer.Locked? && !closer.Flagged? && !closer.Emptied?)
    && (x.AtSignal? || x.AtSelect? ==> closer.NotCalled? || closer.Signalled? || closer.Pending?)
  }

  ghost predicate Phase(s: Pool) {
    && (s.signalClosed <==> !s.closer.NotCalled?)
    && (s.isClosed <==> s.closer.Flagged? || s.closer.Emptied? || s.closer.Returned?)
    && (s.tasksClosed <==> s.closer.Emptied? || s.closer.Returned?)
  }

  ghost function CountGone(workers: seq<Worker>): nat {
    if workers == [] then 0 else (if workers[0].Gone? then 1 else 0) + CountGone(workers[1..])
  }

  /** Started tasks are running or have ended, and each Goexit has cost one worker. */
  ghost predicate Conserved(l: Ledger) {
    && l.accepted == l.started + l.queue
    && multiset(l.started) == InHand(l.workers) + l.completed + l.panicked + l.quit
    && |l.quit| == CountGone(l.workers)
  }

  /** A worker that has left saw the channel closed and empty, and it stays empty. */
  ghost predicate LedgerOk(l: Ledger, capacity: nat, closed: bool) {
    && Conserved(l) && |l.queue| <= capacity && 0 < |l.workers|
    && (forall w :: 0 <= w < |l.workers| ==> l.workers[w].Exited? ==> l.queue == [] && closed)
  }

  ghost predicate Inv(s: Pool) {
    && !s.crashed && Phase(s)
    && LedgerOk(s.ledger, s.capacity, s.tasksClosed)
    && (forall p :: 0 <= p < |s.submitters| ==> SubmitterOk(s.closer, s.submitters[p]))
  }

  ghost function Held(x: Worker): multiset<Task> {
    if x.Running? then multiset{x.task} else multiset{}
  }

  lemma {:induction false} InHandUpdate(workers: seq<Worker>, w: nat, x: Worker)
    requires w < |workers|
    ensures InHand(workers[w := x]) + Held(workers[w]) == InHand(workers) + Held(x)
  {
    hide Held;
    var after := workers[w := x];
    assert InHand(workers) == Held(workers[0]) + InHand(workers[1..]);
    assert InHand(after) == Held(after[0]) + InHand(after[1..]);
    if w == 0 {
      assert after[1..] == workers[1..];
    } else {
      assert after[1..] == workers[1..][w - 1 := x];
      InHandUpdate(workers[1..], w - 1, x);
      assert InHand(after) + Held(workers[w]) == Held(workers[0]) + (InHand(after[1..]) + Held(workers[w]));
      assert InHand(workers) + Held(x) == Held(workers[0]) + (InHand(workers[1..]) + Held(x));
    }
  }

  lemma {:induction false} CountGoneUpdate(workers: seq<Worker>, w: nat, x: Worker)
    requires w < |workers|
    ensures CountGone(workers[w := x]) + (if workers[w].Gone? then 1 else 0) ==
            CountGone(workers) + if x.Gone? then 1 else 0
  {
    if w == 0 {
      assert workers[w := x][1..] == workers[1..];
    } else {
      assert workers[w := x][1..] == workers[1..][w - 1 := x];
      CountGoneUpdate(workers[1..], w - 1, x);
    }
  }

  /** If fewer goroutines were ended by Goexit than there are workers, some worker has left by itself. */
  lemma {:induction false} SomeExited(workers: seq<Worker>) returns (w: nat)
    requires CountGone(workers) < |workers| && forall i :: 0 <= i < |workers| ==> Ended(workers[i])
    ensures w < |workers| && workers[w].Exited?
  {
    if workers[0].Exited? {
      w := 0;
    } else {
      var v := SomeExited(workers[1..]);
      w := v + 1;
    }
  }

  lemma {:induction false} NoneGone(workers: seq<Worker>)
    requires forall i :: 0 <= i < |workers| ==> !workers[i].Gone?
    ensures CountGone(workers) == 0
  {
    if workers != [] {
      NoneGone(workers[1..]);
    }
  }

  lemma TakeOk(l: Ledger, w: nat, capacity: nat, closed: bool)
    requires LedgerOk(l, capacity, closed)
    ensures LedgerOk(TakeTask(l, w), capacity, closed)
  {
    hide InHand, CountGone;
    var m := TakeTask(l, w);
    if m != l {
      CountGoneUpdate(l.workers, w, Running(l.queue[0]));
      InHandUpdate(l.workers, w, Running(l.queue[0]));
      assert InHand(m.workers) == InHand(l.workers) + multiset{l.queue[0]};
      assert m.started + m.queue == l.started + l.queue;
    }
  }

  lemma FinishOk(l: Ledger, w: nat, ending: Ending, capacity: nat, closed: bool)
    requires LedgerOk(l, capacity, closed)
    ensures LedgerOk(FinishTask(l, w, ending), capacity, closed)
  {
    hide InHand, CountGone;
    var m := FinishTask(l, w, ending);
    if w < |l.workers| && l.workers[w].Running? {
      InHandUpdate(l.workers, w, m.workers[w]);
      CountGoneUpdate(l.workers, w, m.workers[w]);
      MoveTask(InHand(l.workers), InHand(m.workers), l.completed, l.panicked, l.quit, l.workers[w].task);
      assert ending.Quits? ==> |m.quit| == |l.quit| + 1;
    }
  }

  lemma MoveTask(was: multiset<Task>, now: multiset<Task>, c: multiset<Task>, p: multiset<Task>, q: multiset<Task>,
                 task: Task)
    requires now + multiset{task} == was
    ensures was + c + p + q == now + (c + multiset{task}) + p + q
    ensures was + c + p + q == now + c + (p + multiset{task}) + q
    ensures was + c + p + q == now + c + p + (q + multiset{task})
  {
  }

  lemma LeaveOk(l: Ledger, w: nat, capacity: nat, closed: bool)
    requires LedgerOk(l, capacity, closed)
    ensures LedgerOk(Leave(l, w, closed), capacity, closed)
  {
    hide InHand, CountGone;
    var m := Leave(l, w, closed);
    if m != l {
      CountGoneUpdate(l.workers, w, Exited);
      InHandUpdate(l.workers, w, Exited);
      assert InHand(m.workers) == InHand(m.workers) + multiset{} == InHand(l.workers);
    }
  }

  lemma AcceptOk(l: Ledger, task: Task, capacity: nat)
    requires LedgerOk(l, capacity, false) && |l.queue| < capacity
    ensures LedgerOk(Accept(l, task), capacity, false)
  {
    hide InHand, CountGone;
    assert l.started + l.queue + [task] == l.started + (l.queue + [task]);
  }

  lemma ClosingKeepsLedger(l: Ledger, capacity: nat)
    requires LedgerOk(l, capacity, false)
    ensures LedgerOk(l, capacity, true)
  {
  }

  /** The lock keeps submitters between the flag test and the send apart from the closing of the channel. */
  lemma StepSubmitters(s: Pool, a: Action)
    requires Phase(s) && forall p :: 0 <= p < |s.submitters| ==> SubmitterOk(s.closer, s.submitters[p])
    ensures var t := Step(s, a);
            && Phase(t) && (!s.crashed ==> !t.crashed)
            && forall p :: 0 <= p < |t.submitters| ==> SubmitterOk(t.closer, t.submitters[p])
  {
    hide TakeTask, FinishTask, Leave, Accept;
    if a.Send? && At(s, a.p).AtSelect? {
      assert SubmitterOk(s.closer, s.submitters[a.p]);
    }
  }

  lemma StepLedger(s: Pool, a: Action)
    requires LedgerOk(s.ledger, s.capacity, s.tasksClosed)
    ensures var t := Step(s, a); LedgerOk(t.ledger, t.capacity, t.tasksClosed)
  {
    hide LedgerOk, NoReaders, ReadLockFree;
    match a
    case Take(w) => TakeOk(s.ledger, w, s.capacity, s.tasksClosed);
    case Finish(w, ending) => FinishOk(s.ledger, w, ending, s.capacity, s.tasksClosed);
    case Exit(w) => LeaveOk(s.ledger, w, s.capacity, s.tasksClosed);
    case Send(p) =>
      if At(s, p).AtSelect? && !s.tasksClosed && |s.ledger.queue| < s.capacity {
        AcceptOk(s.ledger, At(s, p).task, s.capacity);
      }
    case Close =>
      if !s.tasksClosed {
        ClosingKeepsLedger(s.ledger, s.capacity);
      }
    case _ =>
  }

  lemma StepInv(s: Pool, a: Action)
    requires Inv(s)
    ensures Inv(Step(s, a))
  {
    hide LedgerOk, SubmitterOk, Phase, Step;
    StepSubmitters(s, a);
    StepLedger(s, a);
  }

  lemma {:induction false} RunInv(s: Pool, actions: seq<Action>)
    requires Inv(s)
    ensures Inv(Run(s, actions))
    decreases |actions|
  {
    hide Inv, Step;
    if actions != [] {
      StepInv(s, actions[0]);
      RunInv(Step(s, actions[0]), actions[1..]);
    }
  }

  lemma {:induction false} NothingInHand(workers: seq<Worker>)
    requires forall w :: 0 <= w < |workers| ==> !workers[w].Running?
    ensures InHand(workers) == multiset{}
  {
    if workers != [] {
      NothingInHand(workers[1..]);
    }
  }

  /** What a crash is: a send on the closed channel, or closing the signal or the channel a second time. */
  lemma CrashIff(s: Pool, a: Action)
    requires !s.crashed
    ensures Step(s, a).crashed <==>
            || (a.Send? && At(s, a.p).AtSelect? && s.tasksClosed)
            || (a.Close? && s.closer.NotCalled? && s.signalClosed)
            || (a.Close? && s.closer.Flagged? && s.tasksClosed)
  {
  }

  /**
   In every run of every pool: nothing is sent on or closed twice; tasks start in the order of acceptance, each at most
   once per acceptance; accepted tasks are queued, running or have ended in one of three ways. Once drained, all have
   run, unless every worker was ended by a task.
   */
  lemma PoolIsSafe(workers: int, queueSize: int, callers: nat, actions: seq<Action>)
    ensures var s := Run(New(workers, queueSize, callers), actions);
            var ended := s.ledger.completed + s.ledger.panicked + s.ledger.quit;
            && !s.crashed
            && s.ledger.accepted == s.ledger.started + s.ledger.queue
            && multiset(s.ledger.accepted) == multiset(s.ledger.queue) + InHand(s.ledger.workers) + ended
            && (Drained(s) && |s.ledger.quit| < |s.ledger.workers| ==>
                  s.ledger.queue == [] && multiset(s.ledger.accepted) == ended)
  {
    hide InHand, CountGone, Run;
    var start := New(workers, queueSize, callers);
    NothingInHand(start.ledger.workers);
    NoneGone(start.ledger.workers);
    RunInv(start, actions);
    var s := Run(start, actions);
    if Drained(s) {
      NothingInHand(s.ledger.workers);
      if |s.ledger.quit| < |s.ledger.workers| {
        var w := SomeExited(s.ledger.workers);
        assert s.ledger.workers[w].Exited?;
      }
    }
  }

  // ----- what a submitter is told -----

  /** The submitter's task has just entered the queue. */
  ghost predicate Accepted(s: Pool, t: Pool, task: Task) {
    t.ledger.accepted == s.ledger.accepted + [task] && t.ledger.queue == s.ledger.queue + [task]
  }

  /**
   How a submitter leaves its final select: with its task in a queue that had room; or, not waiting, because the queue
   is full; or, waiting, because the pool is closing or its context is done.
   */
  lemma LeavesSelect(s: Pool, a: Action, p: nat)
    requires Inv(s) && p < |s.submitters| && s.submitters[p].AtSelect? && At(Step(s, a), p).Away?
    ensures var x, t := s.submitters[p], Step(s, a);
            || (a == Send(p) && Accepted(s, t, x.task) && |s.ledger.queue| < s.capacity)
            || (t.ledger == s.ledger && !x.blocking && a == GiveUp(p) && |s.ledger.queue| == s.capacity)
            || (t.ledger == s.ledger && x.blocking && a == GiveUp(p) && s.signalClosed)
            || (t.ledger == s.ledger && x.blocking && a == ContextDone(p))
  {
    hide InHand, CountGone;
    assert SubmitterOk(s.closer, s.submitters[p]);
  }

  /** And each of these ways is open when its reason holds. */
  lemma MayLeaveSelect(s: Pool, p: nat)
    requires Inv(s) && p < |s.submitters| && s.submitters[p].AtSelect?
    ensures var x := s.submitters[p];
            && (|s.ledger.queue| < s.capacity ==>
                  At(Step(s, Send(p)), p).Away? && Accepted(s, Step(s, Send(p)), x.task))
            && (!x.blocking && |s.ledger.queue| == s.capacity ==> At(Step(s, GiveUp(p)), p).Away?)
            && (x.blocking && s.signalClosed ==> At(Step(s, GiveUp(p)), p).Away?)
            && (x.blocking ==> At(Step(s, ContextDone(p)), p).Away?)
  {
    hide InHand, CountGone;
    assert SubmitterOk(s.closer, s.submitters[p]);
  }

  /** Once Stop has set its flag, nothing more is accepted. */
  lemma {:induction false} ClosedAcceptsNothing(s: Pool, actions: seq<Action>)
    requires Inv(s) && s.isClosed
    ensures Run(s, actions).ledger.accepted == s.ledger.accepted && Run(s, actions).isClosed
    decreases |actions|
  {
    hide Step, Inv;
    if actions != [] {
      ClosedStep(s, actions[0]);
      StepInv(s, actions[0]);
      ClosedAcceptsNothing(Step(s, actions[0]), actions[1..]);
    }
  }

  lemma ClosedStep(s: Pool, a: Action)
    requires Inv(s) && s.isClosed
    ensures Step(s, a).ledger.accepted == s.ledger.accepted && Step(s, a).isClosed
  {
    hide InHand, CountGone;
    if a.Send? && a.p < |s.submitters| {
      assert SubmitterOk(s.closer, s.submitters[a.p]);
    }
  }

  /** Until Stop is called, a submitter that has come in reaches its select, and only then. */
  lemma ReachesSelect(s: Pool, p: nat)
    requires Inv(s) && p < |s.submitters|
    ensures s.submitters[p].AtFlag? && !s.isClosed ==>
              At(Step(s, TestFlag(p)), p) == AtSignal(s.submitters[p].task, s.submitters[p].blocking)
    ensures s.submitters[p].AtSignal? && !s.signalClosed ==>
              At(Step(s, TestSignal(p)), p) == AtSelect(s.submitters[p].task, s.submitters[p].blocking)
    ensures s.submitters[p].AtFlag? && s.isClosed ==> At(Step(s, TestFlag(p)), p).Away?
    ensures s.submitters[p].AtSignal? && s.signalClosed ==> At(Step(s, TestSignal(p)), p).Away?
  {
  }

  /** A new pool: at least one worker, and a queue of the given size or else twice the workers. */
  lemma NewIsReady(workers: int, queueSize: int, callers: nat)
    ensures var s := New(workers, queueSize, callers);
            && |s.ledger.workers| == (if workers < 1 then 1 else workers)
            && s.capacity == (if queueSize < 1 then 2 * |s.ledger.workers| else queueSize)
            && Inv(s) && s.ledger.accepted == [] && |s.submitters| == callers
  {
    var s := New(workers, queueSize, callers);
    NothingInHand(s.ledger.workers);
    NoneGone(s.ledger.workers);
  }

  // ----- tasks that end their worker -----

  lemma {:induction false} RunAppend(s: Pool, a: seq<Action>, b: seq<Action>)
    ensures Run(s, a + b) == Run(Run(s, a), b)
    decreases |a|
  {
    hide Step;
    if a == [] {
      assert a + b == b;
    } else {
      assert (a + b)[1..] == a[1..] + b;
      RunAppend(Step(s, a[0]), a[1..], b);
    }
  }

  /** The pool is open, caller 0 is away, and the queue is empty. */
  ghost predicate Quiet(s: Pool) {
    && s.closer.NotCalled? && !s.isClosed && !s.signalClosed && !s.tasksClosed && s.ledger.queue == [] && 0 < s.capacity
    && 0 < |s.submitters| && forall p :: 0 <= p < |s.submitters| ==> s.submitters[p].Away?
  }

  function SubmitOne(task: Task): seq<Action> {
    [Enter(0, task, false), TestFlag(0)] + [TestSignal(0), Send(0)]
  }

  lemma RunTwo(s: Pool, a: Action, b: Action)
    ensures Run(s, [a, b]) == Step(Step(s, a), b)
  {
    hide Step;
    assert [a, b][1..] == [b] && [b][1..] == [];
    assert Run(Step(s, a), [b]) == Run(Step(Step(s, a), b), []);
  }

  lemma SubmitRuns(s: Pool, task: Task)
    requires Quiet(s)
    ensures Run(s, SubmitOne(task)) == s.(ledger := Accept(s.ledger, task))
  {
    hide Run, Step, Quiet;
    var s1, s2 := Put(s, 0, AtFlag(task, false)), Put(s, 0, AtSignal(task, false));
    var s3, s4 := Put(s, 0, AtSelect(task, false)), s.(ledger := Accept(s.ledger, task));
    SubmitSteps(s, task);
    RunTwo(s, Enter(0, task, false), TestFlag(0));
    RunTwo(s2, TestSignal(0), Send(0));
    RunAppend(s, [Enter(0, task, false), TestFlag(0)], [TestSignal(0), Send(0)]);
  }

  lemma SubmitSteps(s: Pool, task: Task)
    requires Quiet(s)
    ensures var s1, s2 := Put(s, 0, AtFlag(task, false)), Put(s, 0, AtSignal(task, false));
            var s3 := Put(s, 0, AtSelect(task, false));
            && Step(s, Enter(0, task, false)) == s1 && Step(s1, TestFlag(0)) == s2 && Step(s2, TestSignal(0)) == s3
            && Step(s3, Send(0)) == s.(ledger := Accept(s.ledger, task))
  {
    var x, y, z := AtFlag(task, false), AtSignal(task, false), AtSelect(task, false);
    assert s.submitters[0 := x][0 := y] == s.submitters[0 := y] && s.submitters[0 := y][0 := z] == s.submitters[0 := z];
    assert s.submitters[0 := z][0 := Away] == s.submitters;
  }

  /** A task is submitted, worker `w` takes it, and it ends the worker. */
  function QuitOne(w: nat): seq<Action> {
    SubmitOne(0) + [Take(w), Finish(w, Quits)]
  }

  lemma QuitRuns(s: Pool, w: nat)
    requires Quiet(s) && w < |s.ledger.workers| && s.ledger.workers[w].Waiting?
    ensures var t := Run(s, QuitOne(w));
            && Quiet(t) && t.ledger.workers == s.ledger.workers[w := Gone]
  {
    hide Run, Accept, TakeTask, FinishTask;
    SubmitRuns(s, 0);
    var s1 := s.(ledger := Accept(s.ledger, 0));
    RunTwo(s1, Take(w), Finish(w, Quits));
    RunAppend(s, SubmitOne(0), [Take(w), Finish(w, Quits)]);
    QuitLedger(s.ledger, w);
  }

  lemma QuitLedger(l: Ledger, w: nat)
    requires l.queue == [] && w < |l.workers| && l.workers[w].Waiting?
    ensures var m := FinishTask(TakeTask(Accept(l, 0), w), w, Quits);
            m.workers == l.workers[w := Gone] && m.queue == []
  {
    var k := TakeTask(Accept(l, 0), w);
    assert Accept(l, 0).queue == [0];
    assert k.workers == l.workers[w := Running(0)] && k.queue == [];
    assert k.workers[w := Gone] == l.workers[w := Gone];
  }

  lemma {:induction false} AllQuit(s: Pool, k: nat) returns (actions: seq<Action>)
    requires Quiet(s) && k <= |s.ledger.workers|
    requires forall w :: 0 <= w < k ==> s.ledger.workers[w].Gone?
    requires forall w :: k <= w < |s.ledger.workers| ==> s.ledger.workers[w].Waiting?
    ensures var t := Run(s, actions);
            Quiet(t) && forall w :: 0 <= w < |t.ledger.workers| ==> t.ledger.workers[w].Gone?
    decreases |s.ledger.workers| - k
  {
    hide Quiet, Step;
    actions := [];
    if k < |s.ledger.workers| {
      QuitRuns(s, k);
      var rest := AllQuit(Run(s, QuitOne(k)), k + 1);
      RunAppend(s, QuitOne(k), rest);
      actions := QuitOne(k) + rest;
    }
  }

  /** Stop, from beginning to end. */
  function StopRun(): seq<Action> {
    [Close, Close] + [Close, Close] + [Close, Close]
  }

  lemma StopRuns(s: Pool)
    requires s.closer.NotCalled? && !s.isClosed && !s.signalClosed && !s.tasksClosed
    requires forall p :: 0 <= p < |s.submitters| ==> s.submitters[p].Away?
    ensures Run(s, StopRun()).closer.Returned? && Run(s, StopRun()).ledger == s.ledger
  {
    hide Run;
    var s2 := Step(Step(s, Close), Close);
    var s4 := Step(Step(s2, Close), Close);
    RunTwo(s, Close, Close);
    RunTwo(s2, Close, Close);
    RunTwo(s4, Close, Close);
    RunAppend(s, [Close, Close], [Close, Close]);
    RunAppend(s, [Close, Close] + [Close, Close], [Close, Close]);
  }

  /**
   In every pool that has a caller: if as many tasks call Goexit as there are workers, StopWait returns with a task
   still queued.
   */
  lemma QuitLeavesTasks(workers: int, queueSize: int, callers: nat) returns (actions: seq<Action>)
    requires 0 < callers
    ensures var s := Run(New(workers, queueSize, callers), actions);
            Drained(s) && s.ledger.queue != []
  {
    hide Run, Step;
    var s := New(workers, queueSize, callers);
    var quits := AllQuit(s, 0);
    var t := Run(s, quits);
    SubmitRuns(t, 1);
    var u := t.(ledger := Accept(t.ledger, 1));
    StopRuns(u);
    RunAppend(s, quits, SubmitOne(1));
    RunAppend(s, quits + SubmitOne(1), StopRun());
    actions := quits + SubmitOne(1) + StopRun();
  }

  lemma {:induction false} WorkersFixed(s: Pool, actions: seq<Action>)
    ensures |Run(s, actions).ledger.workers| == |s.ledger.workers|
    decreases |actions|
  {
    hide Step;
    if actions != [] {
      StepWorkersFixed(s, actions[0]);
      WorkersFixed(Step(s, actions[0]), actions[1..]);
    }
  }

  lemma StepWorkersFixed(s: Pool, a: Action)
    ensures |Step(s, a).ledger.workers| == |s.ledger.workers|
  {
    hide MayGiveUp, NoReaders, ReadLockFree, SubmitterOk;
    match a {
      case Take(w) => return;
      case Finish(w, ending) => return;
      case Exit(w) => return;
      case Send(p) => return;
      case Close => return;
      case _ => return;
    }
  }

  lemma {:induction false} GoneAtMost(workers: seq<Worker>)
    ensures CountGone(workers) <= |workers|
  {
    if workers != [] {
      GoneAtMost(workers[1..]);
    }
  }

  lemma QuitAtMost(workers: int, queueSize: int, callers: nat, actions: seq<Action>)
    ensures var start := New(workers, queueSize, callers);
            var s := Run(start, actions);
            |s.ledger.workers| == |start.ledger.workers| && |s.ledger.quit| <= |s.ledger.workers|
  {
    hide InHand, CountGone, Run;
    var start := New(workers, queueSize, callers);
    NothingInHand(start.ledger.workers);
    NoneGone(start.ledger.workers);
    RunInv(start, actions);
    WorkersFixed(start, actions);
    GoneAtMost(Run(start, actions).ledger.workers);
  }

  /** When StopWait returns no task is left, in every run in which at most `quits` tasks call Goexit. */
  ghost predicate LeavesNothing(workers: int, queueSize: int, callers: nat, quits: nat) {
    forall actions :: var s := Run(New(workers, queueSize, callers), actions);
                      Drained(s) && |s.ledger.quit| <= quits ==> s.ledger.queue == []
  }

  /** That is so exactly when one worker is sure to be left. */
  lemma LeavesNothingIff(workers: int, queueSize: int, callers: nat, quits: nat)
    requires 0 < callers
    ensures LeavesNothing(workers, queueSize, callers, quits) <==> quits < if workers <= 0 then 1 else workers
  {
    hide Run;
    var start := New(workers, queueSize, callers);
    if quits < |start.ledger.workers| {
      forall actions
        ensures var s := Run(start, actions); Drained(s) && |s.ledger.quit| <= quits ==> s.ledger.queue == []
      {
        PoolIsSafe(workers, queueSize, callers, actions);
        QuitAtMost(workers, queueSize, callers, actions);
      }
    } else {
      var actions := QuitLeavesTasks(workers, queueSize, callers);
      QuitAtMost(workers, queueSize, callers, actions);
    }
  }

  // ----- Stop is never kept waiting by a submitter that cannot move -----

  /** The step that a reader can take whatever its context and the workers do. */
  function Onward(s: Pool, p: nat): Action {
    match At(s, p)
    case AtFlag(_, _) => TestFlag(p)
    case AtSignal(_, _) => TestSignal(p)
    case AtSelect(_, blocking) => if MayGiveUp(s, blocking) then GiveUp(p) else Send(p)
    case Away => TestFlag(p)
  }

  function StepsLeft(x: Submitter): nat {
    match x
    case Away => 0
    case AtSelect(_, _) => 1
    case AtSignal(_, _) => 2
    case AtFlag(_, _) => 3
  }

  function TotalLeft(xs: seq<Submitter>): nat {
    if xs == [] then 0 else StepsLeft(xs[0]) + TotalLeft(xs[1..])
  }

  lemma {:induction false} TotalLeftUpdate(xs: seq<Submitter>, p: nat, x: Submitter)
    requires p < |xs|
    ensures TotalLeft(xs[p := x]) == TotalLeft(xs) - StepsLeft(xs[p]) + StepsLeft(x)
  {
    if p == 0 {
      assert xs[p := x][1..] == xs[1..];
    } else {
      assert xs[p := x][1..] == xs[1..][p - 1 := x];
      TotalLeftUpdate(xs[1..], p - 1, x);
    }
  }

  lemma {:induction false} NoneLeftIffNoReaders(xs: seq<Submitter>)
    ensures TotalLeft(xs) == 0 <==> forall p :: 0 <= p < |xs| ==> !Reader(xs[p])
  {
    if xs != [] {
      NoneLeftIffNoReaders(xs[1..]);
      assert forall p :: 0 < p < |xs| ==> xs[p] == xs[1..][p - 1];
    }
  }

  /** While Stop waits for the write lock, every reader can move, and its move brings the lock closer. */
  lemma ReaderCanMove(s: Pool, p: nat)
    requires Inv(s) && s.closer.Pending? && p < |s.submitters| && Reader(s.submitters[p])
    ensures var t := Step(s, Onward(s, p));
            t.closer.Pending? && TotalLeft(t.submitters) < TotalLeft(s.submitters)
  {
    hide TotalLeft, LedgerOk;
    var t := Step(s, Onward(s, p));
    assert SubmitterOk(s.closer, s.submitters[p]);
    assert t.submitters == s.submitters[p := t.submitters[p]];
    TotalLeftUpdate(s.submitters, p, t.submitters[p]);
  }

  /** Nothing else moves the lock further away, and with no reader left the lock is granted. */
  lemma WaitIsBounded(s: Pool, a: Action)
    requires Inv(s) && s.closer.Pending?
    ensures var t := Step(s, a);
            TotalLeft(t.submitters) <= TotalLeft(s.submitters) && (t.closer.Pending? || (a.Close? && t.closer.Locked?))
    ensures TotalLeft(s.submitters) == 0 <==> Step(s, Close).closer.Locked?
  {
    hide TotalLeft, LedgerOk;
    NoneLeftIffNoReaders(s.submitters);
    var t := Step(s, a);
    if t.submitters != s.submitters {
      assert t.submitters == s.submitters[a.p := t.submitters[a.p]];
      TotalLeftUpdate(s.submitters, a.p, t.submitters[a.p]);
    }
  }

  lemma RunOne(s: Pool, a: Action, rest: seq<Action>)
    ensures Run(s, [a] + rest) == Run(Step(s, a), rest)
    ensures Run(s, [a]) == Step(s, a)
  {
    hide Step;
    assert ([a] + rest)[1..] == rest;
    assert [a][1..] == [];
    assert Run(Step(s, a), []) == Step(s, a);
  }

  /**
   From any state in which Stop waits, at most three steps of each reader, and none of a worker or a context, give it
   the lock.
   */
  lemma {:induction false} StopGetsTheLock(s: Pool) returns (actions: seq<Action>)
    requires Inv(s) && s.closer.Pending?
    ensures |actions| <= TotalLeft(s.submitters) + 1
    ensures forall i :: 0 <= i < |actions| ==> !actions[i].Take? && !actions[i].Finish? && !actions[i].ContextDone?
    ensures Run(s, actions).closer.Locked?
    decreases TotalLeft(s.submitters)
  {
    hide Step, Inv, TotalLeft;
    WaitIsBounded(s, Close);
    if TotalLeft(s.submitters) == 0 {
      actions := [Close];
      RunOne(s, Close, []);
    } else {
      NoneLeftIffNoReaders(s.submitters);
      var p :| 0 <= p < |s.submitters| && Reader(s.submitters[p]);
      var a := Onward(s, p);
      ReaderCanMove(s, p);
      StepInv(s, a);
      var rest := StopGetsTheLock(Step(s, a));
      RunOne(s, a, rest);
      actions := [a] + rest;
    }
  }

  // ----- StopWait can always return once the running tasks end -----

  function Work(x: Worker): nat {
    match x
    case Running(_) => 2
    case Waiting => 1
    case Exited => 0
    case Gone => 0
  }

  function TotalWork(workers: seq<Worker>): nat {
    if workers == [] then 0 else Work(workers[0]) + TotalWork(workers[1..])
  }

  lemma {:induction false} TotalWorkUpdate(workers: seq<Worker>, w: nat, x: Worker)
    requires w < |workers|
    ensures TotalWork(workers[w := x]) == TotalWork(workers) - Work(workers[w]) + Work(x)
  {
    if w == 0 {
      assert workers[w := x][1..] == workers[1..];
    } else {
      assert workers[w := x][1..] == workers[1..][w - 1 := x];
      TotalWorkUpdate(workers[1..], w - 1, x);
    }
  }

  /** What worker `w` does next when left alone. */
  function NextFor(s: Pool, w: nat): Action
    requires w < |s.ledger.workers|
  {
    if s.ledger.workers[w].Running? then Finish(w, Completes)
    else if s.ledger.queue != [] then Take(w)
    else Exit(w)
  }

  lemma WorkShrinks(s: Pool, w: nat)
    requires Inv(s) && s.closer.Returned? && w < |s.ledger.workers| && !Ended(s.ledger.workers[w])
    ensures var t := Step(s, NextFor(s, w));
            t.closer.Returned? &&
            3 * |t.ledger.queue| + TotalWork(t.ledger.workers) < 3 * |s.ledger.queue| + TotalWork(s.ledger.workers)
  {
    hide TotalWork, LedgerOk, SubmitterOk;
    var t := Step(s, NextFor(s, w));
    assert t.ledger.workers == s.ledger.workers[w := t.ledger.workers[w]];
    TotalWorkUpdate(s.ledger.workers, w, t.ledger.workers[w]);
  }

  /** A worker that no task has ended. */
  ghost predicate SomeRemains(s: Pool) {
    exists w :: 0 <= w < |s.ledger.workers| && !s.ledger.workers[w].Gone?
  }

  lemma RemainingEmpties(s: Pool)
    requires Inv(s) && Drained(s) && SomeRemains(s)
    ensures s.ledger.queue == []
  {
    var w :| 0 <= w < |s.ledger.workers| && !s.ledger.workers[w].Gone?;
    assert Ended(s.ledger.workers[w]);
  }

  lemma StillRemains(s: Pool, w: nat)
    requires w < |s.ledger.workers| && SomeRemains(s)
    ensures SomeRemains(Step(s, NextFor(s, w)))
  {
    hide MayGiveUp, NoReaders, ReadLockFree, SendStep, CloseStep, Put, At;
    var v :| 0 <= v < |s.ledger.workers| && !s.ledger.workers[v].Gone?;
    var t := Step(s, NextFor(s, w));
    assert |t.ledger.workers| == |s.ledger.workers| && !t.ledger.workers[v].Gone?;
  }

  /**
   From any state after Stop, a run ends all workers; unless tasks have ended every one of them, it leaves no task.
   */
  lemma {:induction false} StopWaitCanReturn(s: Pool) returns (actions: seq<Action>)
    requires Inv(s) && s.closer.Returned?
    ensures Drained(Run(s, actions)) && (SomeRemains(s) ==> Run(s, actions).ledger.queue == [])
    decreases 3 * |s.ledger.queue| + TotalWork(s.ledger.workers)
  {
    hide Step, Inv, TotalWork, SomeRemains;
    if Drained(s) {
      actions := [];
      if SomeRemains(s) {
        RemainingEmpties(s);
      }
    } else {
      var w :| 0 <= w < |s.ledger.workers| && !Ended(s.ledger.workers[w]);
      var a := NextFor(s, w);
      WorkShrinks(s, w);
      StepInv(s, a);
      if SomeRemains(s) {
        StillRemains(s, w);
      }
      var rest := StopWaitCanReturn(Step(s, a));
      RunOne(s, a, rest);
      actions := [a] + rest;
    }
  }
}
