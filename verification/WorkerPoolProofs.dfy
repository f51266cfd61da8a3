/** What every interleaving of the worker pool keeps, and why shutdown always completes. */
module WorkerPoolProofs {
  import opened Kernel
  import opened Options
  import opened Listeners
  import opened Totals
  import opened WorkerPool

  // ---------- the invariant, one concern at a time ----------

  /** No wakeup is lost: while a worker sleeps, each queued task has a woken worker of its
      own on the way. */
  ghost predicate NoLostWakeup(s: Pool) {
    SomeSleeping(s.workers) ==> |s.queue.items| <= Total(s.workers, IsNotified)
  }

  /** The stop flag is up from the end of serving on, and then nobody sleeps. */
  ghost predicate StopWakesAll(s: Pool) {
    && (s.queue.stopped <==> s.phase != Serving)
    && (s.queue.stopped ==> !SomeSleeping(s.workers) && s.held == None)
  }

  /** First in, first out, nothing lost and nothing added. */
  ghost predicate Fifo(s: Pool) {
    s.accepted == s.popped + s.queue.items + s.dropped
  }

  function HeldCount(held: Option<nat>, id: nat): nat {
    if held == Some(id) then 1 else 0
  }

  /** Each allocated task is in exactly one place: held by the event loop, queued, in the
      hands of one worker, or freed, and freed once. */
  ghost predicate Ledger(s: Pool) {
    forall id: nat ::
      HeldCount(s.held, id) + Total(s.queue.items, Numbered(id)) + Total(s.workers, Charge(id)) + s.frees[id]
      == if id < s.mallocs then 1 else 0
  }

  /** Each popped task is being handled by one worker or has been handled once. */
  ghost predicate HandledOnce(s: Pool) {
    forall t: Task :: Total(s.popped, Equal(t)) == Total(s.workers, Handling(t)) + Total(s.finished, Handled(t))
  }

  /** Tasks are numbered in the order of arrival. */
  ghost predicate Ordered(s: Pool) {
    && (s.held.Some? ==> s.held.value < s.mallocs && forall t | t in s.accepted :: t.id < s.held.value)
    && (forall t | t in s.accepted :: t.id < s.mallocs && |t.payload| <= IO_BUF_SIZE)
    && (forall i, j | 0 <= i < j < |s.accepted| :: s.accepted[i].id < s.accepted[j].id)
  }

  ghost predicate RepliesAllowed(s: Pool) {
    forall d | d in s.finished :: ReplyAllowed(d.task, d.reply)
  }

  /** A worker returns only after the stop, with the queue empty; joined workers have
      returned; and the queue is empty when it is destroyed. */
  ghost predicate Drained(s: Pool) {
    && (forall w | 0 <= w < |s.workers| && s.workers[w] == Exited :: s.queue.stopped && s.queue.items == [])
    && (s.phase.Joining? ==>
          s.phase.joined <= |s.workers| && forall w | 0 <= w < s.phase.joined :: s.workers[w] == Exited)
    && (s.phase == Destroyed ==> s.queue.items == [] && forall w | 0 <= w < |s.workers| :: s.workers[w] == Exited)
    && (s.workers == [] ==> s.accepted == [] && s.held == None)
    && s.dropped == []
  }

  function CurrentTask(w: Worker): seq<Task> {
    if w.Processing? then [w.task] else []
  }

  function TasksOf(done: seq<Done>): seq<Task> {
    if done == [] then [] else TasksOf(done[..|done| - 1]) + [done[|done| - 1].task]
  }

  /** A single worker handles the tasks in the order it pops them. */
  ghost predicate SingleWorkerInOrder(s: Pool) {
    && (|s.workers| == 1 ==> s.popped == TasksOf(s.finished) + CurrentTask(s.workers[0]))
    && (s.workers == [] ==> s.popped == [] && s.finished == [])
  }

  ghost predicate Inv(s: Pool) {
    && NoLostWakeup(s) && StopWakesAll(s) && Fifo(s) && Ledger(s) && HandledOnce(s)
    && Ordered(s) && RepliesAllowed(s) && Drained(s) && SingleWorkerInOrder(s)
  }

  // ---------- every step keeps it ----------

  lemma SignalReachesSomeone(ws: seq<Worker>, woken: set<nat>)
    requires Signal(ws, woken) && SomeSleeping(ws)
    ensures Total(Wake(ws, woken), IsNotified) > Total(ws, IsNotified)
  {
    var i :| i in woken;
    assert IsNotified(ws[i]) < IsNotified(Wake(ws, woken)[i]);
    TotalMonotone(ws, Wake(ws, woken), IsNotified);
  }

  lemma StepKeepsWakeups(s: Pool, step: Step)
    requires Enabled(s, step) && NoLostWakeup(s) && StopWakesAll(s)
    ensures NoLostWakeup(Apply(s, step)) && StopWakesAll(Apply(s, step))
  {
    hide Total;
    var t := Apply(s, step);
    match step
    case Spawn =>
      TotalAppend(s.workers, Entering, IsNotified);
      assert forall i | 0 <= i < |s.workers| :: t.workers[i] == s.workers[i];
    case PushTask(task, woken) =>
      if SomeSleeping(s.workers) { SignalReachesSomeone(s.workers, woken); }
    case Test(w) =>
      TotalUpdate(s.workers, w, t.workers[w], IsNotified);
    case WakeUp(w) =>
      TotalUpdate(s.workers, w, Notified, IsNotified);
    case Finish(w, _) =>
      TotalUpdate(s.workers, w, Entering, IsNotified);
    case _ =>
  }

  lemma StepKeepsFifo(s: Pool, step: Step)
    requires Enabled(s, step) && Fifo(s) && Drained(s) && StopWakesAll(s)
    ensures Fifo(Apply(s, step))
  {
    match step
    case PushTask(task, _) =>
      if !s.queue.stopped { assert s.accepted + [task] == s.popped + (s.queue.items + [task]) + s.dropped; }
    case Test(w) =>
      if s.queue.items != [] { assert s.queue.items == [s.queue.items[0]] + s.queue.items[1..]; }
    case Destroy =>
      assert s.accepted == s.popped + s.queue.items;
    case _ =>
  }

  lemma {:induction false} IdsCount(tasks: seq<Task>, id: nat)
    ensures Ids(tasks)[id] == Total(tasks, Numbered(id))
  {
    if tasks != [] { IdsCount(tasks[..|tasks| - 1], id); }
  }

  /** Popping moves the first task from the queue to the worker. */
  lemma PopMoves(items: seq<Task>, f: Task -> nat)
    requires items != []
    ensures Total(items, f) == f(items[0]) + Total(items[1..], f)
  {
    TotalPrepend(items[0], items[1..], f);
    assert items == [items[0]] + items[1..];
  }

  /** Waking workers does not change what they have in hand. */
  lemma WakingKeepsTasks(ws: seq<Worker>, woken: seq<Worker>, f: Worker -> nat)
    requires |woken| == |ws| && f(Sleeping) == f(Notified)
    requires forall i | 0 <= i < |ws| :: woken[i] == ws[i] || (ws[i] == Sleeping && woken[i] == Notified)
    ensures Total(woken, f) == Total(ws, f)
  {
    TotalMonotone(ws, woken, f);
    TotalMonotone(woken, ws, f);
  }

  lemma StepKeepsLedgerOf(s: Pool, step: Step, id: nat)
    requires Enabled(s, step) && Ledger(s)
    ensures var t := Apply(s, step);
            HeldCount(t.held, id) + Total(t.queue.items, Numbered(id)) + Total(t.workers, Charge(id)) + t.frees[id]
              == if id < t.mallocs then 1 else 0
  {
    hide Total;
    var t := Apply(s, step);
    match step
    case Spawn => TotalAppend(s.workers, Entering, Charge(id));
    case PushTask(task, woken) =>
      if !s.queue.stopped {
        TotalAppend(s.queue.items, task, Numbered(id));
        WakingKeepsTasks(s.workers, t.workers, Charge(id));
      }
    case StopQueue =>
      WakingKeepsTasks(s.workers, t.workers, Charge(id));
    case Test(w) =>
      TotalUpdate(s.workers, w, t.workers[w], Charge(id));
      if s.queue.items != [] { PopMoves(s.queue.items, Numbered(id)); }
    case WakeUp(w) => TotalUpdate(s.workers, w, Notified, Charge(id));
    case Finish(w, _) => TotalUpdate(s.workers, w, Entering, Charge(id));
    case Destroy =>
      IdsCount(s.queue.items, id);
      TotalZero([], Numbered(id));
    case _ =>
  }

  lemma StepKeepsLedger(s: Pool, step: Step)
    requires Enabled(s, step) && Ledger(s)
    ensures Ledger(Apply(s, step))
  {
    forall id: nat { StepKeepsLedgerOf(s, step, id); }
  }

  lemma StepKeepsHandlingOf(s: Pool, step: Step, task: Task)
    requires Enabled(s, step) && HandledOnce(s)
    ensures var t := Apply(s, step);
            Total(t.popped, Equal(task)) == Total(t.workers, Handling(task)) + Total(t.finished, Handled(task))
  {
    hide Total;
    var t := Apply(s, step);
    match step
    case Spawn => TotalAppend(s.workers, Entering, Handling(task));
    case PushTask(_, woken) =>
      WakingKeepsTasks(s.workers, t.workers, Handling(task));
    case StopQueue =>
      WakingKeepsTasks(s.workers, t.workers, Handling(task));
    case Test(w) =>
      TotalUpdate(s.workers, w, t.workers[w], Handling(task));
      if s.queue.items != [] { TotalAppend(s.popped, s.queue.items[0], Equal(task)); }
    case WakeUp(w) => TotalUpdate(s.workers, w, Notified, Handling(task));
    case Finish(w, reply) =>
      TotalUpdate(s.workers, w, Entering, Handling(task));
      TotalAppend(s.finished, Done(s.workers[w].task, reply), Handled(task));
    case _ =>
  }

  lemma StepKeepsHandling(s: Pool, step: Step)
    requires Enabled(s, step) && HandledOnce(s)
    ensures HandledOnce(Apply(s, step))
  {
    forall task: Task { StepKeepsHandlingOf(s, step, task); }
  }

  lemma StepKeepsOrder(s: Pool, step: Step)
    requires Enabled(s, step) && Ordered(s) && RepliesAllowed(s)
    ensures Ordered(Apply(s, step)) && RepliesAllowed(Apply(s, step))
  {
  }

  lemma StepKeepsDrained(s: Pool, step: Step)
    requires Enabled(s, step) && Drained(s) && StopWakesAll(s) && Fifo(s)
    ensures Drained(Apply(s, step))
  {
    if step == Destroy && s.workers != [] { assert s.workers[0] == Exited; }
  }

  lemma OneMoreDone(finished: seq<Done>, done: Done)
    ensures TasksOf(finished + [done]) == TasksOf(finished) + [done.task]
  {
    assert (finished + [done])[..|finished|] == finished;
  }

  lemma StepKeepsSingleWorkerOrder(s: Pool, step: Step)
    requires Enabled(s, step) && SingleWorkerInOrder(s)
    ensures SingleWorkerInOrder(Apply(s, step))
  {
    if step.Finish? { OneMoreDone(s.finished, Done(s.workers[step.w].task, step.reply)); }
    hide TasksOf;
  }

  lemma StepKeepsInv(s: Pool, step: Step)
    requires Enabled(s, step) && Inv(s)
    ensures Inv(Apply(s, step))
  {
    hide NoLostWakeup, StopWakesAll, Fifo, Ledger, HandledOnce, Ordered, RepliesAllowed, Drained, SingleWorkerInOrder;
    hide Apply, Enabled;
    StepKeepsWakeups(s, step);
    StepKeepsFifo(s, step);
    StepKeepsLedger(s, step);
    StepKeepsHandling(s, step);
    StepKeepsOrder(s, step);
    StepKeepsDrained(s, step);
    StepKeepsSingleWorkerOrder(s, step);
  }

  lemma InitHasInv()
    ensures Inv(INIT)
  {
  }

  lemma {:induction false} RunKeepsInv(s: Pool, steps: seq<Step>, t: Pool)
    requires Inv(s) && Run(s, steps, t)
    ensures Inv(t)
    decreases |steps|
  {
    hide Inv, Apply, Enabled;
    if steps != [] {
      StepKeepsInv(s, steps[0]);
      RunKeepsInv(Apply(s, steps[0]), steps[1..], t);
    }
  }

  // ---------- shutdown ----------

  /** How far a worker is from returning. */
  function Weight(w: Worker): nat {
    match w
    case Processing(_) => 2
    case Exited => 0
    case _ => 1
  }

  /** Steps left at most, once the queue is stopped. */
  function Measure(s: Pool): nat {
    3 * |s.queue.items| + Total(s.workers, Weight)
    + match s.phase
      case Serving => 0
      case Joining(joined) => if joined <= |s.workers| then |s.workers| - joined + 1 else 0
      case Destroyed => 0
  }

  /** Every step of every thread after the stop brings the end nearer. */
  lemma StoppedStepDecreases(s: Pool, step: Step)
    requires Inv(s) && s.queue.stopped && Enabled(s, step)
    ensures Measure(Apply(s, step)) < Measure(s)
  {
    hide Total;
    var t := Apply(s, step);
    match step
    case Test(w) => TotalUpdate(s.workers, w, t.workers[w], Weight);
    case Finish(w, _) => TotalUpdate(s.workers, w, Entering, Weight);
    case _ =>
  }

  lemma {:induction false} StoppedRunIsBounded(s: Pool, steps: seq<Step>, t: Pool)
    requires Inv(s) && s.queue.stopped && Run(s, steps, t)
    ensures |steps| + Measure(t) <= Measure(s) && Inv(t) && t.queue.stopped
    decreases |steps|
  {
    hide Inv, Measure;
    if steps != [] {
      StepKeepsInv(s, steps[0]);
      StoppedStepDecreases(s, steps[0]);
      StoppedRunIsBounded(Apply(s, steps[0]), steps[1..], t);
    }
  }

  /** No thread can be stuck before the queue is destroyed. */
  lemma StoppedPoolIsNotStuck(s: Pool)
    requires Inv(s) && s.queue.stopped && s.phase != Destroyed
    ensures exists step :: Enabled(s, step)
  {
    if s.phase == Joining(|s.workers|) {
      assert Enabled(s, Destroy);
    } else {
      var w := s.phase.joined;
      var worker := s.workers[w];
      if worker == Exited {
        assert Enabled(s, Join);
      } else if worker.Processing? {
        var task := worker.task;
        var reply := if task.channel.service == Echo then Some(Packet(task.fd, task.peer, task.payload)) else None;
        assert Enabled(s, Finish(w, reply));
      } else {
        assert Enabled(s, Test(w));
      }
    }
  }

  // ---------- the theorems, over all runs ----------

  ghost predicate Reachable(s: Pool) {
    exists steps :: Run(INIT, steps, s)
  }

  lemma ReachableHasInv(s: Pool)
    requires Reachable(s)
    ensures Inv(s)
  {
    var steps :| Run(INIT, steps, s);
    InitHasInv();
    RunKeepsInv(INIT, steps, s);
  }

  lemma {:induction false} OneStepMore(s: Pool, steps: seq<Step>, t: Pool, step: Step)
    requires Run(s, steps, t) && Enabled(t, step)
    ensures Run(s, steps + [step], Apply(t, step))
    decreases |steps|
  {
    hide Apply, Enabled;
    if steps == [] {
      assert [step][1..] == [] && [] + [step] == [step];
    } else {
      OneStepMore(Apply(s, steps[0]), steps[1..], t, step);
      assert (steps + [step])[1..] == steps[1..] + [step];
    }
  }

  lemma ReachableStep(s: Pool, step: Step)
    requires Reachable(s) && Enabled(s, step)
    ensures Reachable(Apply(s, step))
  {
    hide Apply, Enabled;
    var steps :| Run(INIT, steps, s);
    OneStepMore(INIT, steps, s, step);
  }

  /** In no interleaving, with any number of workers and any spurious wakeups, does a worker
      sleep while the queue holds more tasks than there are woken workers on their way; and
      after the stop none sleeps. */
  lemma NoWakeupIsLost(s: Pool, w: nat)
    requires Reachable(s) && w < |s.workers| && s.workers[w] == Sleeping
    ensures !s.queue.stopped && |s.queue.items| <= Total(s.workers, IsNotified)
  {
    ReachableHasInv(s);
    assert SomeSleeping(s.workers);
  }

  /** Before the stop and after it: while tasks wait, some worker can take its next step, so
      the pool never waits for a push that need not come. */
  lemma QueuedTasksKeepWorkersMoving(s: Pool)
    requires Reachable(s) && s.queue.items != []
    ensures exists step: Step :: (step.Test? || step.Finish?) && Enabled(s, step)
  {
    ReachableHasInv(s);
    assert s.workers != [];
    var w := 0;
    if SomeSleeping(s.workers) {
      if forall i | 0 <= i < |s.workers| :: IsNotified(s.workers[i]) == 0 { TotalZero(s.workers, IsNotified); }
      w :| 0 <= w < |s.workers| && IsNotified(s.workers[w]) != 0;
    }
    assert s.workers[w] != Sleeping && s.workers[w] != Exited;
    if s.workers[w].Processing? {
      var task := s.workers[w].task;
      var reply := if task.channel.service == Echo then Some(Packet(task.fd, task.peer, task.payload)) else None;
      assert Enabled(s, Finish(w, reply));
    } else {
      assert Enabled(s, Test(w));
    }
  }

  /** Delivery is first in, first out, and no two workers ever hold the same task. */
  lemma DeliveredOnceInOrder(s: Pool)
    requires Reachable(s)
    ensures s.popped <= s.accepted && s.queue.items == s.accepted[|s.popped|..]
    ensures forall i, j | 0 <= i < j < |s.workers| && s.workers[i].Processing? && s.workers[j].Processing? ::
              s.workers[i].task.id != s.workers[j].task.id
  {
    ReachableHasInv(s);
    forall i, j | 0 <= i < j < |s.workers| && s.workers[i].Processing? && s.workers[j].Processing?
      ensures s.workers[i].task.id != s.workers[j].task.id
    {
      if s.workers[i].task.id == s.workers[j].task.id {
        var id := s.workers[i].task.id;
        var without := s.workers[i := Entering];
        TotalUpdate(s.workers, i, Entering, Charge(id));
        TotalAtLeast(without, j, Charge(id));
      }
    }
  }

  /** Workers that have returned hold nothing. */
  lemma NothingInHand(t: Pool, task: Task, id: nat)
    requires forall w | 0 <= w < |t.workers| :: t.workers[w] == Exited
    ensures Total(t.workers, Handling(task)) == 0 && Total(t.workers, Charge(id)) == 0
  {
    TotalZero(t.workers, Handling(task));
    TotalZero(t.workers, Charge(id));
  }

  /** The accounts at the end. */
  lemma DestroyedAccounts(t: Pool)
    requires Inv(t) && t.phase == Destroyed
    ensures t.dropped == [] && t.queue.items == [] && t.accepted == t.popped
    ensures forall task :: Total(t.accepted, Equal(task)) == Total(t.finished, Handled(task))
    ensures forall id: nat :: t.frees[id] == if id < t.mallocs then 1 else 0
  {
    hide Total, NoLostWakeup, Ordered, RepliesAllowed, SingleWorkerInOrder;
    assert t.dropped == [] && t.queue.items == [] && t.accepted == t.popped;
    forall task: Task ensures Total(t.accepted, Equal(task)) == Total(t.finished, Handled(task)) {
      NothingInHand(t, task, 0);
      assert Total(t.popped, Equal(task)) == Total(t.workers, Handling(task)) + Total(t.finished, Handled(task));
    }
    forall id: nat ensures t.frees[id] == if id < t.mallocs then 1 else 0 {
      var task: Task := *;
      NothingInHand(t, task, id);
      TotalZero(t.queue.items, Numbered(id));
      assert HeldCount(t.held, id) + Total(t.queue.items, Numbered(id)) + Total(t.workers, Charge(id)) + t.frees[id]
        == if id < t.mallocs then 1 else 0;
    }
  }

  /** A stopped pool reaches the destruction of its queue in at most `Measure` steps, however
      its threads are scheduled: a run that cannot go on has ended there. By then every
      accepted task was handled exactly once, the queue was empty when it was destroyed, and
      each allocated task has been freed exactly once. */
  lemma ShutdownCompletes(s: Pool, steps: seq<Step>, t: Pool)
    requires Reachable(s) && s.queue.stopped && Run(s, steps, t)
    ensures |steps| <= Measure(s)
    ensures (forall step :: !Enabled(t, step)) ==> t.phase == Destroyed
    ensures t.phase == Destroyed ==> t.dropped == [] && t.queue.items == [] && t.accepted == t.popped
    ensures t.phase == Destroyed ==> forall task :: Total(t.accepted, Equal(task)) == Total(t.finished, Handled(task))
    ensures t.phase == Destroyed ==> forall id: nat :: t.frees[id] == if id < t.mallocs then 1 else 0
  {
    ReachableHasInv(s);
    StoppedRunIsBounded(s, steps, t);
    if t.phase == Destroyed {
      DestroyedAccounts(t);
    } else {
      StoppedPoolIsNotStuck(t);
    }
  }

  lemma {:induction false} MemberCounts<T>(xs: seq<T>, x: T, f: T -> nat)
    requires x in xs
    ensures f(x) <= Total(xs, f)
  {
    var i :| 0 <= i < |xs| && xs[i] == x;
    TotalAtLeast(xs, i, f);
  }

  /** What was handled was popped, and what was popped was accepted. */
  lemma HandledWasAccepted(s: Pool, d: Done)
    requires Inv(s) && d in s.finished
    ensures d.task in s.accepted
  {
    MemberCounts(s.finished, d, Handled(d.task));
    if d.task !in s.popped { TotalZero(s.popped, Equal(d.task)); }
  }

  /** UDP: replies are attempted at most once per accepted datagram, with the payload and to
      the peer stored with it, and with a single worker in the order of arrival. */
  lemma RepliesFollowDatagrams(s: Pool, task: Task)
    requires Reachable(s)
    ensures Total(s.finished, Handled(task)) <= Total(s.accepted, Equal(task)) <= 1
    ensures forall d | d in s.finished && d.task.channel.service == Echo ::
              d.reply == Some(Packet(d.task.fd, d.task.peer, d.task.payload))
    ensures forall d | d in s.finished && d.reply.Some? ::
              d.reply.value.fd == d.task.fd && d.reply.value.peer == d.task.peer && |d.reply.value.data| <= IO_BUF_SIZE
    ensures |s.workers| == 1 ==> TasksOf(s.finished) <= s.accepted
  {
    ReachableHasInv(s);
    forall d | d in s.finished ensures ReplyAllowed(d.task, d.reply) && |d.task.payload| <= IO_BUF_SIZE {
      HandledWasAccepted(s, d);
    }
    AtMostOnce(s.accepted, task);
    var rest := s.queue.items + s.dropped;
    assert s.accepted == s.popped + rest;
    TotalPrefix(s.popped, rest, Equal(task));
  }

  lemma {:induction false} TotalPrefix<T>(xs: seq<T>, ys: seq<T>, f: T -> nat)
    ensures Total(xs, f) <= Total(xs + ys, f)
  {
    if ys == [] {
      assert xs + ys == xs;
    } else {
      var n := |ys| - 1;
      TotalPrefix(xs, ys[..n], f);
      TotalAppend(xs + ys[..n], ys[n], f);
      assert xs + ys == xs + ys[..n] + [ys[n]];
    }
  }

  lemma {:induction false} AtMostOnce(tasks: seq<Task>, task: Task)
    requires forall i, j | 0 <= i < j < |tasks| :: tasks[i].id < tasks[j].id
    ensures Total(tasks, Equal(task)) <= 1
  {
    if tasks != [] {
      var n := |tasks| - 1;
      AtMostOnce(tasks[..n], task);
      if tasks[n] == task { TotalZero(tasks[..n], Equal(task)); }
    }
  }
}