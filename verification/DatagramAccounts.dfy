/** From the datagrams the event loop received to the replies the workers attempted: the
    queue of `Gateway` and the pool of `WorkerPool`, put together. */
module DatagramAccounts {
  import opened Kernel
  import opened Options
  import opened Listeners
  import opened Totals
  import opened WorkerPool
  import opened WorkerPoolProofs
  import Gateway
  import Q = TaskQueue
  import TaskHandling

  /** The pool has accepted the tasks the event loop's queue has accepted. */
  ghost predicate SameTasks(pool: Pool, tasks: seq<Q.Task>) {
    && |pool.accepted| == |tasks|
    && forall k | 0 <= k < |tasks| :: pool.accepted[k] == TaskHandling.View(pool.accepted[k].id, tasks[k])
  }

  /** The listener with this descriptor is the one configured so. */
  ghost predicate IsChannel(active: seq<Channel>, fd: int, config: Listener) {
    Channel(fd, config) in active && forall c | c in active && c.fd == fd :: c.config == config
  }

  /** Entry number `j` of the handled tasks is the one for datagram number `k`. It was handled as
      the UDP listener it came by is configured: an echo made one attempt to send the datagram
      itself back, a proxy at most one to send something, each to its sender and under the
      descriptor number it came by. */
  ghost predicate HandlingOf(pool: Pool, packets: seq<Packet>, active: seq<Channel>, j: nat, k: nat)
    requires |pool.accepted| == |packets| && j < |pool.finished| && k < |packets|
  {
    var done := pool.finished[j];
    && done.task == pool.accepted[k]
    && IsChannel(active, packets[k].fd, done.task.channel) && done.task.channel.proto == Udp
    && (done.task.channel.service == Echo ==> done.reply == Some(packets[k]))
    && (done.reply.Some? ==> done.reply.value.fd == packets[k].fd && done.reply.value.peer == packets[k].peer)
  }

  /** Datagram number `k` was handled exactly once. */
  ghost predicate OneHandling(pool: Pool, packets: seq<Packet>, active: seq<Channel>, k: nat)
    requires |pool.accepted| == |packets| && k < |packets|
  {
    exists j | 0 <= j < |pool.finished| ::
      && HandlingOf(pool, packets, active, j, k)
      && forall i | 0 <= i < |pool.finished| && pool.finished[i].task == pool.accepted[k] :: i == j
  }

  lemma {:induction false} CountOfTasks(tasks: seq<Task>, task: Task)
    ensures multiset(tasks)[task] == Total(tasks, Equal(task))
  {
    if tasks != [] {
      var n := |tasks| - 1;
      CountOfTasks(tasks[..n], task);
      assert tasks == tasks[..n] + [tasks[n]];
    }
  }

  lemma {:induction false} CountOfDone(done: seq<Done>, task: Task)
    ensures multiset(TasksOf(done))[task] == Total(done, Handled(task)) && |TasksOf(done)| == |done|
  {
    if done != [] {
      var n := |done| - 1;
      CountOfDone(done[..n], task);
      assert TasksOf(done) == TasksOf(done[..n]) + [done[n].task];
    }
  }

  /** As many tasks were handled as accepted. */
  lemma AsManyEntries(pool: Pool)
    requires Inv(pool) && pool.phase == Destroyed
    ensures |pool.finished| == |pool.accepted|
  {
    DestroyedAccounts(pool);
    forall task: Task ensures multiset(pool.accepted)[task] == multiset(TasksOf(pool.finished))[task] {
      CountOfTasks(pool.accepted, task);
      CountOfDone(pool.finished, task);
    }
    assert multiset(pool.accepted) == multiset(TasksOf(pool.finished));
    var task: Task := *;
    CountOfDone(pool.finished, task);
    assert |multiset(pool.accepted)| == |pool.accepted|;
    assert |multiset(TasksOf(pool.finished))| == |TasksOf(pool.finished)|;
  }

  /** The task was handled, and only once. */
  lemma OneEntry(pool: Pool, k: nat) returns (j: nat)
    requires Inv(pool) && pool.phase == Destroyed && k < |pool.accepted|
    ensures j < |pool.finished| && pool.finished[j].task == pool.accepted[k]
    ensures forall i | 0 <= i < |pool.finished| && pool.finished[i].task == pool.accepted[k] :: i == j
  {
    var task := pool.accepted[k];
    DestroyedAccounts(pool);
    AtMostOnce(pool.accepted, task);
    TotalAtLeast(pool.accepted, k, Equal(task));
    assert Total(pool.finished, Handled(task)) == 1;
    TotalPositive(pool.finished, Handled(task));
    j :| 0 <= j < |pool.finished| && Handled(task)(pool.finished[j]) > 0;
    forall i | 0 <= i < |pool.finished| && pool.finished[i].task == task ensures i == j {
      if i < j { TotalOfTwo(pool.finished, i, j, Handled(task)); }
      if j < i { TotalOfTwo(pool.finished, j, i, Handled(task)); }
    }
  }

  /** Every datagram received has been handled exactly once by the time the queue is destroyed,
      whatever the workers and the schedule, and nothing else has been handled: each as the
      listener it came by is configured. For an echo listener that is exactly one attempt to send
      the datagram itself back to its sender, for a proxy listener at most one reply. */
  lemma EveryDatagramIsHandledOnce(tasks: seq<Q.Task>, packets: seq<Packet>, active: seq<Channel>, pool: Pool)
    requires Gateway.CarriesAll(tasks, 0, packets, 0) && Gateway.OwnChannels(tasks, active)
    requires Reachable(pool) && pool.phase == Destroyed && SameTasks(pool, tasks)
    ensures |pool.finished| == |packets|
    ensures forall k | 0 <= k < |packets| :: OneHandling(pool, packets, active, k)
  {
    ReachableHasInv(pool);
    AsManyEntries(pool);
    hide Inv;
    forall k | 0 <= k < |packets| ensures OneHandling(pool, packets, active, k) {
      var j := OneEntry(pool, k);
      RepliesFollowDatagrams(pool, pool.accepted[k]);
      assert Gateway.Carries(tasks[k], packets[k]) && tasks[k] in tasks;
      assert pool.finished[j] in pool.finished;
      assert HandlingOf(pool, packets, active, j, k);
    }
  }

  // ---------- the pool can follow every run of the event loop ----------

  /** The event loop has a worker to serve and holds no task. */
  ghost predicate Ready(s: Pool) {
    Reachable(s) && s.phase == Serving && s.held == None && s.workers != []
  }

  lemma Hired() returns (s: Pool)
    ensures Ready(s) && s.accepted == []
  {
    s := Apply(INIT, Spawn);
    assert Run(INIT, [], INIT);
    ReachableStep(INIT, Spawn);
  }

  /** Allocating and pushing one task. */
  lemma OnePush(s: Pool, task: Q.Task) returns (v: Pool)
    requires Ready(s) && |task.data| <= IO_BUF_SIZE
    ensures Ready(v) && v.accepted == s.accepted + [TaskHandling.View(s.mallocs, task)]
  {
    ReachableHasInv(s);
    ReachableStep(s, Allocate);
    var a := Apply(s, Allocate);
    var sleepers := set i: nat | i < |a.workers| && a.workers[i] == Sleeping;
    var push := PushTask(TaskHandling.View(s.mallocs, task), sleepers);
    if SomeSleeping(a.workers) {
      var i :| 0 <= i < |a.workers| && a.workers[i] == Sleeping;
      assert i in sleepers;
    }
    ReachableStep(a, push);
    v := Apply(a, push);
  }

  lemma {:induction false} Pushes(tasks: seq<Q.Task>) returns (s: Pool)
    requires forall k | 0 <= k < |tasks| :: |tasks[k].data| <= IO_BUF_SIZE
    ensures Ready(s) && SameTasks(s, tasks)
  {
    if tasks == [] {
      s := Hired();
    } else {
      var n := |tasks| - 1;
      var before := Pushes(tasks[..n]);
      s := OnePush(before, tasks[n]);
      hide Ready;
      forall k | 0 <= k < |tasks| ensures s.accepted[k] == TaskHandling.View(s.accepted[k].id, tasks[k]) {
        if k < n { assert s.accepted[k] == before.accepted[k] && tasks[..n][k] == tasks[k]; }
      }
    }
  }

  /** A stopped pool can always be run to its end, whatever it has accepted. */
  lemma {:induction false} Drain(s: Pool) returns (t: Pool)
    requires Reachable(s) && s.queue.stopped
    ensures Reachable(t) && t.phase == Destroyed && t.accepted == s.accepted
    decreases Measure(s)
  {
    ReachableHasInv(s);
    if s.phase == Destroyed {
      t := s;
    } else {
      StoppedPoolIsNotStuck(s);
      var step :| Enabled(s, step);
      StoppedStepDecreases(s, step);
      ReachableStep(s, step);
      t := Drain(Apply(s, step));
    }
  }

  /** Whatever the event loop has queued, there is a run of the pool that accepts exactly that
      and comes to its end; so the accounts above are those of every run of the event loop. */
  lemma PoolFollowsEventLoop(tasks: seq<Q.Task>, packets: seq<Packet>, active: seq<Channel>)
    returns (pool: Pool)
    requires Gateway.CarriesAll(tasks, 0, packets, 0) && Gateway.OwnChannels(tasks, active)
    ensures Reachable(pool) && pool.phase == Destroyed && SameTasks(pool, tasks)
    ensures forall k | 0 <= k < |packets| :: OneHandling(pool, packets, active, k)
  {
    forall k | 0 <= k < |tasks| ensures |tasks[k].data| <= IO_BUF_SIZE {
      assert Gateway.Carries(tasks[k], packets[k]);
    }
    var served := Pushes(tasks);
    ReachableStep(served, StopQueue);
    pool := Drain(Apply(served, StopQueue));
    EveryDatagramIsHandledOnce(tasks, packets, active, pool);
  }
}
