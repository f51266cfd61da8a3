/** What the operations of the task queue do to its contents, whatever holds them. */
module QueueSpec {

  datatype Queue<T> = Queue(items: seq<T>, stopped: bool)

  /** One look at the queue by a worker that holds the mutex. */
  datatype Popped<T> = MustWait | Finished | Got(item: T, rest: Queue<T>)

  function Push<T>(q: Queue<T>, item: T): Queue<T> {
    if q.stopped then q else q.(items := q.items + [item])
  }

  function Pop<T>(q: Queue<T>): Popped<T> {
    if q.items != [] then Got(q.items[0], q.(items := q.items[1..]))
    else if q.stopped then Finished else MustWait
  }
}

/** The queue between the event loop and the workers, as a linked list on the heap. Every
    method runs while its caller holds the mutex. */
module TaskQueue {
  import opened Kernel
  import opened Lists
  import opened Listeners
  import QueueSpec

  datatype TaskType = TcpClient | UdpPacket

  class Task {
    const kind: TaskType
    const channel: Listener
    const clientFd: int
    const peer: Endpoint
    const data: seq<byte>
    var next: Task?

    constructor (kind: TaskType, channel: Listener, clientFd: int, peer: Endpoint, data: seq<byte>)
      ensures this.kind == kind && this.channel == channel && this.clientFd == clientFd
      ensures this.peer == peer && this.data == data
    {
      this.kind, this.channel, this.clientFd, this.peer, this.data, next := kind, channel, clientFd, peer, data, null;
    }
  }

  class TaskQueue {
    var head: Task?
    var tail: Task?
    var stop: bool
    /** The list from `head`; everything ever accepted; everything ever handed out. */
    ghost var tasks: seq<Task>
    ghost var accepted: seq<Task>
    ghost var popped: seq<Task>

    constructor ()
      ensures Valid() && tasks == accepted == popped == [] && !stop && tail == null
    {
      head, tail, stop := null, null, false;
      tasks, accepted, popped := [], [], [];
    }

    /** `next` leads from `head` through exactly `tasks` to `tail`, and nothing is lost,
        repeated or reordered between acceptance and delivery. */
    ghost predicate Valid()
      reads this, tasks
    {
      && head == NodeAt<Task?>(tasks, 0, null)
      && tail == (if tasks == [] then null else tasks[|tasks| - 1])
      && (forall i | 0 <= i < |tasks| :: tasks[i].next == NodeAt<Task?>(tasks, i + 1, null))
      && Distinct(accepted) && accepted == popped + tasks
    }

    ghost function View(): QueueSpec.Queue<Task>
      reads this
    {
      QueueSpec.Queue(tasks, stop)
    }

    /** No node handed out is on the list, so it belongs to the worker that got it. */
    lemma PoppedUnreachable(task: Task)
      requires Valid() && task in popped
      ensures task !in tasks
    {
      var i :| 0 <= i < |popped| && popped[i] == task;
      assert forall j | 0 <= j < |tasks| :: accepted[|popped| + j] == tasks[j] && accepted[i] == task;
    }

    /** `task_queue_push`. */
    method Push(task: Task) returns (ret: int)
      requires Valid() && task !in accepted
      modifies this`head, this`tail, this`tasks, this`accepted, task, (if tail == null then {} else {tail})`next
      ensures Valid() && View() == QueueSpec.Push(old(View()), task) && popped == old(popped)
      ensures ret == if stop then -1 else 0
      ensures accepted == if stop then old(accepted) else old(accepted) + [task]
      ensures tail == if stop then old(tail) else task
    {
      task.next := null;
      if stop {
        assert forall i | 0 <= i < |tasks| :: accepted[|popped| + i] == tasks[i];
        return -1;
      }
      if tail == null { head := task; } else { tail.next := task; }
      tail := task;
      Append(task);
      return 0;
    }

    /** The ghost side of `Push`. */
    ghost method Append(task: Task)
      requires accepted == popped + tasks && Distinct(accepted) && task !in accepted
      modifies this`tasks, this`accepted
      ensures tasks == old(tasks) + [task] && accepted == old(accepted) + [task]
      ensures accepted == popped + tasks && Distinct(accepted)
    {
      tasks := tasks + [task];
      accepted := accepted + [task];
    }

    /** The end of `task_queue_pop`, with the list not empty. */
    method Take() returns (task: Task)
      requires Valid() && head != null
      modifies this`head, this`tail, this`tasks, this`popped, head`next
      ensures Valid() && accepted == old(accepted) && popped == old(popped) + [task]
      ensures old(tasks) == [task] + tasks && task.next == null
    {
      task := head;
      hide Distinct;
      HandOver();
      head := task.next;
      if head == null { tail := null; }
      task.next := null;
    }

    /** The ghost side of `Take`. */
    ghost method HandOver()
      requires tasks != [] && accepted == popped + tasks && Distinct(accepted)
      modifies this`tasks, this`popped
      ensures old(tasks) == [old(tasks)[0]] + tasks && popped == old(popped) + [old(tasks)[0]]
      ensures forall i | 0 <= i < |tasks| :: tasks[i] == old(tasks)[i + 1] && tasks[i] != old(tasks)[0]
      ensures accepted == popped + tasks
    {
      assert forall i | 0 <= i < |tasks| :: accepted[|popped| + i] == tasks[i];
      tasks, popped := tasks[1..], popped + [tasks[0]];
    }

    /** `task_queue_pop` from one test of its loop condition to the next wait or return. */
    method TryPop() returns (task: Task?, wait: bool)
      requires Valid()
      modifies this`head, this`tail, this`tasks, this`popped, (if head == null then {} else {head})`next
      ensures Valid() && accepted == old(accepted)
      ensures match QueueSpec.Pop(old(View()))
              case MustWait => wait && task == null && View() == old(View()) && popped == old(popped)
              case Finished => !wait && task == null && View() == old(View()) && popped == old(popped)
              case Got(item, rest) =>
                && !wait && task == item && item.next == null && View() == rest
                && popped == old(popped) + [item]
    {
      if head == null && !stop { return null, true; }
      if head == null && stop { return null, false; }
      task := Take();
      return task, false;
    }

    /** `task_queue_stop`. */
    method Stop()
      requires Valid()
      modifies this`stop
      ensures Valid() && stop && tasks == old(tasks)
    {
      stop := true;
    }

    /** `task_queue_destroy`: frees what was never handed out, once and in order, and
        closes the clients it held. Returns the tasks freed. */
    method Destroy(fds: FdTable) returns (ghost freed: seq<Task>)
      requires Valid() && HoldsClients(tasks, fds.open)
      modifies this`head, this`tail, fds`open
      ensures head == null && tail == null && freed == old(tasks)
      ensures fds.open == old(fds.open) - ClientFds(old(tasks))
    {
      hide Distinct, HoldsClients, ClientFds;
      var task := head;
      freed := [];
      NoTasks();
      while task != null
        invariant |freed| <= |tasks| && freed == tasks[..|freed|] && task == NodeAt<Task?>(tasks, |freed|, null)
        invariant fds.open == old(fds.open) - ClientFds(freed)
        decreases |tasks| - |freed|
      {
        var next := task.next;
        OneMoreClient(freed, task);
        if task.kind == TcpClient && task.clientFd >= 0 {
          ClientNotYetClosed(tasks, |freed|, old(fds.open));
          fds.Close(task.clientFd);
        }
        freed := freed + [task];
        task := next;
      }
      head, tail := null, null;
    }
  }

  predicate HoldsClient(task: Task) {
    task.kind == TcpClient && task.clientFd >= 0
  }

  /** The client descriptors a list of tasks owns. */
  function ClientFds(tasks: seq<Task>): set<int> {
    if tasks == [] then {}
    else ClientFds(tasks[..|tasks| - 1]) + if HoldsClient(tasks[|tasks| - 1]) then {tasks[|tasks| - 1].clientFd} else {}
  }

  /** They are open, and no two tasks own the same one. */
  ghost predicate HoldsClients(tasks: seq<Task>, open: set<int>) {
    forall i | 0 <= i < |tasks| && HoldsClient(tasks[i]) ::
      && tasks[i].clientFd in open
      && forall j | 0 <= j < i && HoldsClient(tasks[j]) :: tasks[j].clientFd != tasks[i].clientFd
  }

  lemma NoTasks()
    ensures ClientFds([]) == {}
  {
  }

  lemma OneMoreClient(tasks: seq<Task>, task: Task)
    ensures ClientFds(tasks + [task]) == ClientFds(tasks) + if HoldsClient(task) then {task.clientFd} else {}
  {
    assert (tasks + [task])[..|tasks|] == tasks;
  }

  lemma {:induction false} ClientOwner(tasks: seq<Task>, fd: int)
    requires fd in ClientFds(tasks)
    ensures exists i :: 0 <= i < |tasks| && HoldsClient(tasks[i]) && tasks[i].clientFd == fd
  {
    var last := |tasks| - 1;
    if HoldsClient(tasks[last]) && tasks[last].clientFd == fd {
    } else {
      ClientOwner(tasks[..last], fd);
      var i :| 0 <= i < last && HoldsClient(tasks[..last][i]) && tasks[..last][i].clientFd == fd;
      assert tasks[i] == tasks[..last][i];
    }
  }

  lemma ClientNotYetClosed(tasks: seq<Task>, i: nat, open: set<int>)
    requires HoldsClients(tasks, open) && i < |tasks| && HoldsClient(tasks[i])
    ensures tasks[i].clientFd in open - ClientFds(tasks[..i])
  {
    if tasks[i].clientFd in ClientFds(tasks[..i]) {
      ClientOwner(tasks[..i], tasks[i].clientFd);
    }
  }

  /** Datagram tasks own no descriptor. */
  lemma {:induction false} NoClients(tasks: seq<Task>)
    requires forall t | t in tasks :: t.kind == UdpPacket
    ensures ClientFds(tasks) == {} && forall open :: HoldsClients(tasks, open)
  {
    if tasks != [] { NoClients(tasks[..|tasks| - 1]); }
  }
}
