/** The event loop's thread, the task queue and any number of workers as a step machine.
    One step is what one thread does while it holds the queue's mutex, or between two such
    sections; steps of different threads interleave in any order. Condition variables have
    Mesa semantics: a signal wakes at least one sleeper if there is one, a woken worker tests
    its condition again later, and a sleeper may wake for no reason. */
module WorkerPool {
  import opened Kernel
  import opened Options
  import opened Listeners
  import opened QueueSpec

  /** A queued datagram: the listener's configuration and socket, the sender, and a copy of the
      data. */
  datatype Task = Task(id: nat, channel: Listener, fd: int, peer: Endpoint, payload: seq<byte>)

  /** Where a worker stands: about to lock the mutex in `task_queue_pop`, asleep in
      `pthread_cond_wait`, woken but not yet running, handling a task, or returned. */
  datatype Worker = Entering | Sleeping | Notified | Processing(task: Task) | Exited

  /** The event loop's thread: serving, joining workers one by one, or past the destruction
      of the queue. */
  datatype Phase = Serving | Joining(joined: nat) | Destroyed

  /** A handled task and the datagram whose sending was attempted in reply, if any. */
  datatype Done = Done(task: Task, reply: Option<Packet>)

  datatype Pool = Pool(
    queue: Queue<Task>,
    workers: seq<Worker>,
    phase: Phase,
    held: Option<nat>,        // the task the event loop has allocated and not queued
    mallocs: nat,             // tasks allocated so far; their numbers are below this
    frees: multiset<nat>,     // how often each was freed
    accepted: seq<Task>,
    popped: seq<Task>,
    finished: seq<Done>,
    dropped: seq<Task>)       // tasks still queued when the queue was destroyed

  datatype Step =
    | Spawn
    | Allocate
    | Discard
    | PushTask(task: Task, woken: set<nat>)
    | StopQueue
    | Test(w: nat)
    | WakeUp(w: nat)
    | Finish(w: nat, reply: Option<Packet>)
    | Join
    | Destroy

  const INIT := Pool(Queue([], false), [], Serving, None, 0, multiset{}, [], [], [], [])

  predicate SomeSleeping(ws: seq<Worker>) {
    exists i | 0 <= i < |ws| :: ws[i] == Sleeping
  }

  /** `woken` may be the effect of `pthread_cond_signal`. */
  predicate Signal(ws: seq<Worker>, woken: set<nat>) {
    && (forall i | i in woken :: i < |ws| && ws[i] == Sleeping)
    && (SomeSleeping(ws) ==> woken != {})
  }

  function Wake(ws: seq<Worker>, woken: set<nat>): (r: seq<Worker>)
    ensures |r| == |ws|
  {
    seq(|ws|, i requires 0 <= i < |ws| => if i in woken && ws[i] == Sleeping then Notified else ws[i])
  }

  function WakeAll(ws: seq<Worker>): (r: seq<Worker>)
    ensures |r| == |ws|
  {
    seq(|ws|, i requires 0 <= i < |ws| => if ws[i] == Sleeping then Notified else ws[i])
  }

  /** What `process_task` may attempt to send back, always over the task's own socket and to
      its sender: for echo exactly the stored datagram, for proxy at most one datagram. */
  predicate ReplyAllowed(task: Task, reply: Option<Packet>) {
    match task.channel.service
    case Echo => reply == Some(Packet(task.fd, task.peer, task.payload))
    case Proxy =>
      reply.Some? ==>
        reply.value.fd == task.fd && reply.value.peer == task.peer && |reply.value.data| <= IO_BUF_SIZE
  }

  predicate Enabled(s: Pool, step: Step) {
    match step
    case Spawn => s.phase == Serving
    // The event loop starts only after every `pthread_create` succeeded, and there is at
    // least one worker.
    case Allocate => s.phase == Serving && s.held == None && s.workers != []
    case Discard => s.phase == Serving && s.held.Some?
    case PushTask(task, woken) =>
      && s.phase == Serving && s.held == Some(task.id) && |task.payload| <= IO_BUF_SIZE
      && Signal(s.workers, woken)
    case StopQueue => s.phase == Serving && s.held == None
    case Test(w) => w < |s.workers| && s.workers[w] in {Entering, Notified}
    case WakeUp(w) => w < |s.workers| && s.workers[w] == Sleeping
    case Finish(w, reply) => w < |s.workers| && s.workers[w].Processing? && ReplyAllowed(s.workers[w].task, reply)
    case Join => s.phase.Joining? && s.phase.joined < |s.workers| && s.workers[s.phase.joined] == Exited
    case Destroy => s.phase == Joining(|s.workers|)
  }

  /** The numbers of some tasks. */
  function Ids(tasks: seq<Task>): multiset<nat> {
    if tasks == [] then multiset{} else Ids(tasks[..|tasks| - 1]) + multiset{tasks[|tasks| - 1].id}
  }

  function Apply(s: Pool, step: Step): Pool
    requires Enabled(s, step)
  {
    match step
    case Spawn => s.(workers := s.workers + [Entering])
    case Allocate => s.(held := Some(s.mallocs), mallocs := s.mallocs + 1)
    case Discard => s.(held := None, frees := s.frees + multiset{s.held.value})
    case PushTask(task, woken) =>
      if s.queue.stopped then
        s.(held := None, frees := s.frees + multiset{task.id})
      else
        s.(held := None, queue := Push(s.queue, task), accepted := s.accepted + [task],
           workers := Wake(s.workers, woken))
    case StopQueue =>
      s.(phase := Joining(0), queue := s.queue.(stopped := true), workers := WakeAll(s.workers))
    case Test(w) =>
      (match Pop(s.queue)
       case MustWait => s.(workers := s.workers[w := Sleeping])
       case Finished => s.(workers := s.workers[w := Exited])
       case Got(task, rest) =>
         s.(workers := s.workers[w := Processing(task)], queue := rest, popped := s.popped + [task]))
    case WakeUp(w) => s.(workers := s.workers[w := Notified])
    case Finish(w, reply) =>
      var task := s.workers[w].task;
      s.(workers := s.workers[w := Entering], finished := s.finished + [Done(task, reply)],
         frees := s.frees + multiset{task.id})
    case Join => s.(phase := Joining(s.phase.joined + 1))
    case Destroy =>
      s.(phase := Destroyed, queue := s.queue.(items := []), dropped := s.queue.items,
         frees := s.frees + Ids(s.queue.items))
  }

  /** `steps` is one interleaving that leads from `s` to `t`. */
  ghost predicate Run(s: Pool, steps: seq<Step>, t: Pool)
    decreases |steps|
  {
    if steps == [] then s == t else Enabled(s, steps[0]) && Run(Apply(s, steps[0]), steps[1..], t)
  }

  // ---------- what is counted ----------

  function IsNotified(w: Worker): nat {
    if w == Notified then 1 else 0
  }

  /** Workers in charge of task number `id`; likewise for queued and finished tasks. */
  function Charge(id: nat): Worker -> nat {
    (w: Worker) => if w.Processing? && w.task.id == id then 1 else 0
  }

  function Numbered(id: nat): Task -> nat {
    (t: Task) => if t.id == id then 1 else 0
  }

  /** Workers handling exactly `task`; likewise for queued and finished tasks. */
  function Handling(task: Task): Worker -> nat {
    (w: Worker) => if w == Processing(task) then 1 else 0
  }

  function Equal(task: Task): Task -> nat {
    (t: Task) => if t == task then 1 else 0
  }

  function Handled(task: Task): Done -> nat {
    (d: Done) => if d.task == task then 1 else 0
  }
}
