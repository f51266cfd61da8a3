# A verified model of the TCP/UDP gateway

This project models the C gateway of `02_tcp_udp_proxy`, its target echo server and its test
client (`tools`), and proves what they promise. Every answer of the operating system is a
nondeterministic choice: `send` may take any part of the data, `recv` may return any piece of
what is to come, `accept`, `epoll_wait`, `poll`, `time` and `malloc` may answer anything, and any
call may be interrupted, blocked or fail. The C code that changes things in place is modelled by
classes and loops, and the concurrent parts by step machines over all interleavings.

The main results:

* **Worker pool** (`WorkerPool`, `WorkerPoolProofs`, `TaskQueue`). With any number of workers, any
  interleaving and any spurious wakeup (condition variables as in POSIX.1-2017, System Interfaces,
  `pthread_cond_wait` and `pthread_cond_signal`): no wakeup is lost, delivery is first in first
  out, every task is handled and freed exactly once, and after the stop flag every schedule ends,
  within a computed number of steps, with the queue drained and destroyed. The linked list on the
  heap implements the same queue operations as the machine uses.
* **Echo connections and the event loop** (`EchoConnection`, `ConnectionTable`, `Gateway`, with the
  listeners' data in `Listeners`). For each connection, bytes received are bytes sent followed by
  what waits in the buffer (RFC 862, "TCP Based Echo Service"); the interest mask always asks for
  output exactly when output waits; a connection closed at end of stream has echoed everything and
  any other has lost at most one buffer. A connection is served until the kernel has no more, before a
  hang-up too, and a refused registration always ends in a close. Every connection and every task
  belongs to the listener it came by and is treated as that listener is configured. List, heap, open
  descriptors and epoll entries always name the same connections, every event of a batch has its turn
  and finds its object alive, the idle sweep is a filter, and `main_t` leaves exactly the descriptors
  open that it found open.
* **Relay and end-to-end echo** (`Processes`, `Relay`, `TaskHandling`, `TargetServer`, `EchoTest`,
  `EndToEnd`, `EchoCompletes`). Each hop delivers a prefix and withholds at most a buffer; client,
  relay and target together never show the client a byte it did not send, so the test client never
  reports a mismatch; and they never block each other, so that as long as nobody gives up the test
  can still pass. The three programs' loops are proved to be runs of the machines this is said of.
* **UDP** (`DatagramAccounts`, `TaskHandling`). Event loop, queue and workers together: when all is over, every
  datagram received has been handled exactly once, as the listener it came by is configured and under
  the descriptor number it came by. For an echo listener that is exactly one attempt to send the
  datagram itself back to its sender; for a proxy listener it goes to the configured target, and there
  is at most one reply, the target's answer, and none only without a target or after a failure.
* **Configuration** (`ConfigText`, `ConfigSpec`, `ConfigReader`, `ConfigRoundTrip`, `ConfigFormat`,
  `ConfigMeaning`, with `TextMeaning` and `ConfigLines` for words, numbers, addresses and lines). The
  reader that works in place on one line buffer computes a function of the file's text; which texts
  are accepted, and as which configuration, is said of every text without the parser; every accepted
  file is well-formed; every well-formed configuration, printed with any layout, is read back as
  itself; what is accepted beyond the documented format is said exactly.
* **The live configuration** (`ConfigStore`, `AtomicStore`). Concurrent load, reload, snapshot and free,
  with locks, heap and word-by-word copies, are linearizable: every run is a run of a machine with one
  value, in which each call takes effect at one moment and returns what that moment decided. There is
  no use after free, double free, leak or deadlock.

`Kernel` holds the operating system, `Options` missing values, `Lists` and `Totals` small facts about
sequences.

`dafny verify dfyconfig.toml` checks everything.

## Reading notes

* A run of an imperative model is finite. What ends it (how often calls are interrupted or blocked,
  how many clients and datagrams still come, how many rounds a loop makes) is a parameter or a field
  with an arbitrary value, so each result holds for every finite run.
* The kernel's answers are counted. `dry` counts the times `recv` or `recvfrom` answered EAGAIN, `full`
  the times `send` did, `ends` ends of stream, `faults` and `failures` calls that failed for good, and
  `refusals` the times `accept` had no more or failed, `denied` the times no descriptor or no
  connection was to be had. EINTR is counted in none of them. A contract that says such a count rose
  says that the kernel gave that answer during the call, and one that says it did not, that the
  program did not go on in spite of such an answer; this is how the contracts exclude handlers that
  stop early, give up without a cause or ignore a failure.
* A connection or task keeps the channel of the listener it came by: its descriptor and a copy of its
  configuration. `Arrival` and `Packet` say by which descriptor a client or datagram came.
* The event loop keeps, as ghost state, all events `epoll_wait` reported and those that had their turn;
  the target's loop counts the reports of input on its listeners. `Gateway.Run` and `Server.Run` compare
  these with what the kernel was asked; what one turn does for one connection is said by the contracts
  of `Gateway.Round`, `Batch` and `Dispatch` and of `Server.Dispatch`.
* In `ProcessUdpProxyPacket` an interrupted or blocked `send` or `recv`, a datagram sent in part and a
  time-out count as failures (`Setbacks`), because the source gives up on each of them; an interrupted
  `poll` is retried and does not count.
* The histories of a `Network` object are those of one thread; worker threads and event loop use the same
  UDP sockets, each with a history of its own.
* The loops of relay, target and test client report the moves they made as a ghost result, and are
  proved to be runs of the machines in `Processes`; `EndToEnd` connects those same machines.
* The code, not `00_docs/stage2_gap_analysis.md`, is what is modelled: that text describes an
  earlier version in which workers served TCP echo clients.
* The documented listener format and what the code accepts differ. `ConfigFormat.BeyondTheFormat` says
  exactly which values outside the format are accepted: those with empty fields between the commas, an
  echo with a target that says nothing, or a port that is not a plain decimal in range but reads as one.

## Model

| member | source | states |
|---|---|---|
| TaskQueue.TaskQueue.Push | 02_tcp_udp_proxy/main_service.c:280-308 | the heap list after a push is the old one with the task at the end, and the task is the new tail; after a stop nothing changes and -1 is returned; list links, `head`, `tail` and the order "popped, then queued" all stay right |
| TaskQueue.TaskQueue.TryPop | 02_tcp_udp_proxy/main_service.c:310-342 | one look at the queue waits exactly when it is empty and running, returns nothing exactly when it is empty and stopped, and otherwise hands out the oldest task, unlinked, and leaves the rest |
| TaskQueue.TaskQueue.Take | 02_tcp_udp_proxy/main_service.c:328-341 | taking the head leaves the rest of the list in order; `head` and `tail` become null together |
| TaskQueue.TaskQueue.PoppedUnreachable | 02_tcp_udp_proxy/main_service.c:310-342 | a task that was handed out is never on the list, so only its worker holds it |
| TaskQueue.TaskQueue.Stop | 02_tcp_udp_proxy/main_service.c:344-357 | stopping keeps the queued tasks |
| TaskQueue.TaskQueue.Destroy | 02_tcp_udp_proxy/main_service.c:254-278 | every task still queued is freed once, in order, and exactly the client descriptors they own are closed, each once |
| TaskQueue.ClientNotYetClosed | 02_tcp_udp_proxy/main_service.c:254-278 | the descriptor of the next task is still open, because no two tasks own the same one |
| WorkerPoolProofs.NoWakeupIsLost | 02_tcp_udp_proxy/main_service.c:280-357 | in every reachable state, if a worker sleeps, the queue is not stopped and has at most as many tasks as there are woken workers on their way |
| WorkerPoolProofs.QueuedTasksKeepWorkersMoving | 02_tcp_udp_proxy/main_service.c:310-342 | in every reachable state with tasks queued some worker can take its next step |
| WorkerPoolProofs.DeliveredOnceInOrder | 02_tcp_udp_proxy/main_service.c:280-342 | in every reachable state, what was popped is a prefix of what was accepted and the queue is the rest; no two workers hold the same task |
| WorkerPoolProofs.ShutdownCompletes | 02_tcp_udp_proxy/main_service.c:1701-1714 | after the stop, every run has at most `Measure` steps, and one that cannot go on has joined all workers and destroyed an empty queue, with every accepted task handled once and every allocated task freed once |
| WorkerPoolProofs.StoppedStepDecreases | 02_tcp_udp_proxy/main_service.c:310-357 | after the stop every step of every thread lowers three times the queue length plus the weights of the workers (2 handling, 1 on the way, 0 returned) plus the joins left |
| WorkerPoolProofs.StoppedPoolIsNotStuck | 02_tcp_udp_proxy/main_service.c:1701-1714 | before the queue is destroyed some thread can always move |
| WorkerPoolProofs.RepliesFollowDatagrams | 02_tcp_udp_proxy/main_service.c:365-395 | over all runs, each accepted datagram is handled at most once; an echo reply is the stored payload, under the descriptor it came by and to the stored peer; a proxy reply has the same descriptor and peer; with one worker replies follow the order of arrival (RFC 862, "UDP Based Echo Service") |
| DatagramAccounts.EveryDatagramIsHandledOnce | 02_tcp_udp_proxy/main_service.c:1276-1344 | event loop and pool together: when the queue is destroyed, each datagram received has been handled exactly once and nothing besides, as the UDP listener it came by is configured; for an echo listener by exactly one attempt to send the datagram itself back to its sender; for a proxy listener with at most one reply, to its sender; each under the descriptor number it came by |
| DatagramAccounts.OneEntry | 02_tcp_udp_proxy/main_service.c:439-460 | for each accepted task one entry of the handled ones is its own, and only one |
| DatagramAccounts.PoolFollowsEventLoop | 02_tcp_udp_proxy/main_service.c:1701-1714 | whatever the event loop has queued, some run of the pool accepts exactly that and comes to its end with these accounts |
| WorkerPoolProofs.DestroyedAccounts | 02_tcp_udp_proxy/main_service.c:254-278 | at the end accepted tasks equal handled tasks, count by count, and the number of frees of each allocated task is one |
| WorkerPoolProofs.StepKeepsWakeups | 02_tcp_udp_proxy/main_service.c:280-357 | every step keeps "a sleeper only while each queued task has a woken worker" and "no sleeper after the stop" |
| WorkerPoolProofs.StepKeepsFifo | 02_tcp_udp_proxy/main_service.c:280-342 | every step keeps accepted = popped + queued |
| WorkerPoolProofs.StepKeepsLedger | 02_tcp_udp_proxy/main_service.c:254-278 | every step keeps each allocated task in exactly one place: event loop, queue, one worker, or freed once |
| WorkerPoolProofs.StepKeepsHandling | 02_tcp_udp_proxy/main_service.c:439-460 | every step keeps: a task popped is in the hands of one worker or was handled, as often as it was popped |
| WorkerPoolProofs.StepKeepsDrained | 02_tcp_udp_proxy/main_service.c:310-357 | every step keeps: a worker has returned only after the stop and with the queue empty |
| WorkerPoolProofs.StepKeepsSingleWorkerOrder | 02_tcp_udp_proxy/main_service.c:439-460 | every step keeps: a single worker handles tasks in the order they are popped |
| WorkerPoolProofs.SignalReachesSomeone | 02_tcp_udp_proxy/main_service.c:280-308 | a signal with a sleeper present raises the number of woken workers |
| WorkerPoolProofs.RunKeepsInv | 02_tcp_udp_proxy/main_service.c:439-460 | every interleaving of pushes, pops, waits, wakeups, handling, stop, join and destroy keeps the whole invariant |
| EchoConnection.TcpConn.constructor | 02_tcp_udp_proxy/main_service.c:1215-1219 | a new connection has an empty buffer and satisfies the invariant |
| EchoConnection.TcpConn.UpdateEvents | 02_tcp_udp_proxy/main_service.c:557-563 | a successful update registers output interest exactly when output waits and input interest exactly when it does not; a failed one changes nothing |
| EchoConnection.TcpConn.Flush | 02_tcp_udp_proxy/main_service.c:635-668 | success leaves received = sent + waiting, counters zero if nothing waits, and the right interest, and means that nothing failed and no registration was refused; output stays behind exactly after `send` answered EAGAIN, once; failure leaves a prefix, at most one buffer unsent, and has a cause: `send` failed for good or epoll refused; activity time changes exactly when bytes went out |
| EchoConnection.TcpConn.SendOrBuffer | 02_tcp_udp_proxy/main_service.c:670-712 | called with an empty buffer, the chunk is sent or, after an EAGAIN, kept in order; nothing unsent is overwritten, the "buffer too small" branch is never taken, and it fails only for a cause, and always when epoll refused |
| EchoConnection.TcpConn.HandleRead | 02_tcp_udp_proxy/main_service.c:714-751 | with output waiting nothing is read; otherwise reading goes on, through interruptions, until `recv` answers EAGAIN, once, or output has to wait after `send` did; it fails only at end of stream, with everything received sent back, or for an error the kernel reported, with at most one buffer lost; and it fails whenever a call failed or a registration was refused |
| EchoConnection.TcpConn.ReadRound | 02_tcp_udp_proxy/main_service.c:718-747 | one round of the read loop: an interruption and a chunk sent or kept, with no registration refused, ask for another round, an EAGAIN settles the connection, anything else is a failure with its cause |
| EchoConnection.TcpConn.AllEchoed | 02_tcp_udp_proxy/main_service.c:538-541 | with nothing waiting, the invariant says that sent equals received and both counters are zero |
| ConnectionTable.Connections.ListAdd | 02_tcp_udp_proxy/main_service.c:565-569 | the heap list after the call is the connection followed by the old list |
| ConnectionTable.Connections.ListRemove | 02_tcp_udp_proxy/main_service.c:571-584 | the pointer-to-pointer walk takes the connection out and keeps the others in order; an absent one changes nothing |
| ConnectionTable.Connections.CloseTcpConn | 02_tcp_udp_proxy/main_service.c:586-608 | the connection leaves list, heap, descriptor table and epoll together, and everything about the others stays as it was |
| ConnectionTable.Connections.CloseAll | 02_tcp_udp_proxy/main_service.c:610-615 | terminates with an empty list, every connection freed once in list order, no other descriptor touched |
| ConnectionTable.Connections.CloseIdle | 02_tcp_udp_proxy/main_service.c:617-633 | frees exactly the connections whose times are valid and at least 60 seconds apart, in list order, and leaves the others in their order, none of them idle |
| ConnectionTable.Connections.SweepNode | 02_tcp_udp_proxy/main_service.c:623-632 | one node of the sweep is freed or passed over, and the saved `next` stays usable |
| ConnectionTable.Connections.NextOfSweep | 02_tcp_udp_proxy/main_service.c:617-633 | the node a sweep stands at is still live and its `next` is the next node of the original list |
| ConnectionTable.IdleAfterAMinute | 02_tcp_udp_proxy/main_service.c:623-629 | a connection is idle from 60 seconds after its last activity on, and never when either time is -1 |
| ConnectionTable.Connections.HandleEchoEvent | 02_tcp_udp_proxy/main_service.c:753-793 | for all flags, stale ones included: the connection is closed, with a bounded loss and only for a cause, or open with the right interest; without an error it is served until the kernel answered EAGAIN, before a hang-up closes it too; a refused registration, an error flag and a hang-up always end in a close, the error flag without touching the socket; end of stream closes with everything echoed; no other connection changes |
| ConnectionTable.Connections.ServeConn | 02_tcp_udp_proxy/main_service.c:770-783 | flushing and reading for one event: success means the connection is settled, nothing was refused and what was asked for was served; anything else asks for a close, with its cause and with at most one buffer held back |
| ConnectionTable.Connections.OthersUndisturbed | 02_tcp_udp_proxy/main_service.c:753-793 | a handler that runs on one connection keeps the invariant of all others |
| ConnectionTable.Connections.AddClient | 02_tcp_udp_proxy/main_service.c:1140-1244 | a new connection joins list, heap and epoll together, belongs to its listener and counts as active from the time read then; or `fcntl`, `malloc` or epoll failed, its descriptor is closed and nothing remains |
| ConnectionTable.Connections.AcceptClients | 02_tcp_udp_proxy/main_service.c:1246-1274 | goes on until `accept` has no more or fails; of the clients accepted, all but one per counted failure are new connections before the old ones, each under a descriptor `accept` returned on this listener, of this listener, and active at a time read during the call; no descriptor is lost |
| ConnectionTable.Connections.OnlyOthers | 02_tcp_udp_proxy/main_service.c:610-615 | with the list empty, no open descriptor belongs to a connection |
| ConnectionTable.Connections.SameConnections | 02_tcp_udp_proxy/main_service.c:538-615 | in every valid state list, heap and epoll name the same connections without duplicates, with distinct open descriptors and the interest each connection needs |
| Gateway.Gateway.CreateListener | 02_tcp_udp_proxy/main_service.c:1346-1441 | a listener descriptor that owns nothing else, or none open after a counted failure |
| Gateway.Gateway.OpenListener | 02_tcp_udp_proxy/main_service.c:1562-1590 | a channel is added with its configuration and registered under its own index, or its descriptor is closed again after a counted failure |
| Gateway.Gateway.OpenListeners | 02_tcp_udp_proxy/main_service.c:1562-1605 | success means one registered channel per configured listener, in order, and at least one; it fails exactly if something was not to be had or there is no listener |
| Gateway.Gateway.SetUp | 02_tcp_udp_proxy/main_service.c:1545-1605 | the set-up gives one registered channel per configured listener, with its configuration, and fails only if something was not to be had or no listener is configured |
| Gateway.Gateway.DispatchUdpPackets | 02_tcp_udp_proxy/main_service.c:1276-1344 | while the queue takes tasks, the tasks queued are exactly the datagrams received, in order, each with its sender, socket, service and at most `IO_BUF_SIZE` bytes; it ends only when `recvfrom` has no more or something failed; once the queue is stopped at most one datagram is read and dropped; allocations equal frees plus tasks queued |
| Gateway.Gateway.EpollWait | 02_tcp_udp_proxy/main_service.c:1626-1634 | each registered descriptor is reported at most once, with the pointer registered for it |
| Gateway.Gateway.ReportedPoints | 02_tcp_udp_proxy/main_service.c:1635-1644 | every reported pointer is a live connection or a channel in use |
| Gateway.Gateway.HandleListener | 02_tcp_udp_proxy/main_service.c:1668-1682 | the loop is left exactly on an error or hang-up, which sets the stop flag; without input nothing is accepted or received; a TCP listener is drained until `accept` has no more, a UDP listener until `recvfrom` has no more or something failed; new connections and tasks are of this listener and came by its descriptor; new connections plus failures are the clients accepted; neither kind touches what is the other's |
| Gateway.Gateway.HandleTcpListener | 02_tcp_udp_proxy/main_service.c:1246-1274 | each client accepted on this listener becomes a connection of this listener, but for one per failure; the invariant of the loop is kept |
| Gateway.Gateway.HandleUdpListener | 02_tcp_udp_proxy/main_service.c:1276-1344 | every datagram received is queued, in order, as a task of this listener, with its descriptor and configuration; the invariant of the loop is kept |
| Gateway.Gateway.HandleConnection | 02_tcp_udp_proxy/main_service.c:1646-1655 | an echo connection is served as `HandleEchoEvent` says; a proxy connection is left exactly as it was; the others stay live, of their listeners and under their descriptors |
| Gateway.Gateway.DispatchOne | 02_tcp_udp_proxy/main_service.c:1635-1683 | handling one event keeps every other connection live under its descriptor; an echo connection is served until the kernel answered EAGAIN and is then open unless its peer hung up; or it is closed at once for an error, or for a cause; a proxy connection is left exactly as it was; a listener with input was served until the kernel had no more or something failed |
| Gateway.Gateway.TakeTurn | 02_tcp_udp_proxy/main_service.c:1635-1683 | the turn of one event serves its object, keeps those served before as they were left, and leaves those still to come alive and untouched |
| Gateway.Gateway.Dispatch | 02_tcp_udp_proxy/main_service.c:1635-1683 | within one batch every event still points to a live object when its turn comes; all events have their turn, or those up to the first listener that fails, which stops the loop; each connection whose event had its turn was served until the kernel answered EAGAIN, or is closed for an error or a cause; each listener with input was drained |
| Gateway.Gateway.Run | 02_tcp_udp_proxy/main_service.c:1607-1686 | over all rounds, reloads and signals included: the table stays coherent, every open descriptor owned, every connection and every task of the listener it came by, every datagram received has been queued once, in order and unchanged, and no connection was idle at the last sweep; all events `epoll_wait` reported have had their turn, but for those after a listener that failed; each time a listener had input, it was served until `accept` or `recvfrom` had no more or something failed, so that such answers are counted at least as often; only the stop flag or a failed `epoll_wait` ends the loop early |
| Gateway.Gateway.Batch | 02_tcp_udp_proxy/main_service.c:1635-1686 | one batch: what `Dispatch` says of every event, then the sweep, after which nobody is idle and by which alone a connection may have gone without a cause of its own |
| Gateway.Gateway.Round | 02_tcp_udp_proxy/main_service.c:1607-1686 | one round: what `epoll_wait` reports has its turn, unless a listener before it failed; each connection reported was served or is closed for a cause; the round is the last one only if `epoll_wait` failed |
| Gateway.Gateway.Signals | 02_tcp_udp_proxy/main_service.c:1608-1623 | an accepted reload makes its listeners those the configuration asks for, otherwise the old ones stay; a termination signal stops the loop; nothing changes that the loop or its clean-up relies on |
| Gateway.Gateway.Sweep | 02_tcp_udp_proxy/main_service.c:1685-1686 | the sweep leaves exactly the connections that are not idle, in order, and keeps the loop invariant |
| Gateway.Gateway.Quit | 02_tcp_udp_proxy/main_service.c:1687-1699 | all connections, the channels actually set up and epoll are closed once each, whatever a reload has put into the configuration |
| Gateway.RunService | 02_tcp_udp_proxy/main_service.c:1545-1714 | over whole runs, with every failure path, the open descriptors at the end are those at the start; the event loop runs unless the set-up failed, and then the datagrams, events and listeners are accounted for as `Run` says, against the listeners configured |
| Relay.SendAllOrClose | 02_tcp_udp_proxy/main_service.c:810-836 | returns 0 exactly if all bytes went out, and then no call failed or blocked; otherwise a proper prefix did, and `send` failed or was full, once; interruptions never end it |
| Relay.RelayProxyData | 02_tcp_udp_proxy/main_service.c:897-935 | one chunk of at most a buffer is received and passed on completely, with no call failing (1); or the input has ended (0); or one call failed (-1) and a prefix went out; nothing else ends it |
| Relay.RelayStreams | 02_tcp_udp_proxy/main_service.c:937-995 | whenever it polls and when it returns 0, both directions have delivered exactly what was received; after a failure at most one is short, by at most a buffer; every input reported ready has moved, that of the last answer before a hang-up too; it ends exactly when a stream ended, a side hung up, a call failed or `poll` did; and it makes exactly the moves of the relay's machine |
| Relay.CallMoves | 02_tcp_udp_proxy/main_service.c:903-934 | receiving a chunk and sending part or all of it are moves of the relay's machine that lead where the call leaves the sockets |
| Relay.RelayAnswer | 02_tcp_udp_proxy/main_service.c:948-994 | one answer of `poll`: the same, for each side in turn, with the moves it makes |
| TaskHandling.ConnectTarget | 02_tcp_udp_proxy/main_service.c:865-895 | a new open descriptor, connected to the configured target; or -1 with none left open, if there is no valid target, or after a counted failure of the socket or the connection |
| TaskHandling.ProcessTcpProxyClient | 02_tcp_udp_proxy/main_service.c:997-1025 | client and upstream descriptor are closed once on every path; without a connection, for want of a target or after a counted failure, nothing is moved; with one, made to the configured target, the relay ends and moves as `RelayStreams` says |
| TaskHandling.ProcessUdpProxyPacket | 02_tcp_udp_proxy/main_service.c:1027-1138 | the datagram goes to the configured target over a socket connected to it and closed on every path; at most one reply is attempted, exactly what the target answered, under the descriptor of the task and to the stored peer; without a reply, the sending, the waiting or the receiving failed, and if nothing was even sent, there is no target or the socket or the connection failed |
| TaskHandling.EchoUntilClosed | 02_tcp_udp_proxy/main_service.c:400-425 | the blocking echo returns a prefix, short by at most a buffer, and everything exactly when the client has closed; it ends only then or at the first call that failed or blocked |
| TaskHandling.ProcessTask | 02_tcp_udp_proxy/main_service.c:365-438 | a UDP echo task makes one attempt to send the stored datagram to the stored peer and nothing else; a UDP proxy task does all `ProcessUdpProxyPacket` says; every reply is one the worker-pool machine allows, and descriptors are left alone; a client task closes its client and nothing else, an echo returning what came, a proxy doing all `ProcessTcpProxyClient` says |
| TaskHandling.AcceptedProxiesHaveTargets | 02_tcp_udp_proxy/main_service.c:839-863 | among the listeners of accepted configurations exactly the proxies have a valid target |
| EndToEnd.EchoThroughProxy | tools/echo_test.c:306-354 | under any schedule and any split of reads and writes, what the client has received is a prefix of what it has sent, no round reports a mismatch, and passing means every round came back in full |
| EndToEnd.RunOfEach | tools/echo_test.c:331-346 | in every run of the composed machine each process makes a run of its own machine |
| EndToEnd.TestNeverReportsMismatch | tools/echo_test.c:331-346 | if the moves the test loop made are the client's moves in some run of client, relay and target, its verdict is not a wrong response |
| EndToEnd.StagesLoseAtMostABuffer | 02_tcp_udp_proxy/main_service.c:897-995 | at any time each stage has delivered a prefix and withholds at most a buffer; a relay in `poll` withholds nothing |
| EndToEnd.ReceivedIsPrefixOfSent | 02_tcp_udp_proxy/main_service.c:937-995 | prefix-delivering stages joined by ordered streams deliver a prefix end to end |
| EndToEnd.ResponseIsMessage | tools/echo_test.c:294-304 | a response of full length equals the message of its round |
| EndToEnd.MoveKeepsProxy | 02_tcp_udp_proxy/main_service.c:810-995 | every move keeps the relay's streams: received = sent + held, in both directions |
| EndToEnd.MoveKeepsTarget | tools/target_echo_server.c:375-406 | every move keeps the target's stream: received = sent + held |
| EndToEnd.StepKeepsClient | tools/echo_test.c:331-346 | every step keeps what the position in the test says about the bytes sent and received |
| EndToEnd.RunKeepsInv | tools/echo_test.c:331-346 | every interleaving of the three processes keeps the composed invariant |
| EchoCompletes.TestCanAlwaysPass | tools/echo_test.c:331-346 | from wherever a schedule has brought client, relay and target, if none has given up and `poll` reports input exactly where bytes wait, some continuation of the same kind ends with the client passed and every round received in full |
| EchoCompletes.Completion | 02_tcp_udp_proxy/main_service.c:937-995 | from every such state a schedule to the end exists, by a measure of the bytes still to pass the eight ends of the streams, the turns of the client and the position of relay and target |
| EchoCompletes.SomebodyCanMove | 02_tcp_udp_proxy/main_service.c:937-995 | the three never wait for each other all at once: when nothing is on its way, the response is complete |
| EchoCompletes.HonestRunKeepsReady | 02_tcp_udp_proxy/main_service.c:937-995 | while `poll` tells the truth the relay calls `recv` only where bytes wait and never closes |
| Processes.SendsAdvance | 02_tcp_udp_proxy/main_service.c:810-836 | a send loop that got `k` bytes out, however split, takes its machine `k` bytes further |
| EchoTest.SendAll | tools/echo_test.c:237-258 | 0 means everything went out and no call failed, -1 that a proper prefix did and `send` had failed or blocked |
| EchoTest.RecvExact | tools/echo_test.c:260-292 | 0 means the buffer holds exactly the next bytes of the stream and no call failed, -1 that fewer arrived, because time ran out, the stream ended or a call failed |
| EchoTest.Rounds | tools/echo_test.c:331-346 | passing means every round came back in full; a wrong response is reported only if what came back is not a prefix of what was sent, at the end of some round; it gives up if and only if a call failed, timed out or found the stream ended, and otherwise passes if and only if what came back is what was sent; it makes the moves of the client's machine, and the verdict is where that machine ends |
| EchoTest.ReceiveMoves | tools/echo_test.c:260-292 | a receive loop, however its chunks are split, takes the client's machine to the response received |
| EchoTest.RunTcpTest | tools/echo_test.c:306-354 | the same for the whole test, which closes what it opens, and gives up if and only if the message is too long, memory or a connection was not to be had, or a call failed |
| TargetServer.SendAll | tools/target_echo_server.c:237-266 | 0 means everything went out, -1 that a proper prefix did and a call had failed; a full socket is waited for |
| TargetServer.HandleTcpClient | tools/target_echo_server.c:375-406 | a client that stays has been echoed all it sent so far, and `recv` has answered EAGAIN, once, with nothing failing; one that goes has ended its stream or a call failed, and has lost at most a buffer; the moves are those of the target's machine |
| TargetServer.Server.AddClient | tools/target_echo_server.c:316-328 | the first free slot takes the descriptor, or no slot is free and nothing changes |
| TargetServer.Server.RemoveClient | tools/target_echo_server.c:330-336 | the slot's descriptor is closed once and the slot freed; slots keep distinct open descriptors |
| TargetServer.Server.AcceptTcpClients | tools/target_echo_server.c:338-373 | goes on until `accept` has no more or fails; only free slots change; each client accepted has a slot, or was turned away when none was free, or a call failed, and the numbers add up |
| TargetServer.Server.GiveSlot | tools/target_echo_server.c:316-372 | a new client gets a free slot and a stream of its own if there is a free slot, and all others keep theirs |
| TargetServer.Server.BuildPollTable | tools/target_echo_server.c:475-504 | the table is the listeners and then the slots in use, in order, within 2 + 1024 entries |
| TargetServer.ClientEntriesMeaning | tools/target_echo_server.c:493-501 | each entry holds its slot's descriptor, slots appear in increasing order and at most once |
| TargetServer.TableMeaning | tools/target_echo_server.c:475-504 | in the whole table every entry without a slot is one of the two listeners, each listener there is has its entry, every other entry holds its slot's descriptor, and slots increase |
| TargetServer.EverySlotPolled | tools/target_echo_server.c:493-501 | every slot in use has its entry |
| TargetServer.Server.DispatchEntry | tools/target_echo_server.c:513-537 | an entry changes only its own slot and free ones; a client with a problem is removed without touching its stream, any other only at end of stream or after a failed call; one that stays with input was served until `recv` answered EAGAIN, one without input is left alone; a listener with input until the kernel had no more; clients stay accounted for, and a datagram is missing among those sent back only for a failed call |
| TargetServer.Server.TakeTurn | tools/target_echo_server.c:506-538 | the turn of one entry serves it and leaves the entries still to come current and their clients untouched |
| TargetServer.Server.FreshTableIsCurrent | tools/target_echo_server.c:475-504 | right after it is built, every entry names a listener or a slot that holds the polled descriptor and has a stream, and slots appear in increasing order, after the listeners, with distinct descriptors |
| TargetServer.Server.Dispatch | tools/target_echo_server.c:506-538 | every entry has its turn, and its slot then still holds the descriptor that was polled, whatever was accepted and removed earlier in the pass; afterwards each polled client is gone, with a problem, at end of stream or after a failed call, or had no problem and, if it had input, was served until `recv` answered EAGAIN; each listener with input was drained; every client accepted has a slot, had one or was closed at once; every datagram received was sent back in order, but for one per failed call |
| TargetServer.Server.Serve | tools/target_echo_server.c:475-538 | after any number of rounds slots hold distinct open descriptors and every client there has been echoed all it sent; each answer of `poll` had its pass; each report of input on a listener was served, so that `accept` or `recvfrom` answered at least as often that there is no more, or failed; all clients accepted are accounted for; all datagrams received were sent back, in order and unchanged, but for at most one per failed call; only a failed `poll` ends the loop early |
| TargetServer.Server.HandleUdpPackets | tools/target_echo_server.c:408-440 | what goes out whole is what came in, in order, each datagram to its sender; only the last reply can be missing; it ends only when `recvfrom` has no more or a call failed |
| TargetServer.BothAnswered | tools/target_echo_server.c:408-440 | what was sent back over two stretches of time is what was received over both, with the losses of both |
| TargetServer.Server.SendUdpReply | tools/target_echo_server.c:268-301 | 0 means the datagram went out whole, once; -1 that it did not |
| TargetServer.Server.Run | tools/target_echo_server.c:442-551 | after the rounds, with the accounts of `Serve`, every client and each listener is closed once |
| ConfigReader.TrimInPlace | 02_tcp_udp_proxy/config.c:16-36 | the string at the returned position is the trimmed one, and nothing outside the original string was written |
| ConfigReader.StrTok | 02_tcp_udp_proxy/config.c:215-221 | the first field is a string of its own where it stands, the rest splits into the remaining fields, and nothing outside the text was written; no field exactly if there is none |
| ConfigReader.SplitValue | 02_tcp_udp_proxy/config.c:202-230 | the seven calls find the fields of the value, each intact and apart from the others, and tell fewer than four and more than six |
| ConfigReader.TrimField | 02_tcp_udp_proxy/config.c:232-242 | trimming one field in the shared buffer leaves the other fields as they are |
| ConfigReader.ServerConfig.SetDefault | 02_tcp_udp_proxy/config.c:255-261 | the configuration is the default one |
| ConfigReader.ServerConfig.AddListenerConfig | 02_tcp_udp_proxy/config.c:93-200 | accepts exactly what the specification accepts, appends that listener, and leaves everything as it was otherwise |
| ConfigReader.ServerConfig.ParseValue | 02_tcp_udp_proxy/config.c:202-253 | the destructive parser computes the specification's function of the value |
| ConfigReader.ServerConfig.TakeSetting | 02_tcp_udp_proxy/config.c:313-345 | each key has the effect the specification gives it, or fails where it does |
| ConfigReader.ServerConfig.TakeLine | 02_tcp_udp_proxy/config.c:284-345 | a line in the buffer is skipped, applied or refused as the specification says |
| ConfigReader.Fgets | 02_tcp_udp_proxy/config.c:278 | the buffer holds the next line up to its first NUL, cut at 511 characters |
| ConfigReader.ServerConfig.ParseConfigFile | 02_tcp_udp_proxy/config.c:263-364 | succeeds exactly on the files `ParseFile` accepts, with the same configuration; a file that cannot be opened fails |
| ConfigSpec.AcceptedFilesAreWellFormed | 02_tcp_udp_proxy/config.c:93-364 | whatever a file holds, an accepted one gives 1 to 16 listeners with known protocol and service, valid addresses, ports 1 to 65535, a target exactly for proxies, 1 to 128 workers and a log file name that fits |
| ConfigSpec.LegacyListener | 02_tcp_udp_proxy/config.c:263-364 | a file whose settings name no `listener` is accepted if and only if every value is one its key takes and the last `listen_ip`, or 0.0.0.0, is an address; the result is the single TCP echo listener on it and the last `listen_port`, or 8080, with the last value of every other key |
| ConfigSpec.FileMeaning | 02_tcp_udp_proxy/config.c:278-346 | any text is read as its settings, one after the other, and refused if a line cannot be read |
| ConfigSpec.LastSettingsHold | 02_tcp_udp_proxy/config.c:313-345 | each `listener` setting makes one listener, and of every other key the last value holds |
| ConfigSpec.NoListenerLine | 02_tcp_udp_proxy/config.c:313-317 | the loop ends without a listener exactly if no setting of the file has the key `listener` |
| ConfigMeaning.ParserReadsTheMeaning | 02_tcp_udp_proxy/config.c:263-364 | a text is accepted if and only if none of its lines is unreadable, every value is one its key takes, each `listener` value can be understood, there are at most 16, and without one the last `listen_ip` is an address; then the listeners are those values in the order of the file, wherever they stand, with the protocol and service their words name, or the legacy one, with the last value of every other key |
| ConfigMeaning.SettingsMeaning | 02_tcp_udp_proxy/config.c:313-345 | all settings are taken if and only if each is good and the listeners fit, and the listeners are added in order among the other keys |
| ConfigMeaning.ValueMeaning | 02_tcp_udp_proxy/config.c:202-253 | parsing a listener value adds exactly the listener that can be read off the text between its commas, if there is room and it can be understood, and fails otherwise |
| ConfigLines.LineMeans | 02_tcp_udp_proxy/config.c:284-311 | of any line: it is skipped if it is white space or begins with '#' after white space; otherwise it cannot be read if it has no '=' or only white space on one side of the first; otherwise its setting is what stands on the two sides, trimmed |
| ConfigLines.FileIsItsLines | 02_tcp_udp_proxy/config.c:278-311 | a file can be read if and only if each of its lines can, and its settings are theirs, in order |
| ConfigLines.UnreadableLineFails | 02_tcp_udp_proxy/config.c:294-311 | one line that cannot be read makes the whole file fail |
| ConfigLines.ShortLine | 02_tcp_udp_proxy/config.c:278 | a line of up to 510 characters is read whole, with its newline |
| ConfigLines.LongLine | 02_tcp_udp_proxy/config.c:278 | of a longer line the first 511 characters count as a line of their own |
| ConfigSpec.ProtoByName | 02_tcp_udp_proxy/config.c:63-76 | a word is read as a protocol if and only if it is that protocol's name, "tcp" or "udp", in any mixture of cases |
| ConfigSpec.ServiceByName | 02_tcp_udp_proxy/config.c:78-91 | likewise "echo" and "proxy" |
| ConfigSpec.LevelByName | 02_tcp_udp_proxy/config.c:38-61 | likewise "debug", "info", "warn" or "warning", and "error" |
| ConfigSpec.AddListenerWellFormed | 02_tcp_udp_proxy/config.c:93-200 | an accepted listener keeps the configuration well-formed and the earlier listeners in place |
| ConfigSpec.LinesWellFormed | 02_tcp_udp_proxy/config.c:278-346 | every line of every file keeps the configuration well-formed so far |
| ConfigRoundTrip.PrintThenParse | README.md:211-221 | printing any well-formed configuration whose log file name is nonempty, trimmed and on one line, and reading the text, gives the configuration back |
| ConfigRoundTrip.RoundTrip | 02_tcp_udp_proxy/config.c:263-364 | so does any text with the same settings: any white space around keys, values and fields, any blank and comment lines |
| ConfigRoundTrip.LayoutDoesNotMatter | 02_tcp_udp_proxy/config.c:284-311 | two files with the same settings are read alike, or both refused |
| ConfigRoundTrip.ListenerRoundTrip | 02_tcp_udp_proxy/config.c:202-253 | a well-formed listener written with any white space around its fields is read back as itself, after the listeners before it |
| ConfigFormat.AcceptedListenerValues | 02_tcp_udp_proxy/config.c:202-253 | in terms of the text between the commas: a value is accepted if and only if there is room and, after empty fields are dropped, its fields can be understood; ports may be any text that begins with a number which is a port but for multiples of 2^32 |
| ConfigFormat.AcceptedListeners | 02_tcp_udp_proxy/config.c:93-200 | which fields make a listener: room, a known protocol and service, a valid address and port, and a valid target for a proxy or none for an echo; exactly these |
| ConfigFormat.TokensAreFields | 02_tcp_udp_proxy/config.c:215-221 | the fields found are the texts between the commas that are not empty |
| ConfigFormat.JoinOfSplit | 02_tcp_udp_proxy/config.c:215-221 | the texts between the commas, joined by commas, are the value again |
| ConfigFormat.FormatWithoutDeviations | README.md:211-217 | the documented format is exactly what is understood without these three deviations |
| ConfigFormat.BeyondTheFormat | 02_tcp_udp_proxy/config.c:202-253 | a value outside the documented format is accepted if and only if there is room, it can be understood, and it has an empty field, an idle target of an echo, or a port not in plain decimal or not in range |
| ConfigFormat.DocumentedValuesAccepted | README.md:211-217 | every value in the documented format is accepted while there is room |
| ConfigFormat.PrintedIsDocumented | README.md:211-217 | every printed listener is in the documented format |
| ConfigFormat.EchoWithBlankTarget | 02_tcp_udp_proxy/config.c:175-182 | an echo listener with a blank fifth field, or also a sixth that reads as zero, is taken for the listener without them |
| ConfigFormat.EmptyFieldsAreSwallowed | 02_tcp_udp_proxy/config.c:215-221 | an empty field, at the beginning, the end or between, changes nothing |
| ConfigFormat.PortsWrap | 02_tcp_udp_proxy/config.c:239-244 | a port and that port plus any multiple of 2^32 are read as the same |
| ConfigRoundTrip.LineMeaning | 02_tcp_udp_proxy/config.c:286-311 | a blank or comment line changes nothing and a setting is applied, whatever the padding |
| ConfigRoundTrip.LineIsRead | 02_tcp_udp_proxy/config.c:278 | a line that fits the 512-byte buffer is read as one line |
| ConfigRoundTrip.DocumentMeaning | 02_tcp_udp_proxy/config.c:278-346 | a file means its settings, one after the other |
| ConfigText.TrimPadding | 02_tcp_udp_proxy/config.c:16-36 | trimming removes exactly the white space around a trimmed text |
| ConfigText.AtoiOfDecimal | 02_tcp_udp_proxy/config.c:239-244 | `atoi` reads decimal notation back for every value an `int` holds |
| ConfigText.AtoiWraps | 02_tcp_udp_proxy/config.c:239-244 | what a decimal number beyond `int` is read as |
| ConfigText.AtoiPositive | 02_tcp_udp_proxy/config.c:239-244 | which texts read as a number in a range: those that begin with one, but for multiples of 2^32, within `long` |
| ConfigText.AddressShape | 02_tcp_udp_proxy/config.c:123 | a dotted-decimal address has at most 15 characters, digits and dots only, so it fits its field |
| TextMeaning.AddressMeaning | 02_tcp_udp_proxy/config.c:123 | an address is accepted if and only if it is four numbers up to 255, in decimal without leading zeros, joined by dots |
| TextMeaning.NumeralMeaning | 02_tcp_udp_proxy/config.c:239-244 | a number is read after white space and a sign, digit by digit in base ten, up to the first other character; without digits it is zero |
| TextMeaning.AtoiOfSigned | 02_tcp_udp_proxy/config.c:239-244 | decimal notation with a sign is read as that number, within the range of `int` |
| TextMeaning.TrimParts | 02_tcp_udp_proxy/config.c:16-36 | every text is what trimming leaves, which neither begins nor ends with white space, with white space around it |
| TextMeaning.SpaceCharacters | 02_tcp_udp_proxy/config.c:16-36 | white space is the blank and the control characters from tab to carriage return |
| ConfigStore.SnapshotIsWholeAndCurrent | 02_tcp_udp_proxy/config.c:460-482 | when a snapshot's copy ends it equals the configuration current at that moment, which is live and was accepted as a whole |
| ConfigStore.ReturnedSnapshotsAreWhole | 02_tcp_udp_proxy/config.c:460-482 | every snapshot returned is one whole accepted configuration |
| ConfigStore.ReadersSeeNoChange | 02_tcp_udp_proxy/config.c:466-479 | while a reader is inside the lock, no step of any thread changes which configuration is current, its contents, or that it is allocated |
| ConfigStore.NoUseAfterFreeNoLeak | 02_tcp_udp_proxy/config.c:366-417 | nobody copies from or frees an object that is not allocated, and every allocated object is the current one or some thread's own |
| ConfigStore.OnlySuccessChangesTheConfiguration | 02_tcp_udp_proxy/config.c:366-417 | what readers can see changes only at the assignment of a load or reload, to a whole accepted configuration, or by `free_config` |
| ConfigStore.SomeCallCanMove | 02_tcp_udp_proxy/config.c:366-482 | the lock never deadlocks: in every reachable state with a thread inside a call, some thread inside a call can take its next step |
| ConfigStore.CallsComeToAnEnd | 02_tcp_udp_proxy/config.c:366-482 | every step inside a call, but copying a word again, leaves that call fewer steps to go and every other as many |
| AtomicStore.StoreIsAtomic | 02_tcp_udp_proxy/config.c:366-482 | linearizability: every run from the start, whatever its threads and interleaving, is a run of the machine with one value in which load stores its configuration and succeeds if there is none and fails otherwise, reload always stores and succeeds, free clears, and snapshot returns the value or fails if there is none, each at one moment between call and return |
| AtomicStore.RunIsAtomic | 02_tcp_udp_proxy/config.c:366-482 | the same from any state that satisfies the invariant, by induction |
| AtomicStore.StepIsAct | 02_tcp_udp_proxy/config.c:366-482 | each step of the store is one act of that machine or shows nothing to the callers |
| AtomicStore.WriterTakesEffect | 02_tcp_udp_proxy/config.c:377-417 | a reload that holds the lock, or a load that finds no configuration, makes what the parser accepted for it the visible configuration and will succeed; a load that finds one will fail and changes nothing |
| AtomicStore.SnapshotTakesEffect | 02_tcp_udp_proxy/config.c:460-482 | a snapshot that reads while a configuration is current will return it, and will fail only if there is none |
| AtomicStore.DecidedIsReturned | 02_tcp_udp_proxy/config.c:366-482 | what a call will return is decided once, no step of any thread changes it, and it is what the call returns |
| AtomicStore.EveryCallCanBeMade | 02_tcp_udp_proxy/config.c:366-482 | in a quiet store every load, reload, free and snapshot can be made, with any configuration the parser may accept, and runs to its end with the effect and result above |
| AtomicStore.CallRuns | 02_tcp_udp_proxy/config.c:366-482 | a call left to itself comes to its end as its effect says |
| ConfigStore.StepKeepsLocks | 02_tcp_udp_proxy/config.c:379-482 | every step keeps writers exclusive |
| ConfigStore.StepKeepsOneOwner | 02_tcp_udp_proxy/config.c:366-459 | every step keeps each object owned by at most one thread, so that none is freed twice |
| ConfigStore.StepKeepsNoLeak | 02_tcp_udp_proxy/config.c:366-459 | every step keeps each allocated object owned or current |
| ConfigStore.StepKeepsContents | 02_tcp_udp_proxy/config.c:366-417 | every step keeps: what is or can become current was accepted as a whole |
| ConfigStore.StepKeepsCopies | 02_tcp_udp_proxy/config.c:466-479 | every step keeps: what a reader has copied so far agrees with the current configuration |
| ConfigStore.RunKeepsInv | 02_tcp_udp_proxy/config.c:366-482 | every interleaving of loads, reloads, snapshots and frees keeps the whole invariant |

## Left out

- `01_service_framework`: an older copy that the build does not use.
- Daemonizing, signal installation, command line, `realpath`, socket options and `bind`/`listen`: set-up of a socket is one step that succeeds or fails. A signal is an arbitrary change of the stop or reload flag between rounds.
- Logging: it changes nothing that is modelled. The log call after a successful push still reads the task (02_tcp_udp_proxy/main_service.c:1338-1342), so nothing is claimed about who reads a task, only about who owns and frees it.
- Open sockets during shutdown: the UDP listeners are closed before the workers have drained the queue (02_tcp_udp_proxy/main_service.c:1690-1713), so it is not claimed that workers use open sockets only.
- Workers and event loop share no heap model: the interleavings are in the step machine `WorkerPool`, the heap list in `TaskQueue`, each proved against the same queue functions; `Gateway.RunService` follows the event loop's thread and the descriptors it opens; `DatagramAccounts` joins the two by the tasks accepted.
- The TCP proxy branch of the event loop (02_tcp_udp_proxy/main_service.c:1651-1655) does nothing in the source and nothing here: such connections leave by the idle sweep or at shutdown. No code queues a client task, so the relay functions are proved as called from `process_task`.
- `EndToEnd` connects three machines by two streams. That the streams deliver in order and unchanged is what it assumes of TCP; connection set-up, half-closed streams and other connections of the same relay are not part of it.
- Full delivery when a peer half-closes: a hang-up can close with output waiting, so only the prefix and the bound on the loss are claimed.
- `EPOLL_CTL_DEL` failures: the descriptor is closed next, which removes the entry in any case.
- `close_tcp_conn(NULL)` and events with a null pointer or a negative descriptor: no registered pointer is of that kind, which is proved, so the checks for them are not modelled.
- EPOLLERR, EPOLLHUP and EPOLLRDHUP in the interest mask: always asked for, so only EPOLLIN and EPOLLOUT are kept.
- Fairness and real time: nothing says when a step happens. Termination of the shutdown assumes that handlers return.
- The UDP part of the test client, its command line and its address resolution.
- The unlocked getters (02_tcp_udp_proxy/config.c:419-451): not declared in the header and not part of the locking protocol.
- Contents of the configuration structure in `ConfigStore` are words; that the parser accepts only well-formed ones is `ConfigSpec.AcceptedFilesAreWellFormed`.
- Read errors in the middle of a configuration file: `fgets` then ends as at the end of the file, so they are covered by a shorter file.
- Diagnostics on standard error and line numbers.
- ConfigReader.StrTok: models `strtok_r` for the separator "," by its two scans; other library functions that only read (`strcmp`, `strcasecmp`, `atoi`, `inet_pton`, `snprintf`) are functions on strings.
- ConfigText.AtoiOfDecimal: `atoi` follows the 64-bit GNU C library (saturating at `long`, then cut to 32 bits), `inet_pton` its dotted-quad syntax; other libraries are free outside the range of `int`.
- ConfigReader.ServerConfig.ParseConfigFile: says nothing about the configuration after a failure; the callers free it.
- ConfigReader.ServerConfig.AddListenerConfig: a listener is a value stored in its slot as a whole; the character arrays inside it are strings.
- TaskHandling.ProcessTcpProxyClient: that the two sockets are the client's and the one just connected is how it is called; the bytes the target sends are any bytes.
- TaskHandling.ProcessUdpProxyPacket: how long it waits for the target is left out; a timeout is one of the answers of `poll`.
- TargetServer.Server.Run: `poll` on a listener that reports a problem is skipped, as in the source; creating the two listeners is before the model begins.
