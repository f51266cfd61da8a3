/** `main_t` as far as descriptors, connections and dispatch go: set-up with its failure
    paths, the event loop, and the shutdown that closes everything. */
module Gateway {
  import opened Kernel
  import opened Lists
  import opened EchoConnection
  import opened Listeners
  import opened Options
  import opened ConnectionTable
  import opened Totals
  import Q = TaskQueue

  /** One entry of the array `epoll_wait` fills: the registered pointer and its flags. */
  datatype Event = Event(fd: int, entry: Registration, flags: Flags)

  /** The task for a datagram holds a copy of it, its sender and the socket it came by. */
  ghost predicate Carries(t: Q.Task, p: Packet) {
    t.kind == Q.UdpPacket && t.clientFd == p.fd && t.peer == p.peer && t.data == p.data && |p.data| <= IO_BUF_SIZE
  }

  /** From `a` on the tasks carry the datagrams from `r` on. */
  ghost predicate CarriesAll(tasks: seq<Q.Task>, a: nat, packets: seq<Packet>, r: nat) {
    && a <= |tasks| && r <= |packets| && |tasks| - a == |packets| - r
    && forall k | a <= k < |tasks| :: Carries(tasks[k], packets[k - a + r])
  }

  /** Each task belongs to the UDP listener it came by. */
  ghost predicate FromListeners(tasks: seq<Q.Task>, active: seq<Channel>) {
    forall k | 0 <= k < |tasks| ::
      Channel(tasks[k].clientFd, tasks[k].channel) in active && tasks[k].channel.proto == Udp
  }

  lemma MoreFromListeners(before: seq<Q.Task>, tasks: seq<Q.Task>, active: seq<Channel>, channel: Channel)
    requires FromListeners(before, active) && before <= tasks && channel in active && channel.config.proto == Udp
    requires forall k | |before| <= k < |tasks| :: tasks[k].clientFd == channel.fd && tasks[k].channel == channel.config
    ensures FromListeners(tasks, active)
  {
    forall k | 0 <= k < |tasks|
      ensures Channel(tasks[k].clientFd, tasks[k].channel) in active && tasks[k].channel.proto == Udp
    {
      if k < |before| {
        assert tasks[k] == before[k];
      } else {
        assert Channel(tasks[k].clientFd, tasks[k].channel) == channel;
      }
    }
  }

  /** What was carried before, and what is carried from there on. */
  lemma CarriedOn(before: seq<Q.Task>, tasks: seq<Q.Task>, received: seq<Packet>, packets: seq<Packet>)
    requires before <= tasks && received <= packets
    requires CarriesAll(before, 0, received, 0) && CarriesAll(tasks, |before|, packets, |received|)
    ensures CarriesAll(tasks, 0, packets, 0)
  {
    forall k | 0 <= k < |tasks| ensures Carries(tasks[k], packets[k]) {
      if k < |before| { assert tasks[k] == before[k] && packets[k] == received[k]; }
    }
  }

  /** The tasks belong to the UDP listeners they came by, which have descriptors of their own. */
  ghost predicate OwnChannels(tasks: seq<Q.Task>, active: seq<Channel>) {
    && (forall c, d | c in active && d in active && c.fd == d.fd :: c == d)
    && FromListeners(tasks, active)
  }

  /** At most one event per registered descriptor, with the pointer registered for it. */
  ghost predicate Reported(events: seq<Event>, table: map<int, Registration>) {
    && (forall k | 0 <= k < |events| :: events[k].fd in table && events[k].entry == table[events[k].fd])
    && (forall j, k | 0 <= j < k < |events| :: events[j].fd != events[k].fd)
  }

  lemma NothingCarried(tasks: seq<Q.Task>, packets: seq<Packet>)
    ensures CarriesAll(tasks, |tasks|, packets, |packets|)
  {
  }

  lemma OneMoreCarried(tasks: seq<Q.Task>, a: nat, packets: seq<Packet>, r: nat, t: Q.Task, p: Packet)
    requires CarriesAll(tasks, a, packets, r) && Carries(t, p)
    ensures CarriesAll(tasks + [t], a, packets + [p], r)
  {
  }

  /** The descriptors of some channels. */
  function FdsOf(channels: seq<Channel>): set<int> {
    set c | c in channels :: c.fd
  }

  /** The channels' descriptors and the epoll descriptor are open, distinct, not inherited. */
  ghost predicate Distinguished(active: seq<Channel>, epollFd: int, inherited: set<int>) {
    && -1 <= epollFd && (epollFd >= 0 ==> epollFd !in inherited)
    && (forall i | 0 <= i < |active| :: active[i].fd >= 0 && active[i].fd !in inherited && active[i].fd != epollFd)
    && (forall i, j | 0 <= i < j < |active| :: active[i].fd != active[j].fd)
  }

  /** Each channel is registered under its own index, and nothing else is registered. */
  ghost predicate AllRegistered(active: seq<Channel>, table: map<int, Registration>) {
    && (forall i | 0 <= i < |active| :: active[i].fd in table && table[active[i].fd] == Listening(i))
    && (forall fd | fd in table ::
          table[fd].Listening? && table[fd].channel < |active| && active[table[fd].channel].fd == fd)
  }

  /** Taking the first channel's descriptor away. */
  lemma OneChannelLess(active: seq<Channel>, epollFd: int, inherited: set<int>, i: nat)
    requires Distinguished(active, epollFd, inherited) && i < |active|
    ensures var fd := active[i].fd;
            && fd >= 0 && fd in FdsOf(active[i..]) && fd !in inherited && fd != epollFd
            && FdsOf(active[i + 1..]) == FdsOf(active[i..]) - {fd}
  {
    assert active[i..] == [active[i]] + active[i + 1..];
    assert forall c :: c in active[i..] <==> c == active[i] || c in active[i + 1..];
    assert active[i] in active[i..];
  }

  /** What `main_t` has opened itself. */
  function Own(active: seq<Channel>, epollFd: int): set<int> {
    FdsOf(active) + if epollFd >= 0 then {epollFd} else {}
  }

  lemma OneMoreRegistered(active: seq<Channel>, table: map<int, Registration>, c: Channel)
    requires AllRegistered(active, table) && c.fd !in table
    ensures AllRegistered(active + [c], table[c.fd := Listening(|active|)])
  {
  }

  lemma OneMoreDistinguished(active: seq<Channel>, epollFd: int, inherited: set<int>, c: Channel)
    requires Distinguished(active, epollFd, inherited) && c.fd >= 0 && c.fd !in inherited + Own(active, epollFd)
    ensures Distinguished(active + [c], epollFd, inherited)
    ensures Own(active + [c], epollFd) == Own(active, epollFd) + {c.fd}
  {
    OneMoreChannel(active, c);
    assert forall i | 0 <= i < |active| :: active[i].fd in FdsOf(active);
  }

  lemma OneMoreChannel(channels: seq<Channel>, c: Channel)
    ensures FdsOf(channels + [c]) == FdsOf(channels) + {c.fd}
  {
    assert forall d :: d in channels + [c] <==> d in channels || d == c;
  }

  /** A listener that reports an error ends the loop. */
  predicate ListenerFails(e: Event) {
    e.entry.Listening? && (e.flags.error || e.flags.hangUp)
  }

  /** 1 for an event that reports input on a listener of protocol `proto`. */
  ghost function Asks(active: seq<Channel>, proto: Proto): Event -> nat {
    (e: Event) =>
      if && e.entry.Listening? && e.entry.channel < |active| && active[e.entry.channel].config.proto == proto
         && e.flags.readable && !ListenerFails(e)
      then 1 else 0
  }

  /** The peer of an echo connection is gone. */
  predicate HangsUp(event: Event) {
    && event.entry.Connection? && event.entry.conn.channel.config.service == Echo
    && (event.flags.error || event.flags.hangUp || event.flags.readHangUp)
  }

  /** What a connection has come to: whether output waits, and what the kernel has answered. */
  datatype Account = Account(pending: bool, dry: nat, full: nat, ends: nat, faults: nat)

  ghost function AccountOf(c: TcpConn): Account
    reads c`outLen, c`outSent, c.sock`dry, c.sock`full, c.sock`ends, c.sock`faults
  {
    Account(c.HasPendingOutput(), c.sock.dry, c.sock.full, c.sock.ends, c.sock.faults)
  }

  /** The kernel has no more of what the event reported, and nothing failed. */
  predicate NoMore(event: Event, was: Account, now: Account) {
    && now.ends == was.ends && now.faults == was.faults
    && (event.flags.readable && !was.pending ==> if now.pending then now.full > was.full else now.dry > was.dry)
    && (event.flags.writable && now.pending ==> now.full > was.full)
  }

  /** An event for a connection has been served, which takes the connection from `was` to `now`.
      A proxy connection is left alone. An echo connection is served until the kernel has no more,
      and is then open unless its peer hung up or it was swept; or it is closed at once, because
      of an error, or before that for a cause: its stream ended, a call failed or a registration
      was refused. */
  predicate ServedBy(event: Event, was: Account, now: Account, open: bool, refused: bool, swept: bool) {
    if !event.entry.Connection? || event.entry.conn.channel.config.service != Echo then
      now == was && (open || swept)
    else if open then
      !HangsUp(event) && NoMore(event, was, now)
    else if event.flags.error then
      now == was
    else
      || now.ends > was.ends || now.faults > was.faults || refused
      || (NoMore(event, was, now) && (HangsUp(event) || swept))
  }

  /** What was served may still be swept. */
  lemma ServedThenSwept(event: Event, was: Account, now: Account, open: bool, refused: bool, stays: bool, idle: bool)
    requires ServedBy(event, was, now, open, refused, false)
    requires (stays ==> open) && (open && !stays ==> idle)
    ensures ServedBy(event, was, now, stays, refused, idle)
  {
  }

  lemma ServedStill(event: Event, was: Account, now: Account, open: bool, refused: bool, later: bool)
    requires ServedBy(event, was, now, open, refused, false) && (refused ==> later)
    ensures ServedBy(event, was, now, open, later, false)
  {
  }

  /** Events are for different descriptors, connections and sockets. */
  ghost predicate Apart(events: seq<Event>) {
    && (forall j, k | 0 <= j < k < |events| :: events[j].fd != events[k].fd)
    && forall j, k | 0 <= j < k < |events| && events[j].entry.Connection? && events[k].entry.Connection? ::
      events[j].entry.conn != events[k].entry.conn && events[j].entry.conn.sock != events[k].entry.conn.sock
  }

  /** How many of the first `j` events ask to serve a listener of protocol `proto`. */
  ghost function Asked(active: seq<Channel>, proto: Proto, events: seq<Event>, j: nat): nat
    requires j <= |events|
  {
    Total(events[..j], Asks(active, proto))
  }

  lemma OneTurnMore(active: seq<Channel>, proto: Proto, events: seq<Event>, j: nat)
    requires j < |events|
    ensures Asked(active, proto, events, j + 1) == Asked(active, proto, events, j) + Asks(active, proto)(events[j])
  {
    assert events[..j + 1] == events[..j] + [events[j]];
    TotalAppend(events[..j], events[j], Asks(active, proto));
  }

  lemma NoTurns(active: seq<Channel>, proto: Proto, events: seq<Event>)
    ensures Asked(active, proto, events, 0) == 0
  {
  }

  lemma MoreServed(active: seq<Channel>, proto: Proto, served: seq<Event>, events: seq<Event>, turns: nat)
    requires turns <= |events|
    ensures var more := served + events[..turns];
            Asked(active, proto, more, |more|) ==
            Asked(active, proto, served, |served|) + Asked(active, proto, events, turns)
  {
    var more := served + events[..turns];
    assert more[..|more|] == more && served[..|served|] == served;
    TotalJoin(served, events[..turns], Asks(active, proto));
  }

  /** None of the first `j` events is for a listener that failed. */
  ghost predicate NoneFails(events: seq<Event>, j: nat)
    requires j <= |events|
  {
    forall k | 0 <= k < j :: !ListenerFails(events[k])
  }

  lemma OneMoreThatWorks(events: seq<Event>, j: nat)
    requires j < |events| && NoneFails(events, j) && !ListenerFails(events[j])
    ensures NoneFails(events, j + 1)
  {
  }

  /** How many events of a batch have their turn. */
  ghost predicate TurnsTaken(events: seq<Event>, turns: nat) {
    && turns <= |events|
    && (forall k | 0 <= k < turns - 1 :: !ListenerFails(events[k]))
    && (turns < |events| ==> LastFails(events, turns))
  }

  predicate LastFails(events: seq<Event>, turns: nat) {
    0 < turns <= |events| && ListenerFails(events[turns - 1])
  }

  /** The connections of the events are among `conns`. */
  ghost predicate Among(events: seq<Event>, conns: set<TcpConn>) {
    forall k | 0 <= k < |events| && events[k].entry.Connection? :: events[k].entry.conn in conns
  }

  lemma OneAmong(events: seq<Event>, conns: set<TcpConn>, j: nat)
    requires Among(events, conns) && j < |events|
    ensures events[j].entry.Connection? ==> events[j].entry.conn in conns
  {
  }

  lemma NothingYet(inherited: set<int>)
    ensures Distinguished([], -1, inherited) && AllRegistered([], map[]) && Own([], -1) == {}
    ensures CarriesAll([], 0, [], 0)
  {
  }

  class Gateway {
    const fds: FdTable
    const epoll: Epoll
    const clock: Clock
    const resources: Resources
    const waits: Waits
    const table: Connections
    const network: Network
    const queue: Q.TaskQueue
    const channels: array<Channel>
    var listenCount: nat
    var epollFd: int
    var stop: bool
    /** The listeners the current configuration asks for. */
    var listeners: seq<Listener>
    /** Batches dispatched so far, all events `epoll_wait` reported, and those that had their
        turn in the dispatch loop. */
    ghost var batches: nat
    ghost var reported: seq<Event>
    ghost var served: seq<Event>
    /** Descriptors open before `main_t` opened any. */
    ghost const inherited: set<int>

    constructor (fds: FdTable, listeners: seq<Listener>)
      ensures this.fds == fds && inherited == fds.open && this.listeners == listeners
      ensures Holding() && Registered() && listenCount == 0 && epollFd == -1 && table.conns == [] && table.live == {}
      ensures !stop
      ensures fresh(table) && fresh(epoll) && fresh(clock) && fresh(resources) && fresh(waits) && fresh(queue)
      ensures fresh(channels) && fresh(network)
      ensures resources.failures == epoll.failures == waits.answers == waits.interruptions == waits.failures == 0
      ensures queue.Valid() && queue.accepted == [] && queue.tail == null && Dispatched() && reported == served == []
    {
      hide Connections.Valid, Connections.OtherFds, Connections.OtherEntries, Q.TaskQueue.Valid;
      hide Distinguished, AllRegistered, Own, CarriesAll;
      this.fds, this.listeners, inherited := fds, listeners, fds.open;
      var e := new Epoll();
      var c := new Clock();
      var r := new Resources();
      epoll, clock, resources := e, c, r;
      queue := new Q.TaskQueue();
      var arriving: nat, stalls: nat := *, *;
      network := new Network(arriving, stalls);
      channels := new Channel[MAX_LISTENERS](_ => Channel(-1, Listener(Tcp, Echo, "", "", 0, "", "", 0)));
      listenCount, epollFd, stop, batches, reported, served := 0, -1, false, 0, [], [];
      waits := new Waits();
      table := new Connections(fds, e, c, r);
      new;
      assert Active() == [];
      NothingYet(inherited);
    }

    /** The channels set up so far. */
    ghost function Active(): seq<Channel>
      requires listenCount <= channels.Length
      reads `listenCount, channels
    {
      channels[..listenCount]
    }

    /** Every open descriptor has an owner: it was there before, belongs to a connection or
        a channel, or is the epoll descriptor. */
    ghost predicate Holding()
      reads `listenCount, `epollFd, channels, table, table.conns, table.live, table.epoll`table, table.fds`open
      reads set c | c in table.live :: c.outBuf
      reads set c | c in table.live :: c.sock
    {
      && table.fds == fds && table.epoll == epoll && table.clock == clock && table.resources == resources
      && table.Valid()
      && channels.Length == MAX_LISTENERS && listenCount <= MAX_LISTENERS
      && Distinguished(Active(), epollFd, inherited)
      && table.OtherFds() == inherited + Own(Active(), epollFd)
    }

    ghost predicate Registered()
      requires listenCount <= channels.Length
      reads `listenCount, channels, table, table.epoll`table
    {
      AllRegistered(Active(), table.OtherEntries())
    }

    /** How often something the set-up needs was not to be had. */
    ghost function Setbacks(): nat
      reads fds`denied, table, table.resources, table.epoll`failures
    {
      fds.denied + table.Failures()
    }

    /** `epoll_create1`. */
    method CreateEpoll() returns (ok: bool)
      requires Holding() && epollFd == -1
      modifies this`epollFd, fds`open, fds`denied
      ensures Holding() && ok == (epollFd >= 0)
      ensures if ok then Setbacks() == old(Setbacks()) else Setbacks() > old(Setbacks())
    {
      hide Connections.Valid, Connections.OtherFds;
      epollFd := table.OpenOther();
      ok := epollFd != -1;
    }

    /** `createListenSocket` and `createUdpSocket`: any step after `socket` may fail, and
        each failure closes the descriptor. */
    method CreateListener(proto: Proto) returns (fd: int)
      requires table.fds == fds && table.resources == resources && table.Valid()
      modifies fds`open, fds`denied, resources
      ensures if fd == -1 then Setbacks() > old(Setbacks()) else Setbacks() == old(Setbacks())
      ensures table.Valid() && table.OtherEntries() == old(table.OtherEntries())
      ensures fd == -1 ==> table.OtherFds() == old(table.OtherFds())
      ensures fd != -1 ==> fd >= 0 && fd in fds.open && fd !in table.epoll.table
      ensures fd != -1 ==> fd !in old(table.OtherFds()) && table.OtherFds() == old(table.OtherFds()) + {fd}
    {
      hide Connections.Valid, Connections.OtherFds, Connections.OtherEntries;
      fd := table.OpenOther();
      if fd < 0 { return -1; }
      var prepared := resources.Attempt();
      if !prepared {
        table.Refuse(fd);
        return -1;
      }
    }

    /** One round of the listener loop; on failure the caller goes to `quit`. */
    method OpenListener(listener: Listener) returns (ok: bool)
      requires Holding() && Registered() && epollFd >= 0 && listenCount < MAX_LISTENERS
      modifies this`listenCount, channels, fds`open, fds`denied, epoll, resources
      ensures Holding() && Registered() && epollFd >= 0
      ensures if ok then Setbacks() == old(Setbacks()) else Setbacks() > old(Setbacks())
      ensures listenCount == old(listenCount) + if ok then 1 else 0
      ensures forall i | 0 <= i < old(listenCount) :: channels[i] == old(channels[i])
      ensures ok ==> channels[old(listenCount)].config == listener
    {
      hide Connections.Valid, Connections.OtherFds, Connections.OtherEntries, Distinguished, AllRegistered, Own;
      var fd := CreateListener(listener.proto);
      if fd < 0 { return false; }
      channels[listenCount] := Channel(fd, listener);
      ghost var c := channels[listenCount];
      assert Active() == old(Active());
      var ret := table.AddOther(fd, listenCount);
      if ret == -1 {
        table.Refuse(fd);
        channels[listenCount] := channels[listenCount].(fd := -1);
        assert Active() == old(Active());
        return false;
      }
      OneMoreRegistered(Active(), old(table.OtherEntries()), c);
      OneMoreDistinguished(Active(), epollFd, inherited, c);
      listenCount := listenCount + 1;
      assert Active() == old(Active()) + [c];
      return true;
    }

    /** The listener loop of `main_t`. False means `goto quit`. */
    method OpenListeners() returns (ok: bool)
      requires Holding() && Registered() && epollFd >= 0 && listenCount == 0 && |listeners| <= MAX_LISTENERS
      modifies this`listenCount, channels, fds`open, fds`denied, epoll, resources
      ensures Holding() && Registered() && epollFd >= 0
      ensures ok <==> Setbacks() == old(Setbacks()) && listeners != []
      ensures Setbacks() >= old(Setbacks())
      ensures ok ==>
                0 < listenCount == |listeners| && forall i | 0 <= i < |listeners| :: channels[i].config == listeners[i]
    {
      hide Connections.Valid, Connections.OtherFds, Distinguished, AllRegistered, Own;
      for i := 0 to |listeners|
        invariant Holding() && Registered() && epollFd >= 0 && listenCount == i && Setbacks() == old(Setbacks())
        invariant forall k | 0 <= k < i :: channels[k].config == listeners[k]
      {
        ok := OpenListener(listeners[i]);
        if !ok { return; }
      }
      return listenCount != 0;
    }

    /** The set-up: epoll, then the listeners. It fails only for a cause. */
    method SetUp() returns (ok: bool)
      requires Holding() && Registered() && epollFd == -1 && listenCount == 0 && |listeners| <= MAX_LISTENERS
      modifies this`epollFd, this`listenCount, channels, fds`open, fds`denied, epoll, resources
      ensures Holding() && (ok ==> Registered() && epollFd >= 0)
      ensures !ok ==> || fds.denied > old(fds.denied) || listeners == []
                      || resources.failures + epoll.failures > old(resources.failures + epoll.failures)
      ensures ok ==> |Active()| == |listeners| && forall i | 0 <= i < |listeners| :: Active()[i].config == listeners[i]
    {
      hide Connections.Valid, Connections.OtherFds, Distinguished, AllRegistered, Own;
      ok := CreateEpoll();
      if ok { ok := OpenListeners(); }
    }

    /** How often receiving datagrams had to stop. */
    ghost function UdpStops(): nat
      reads network, resources
    {
      network.dry + network.faults + resources.failures
    }

    /** The task for one datagram, filled in and pushed. */
    method QueueDatagram(channel: Listener, packet: Packet) returns (ret: int, ghost task: Q.Task)
      requires queue.Valid() && |packet.data| <= IO_BUF_SIZE
      modifies queue, (if queue.tail == null then {} else {queue.tail})`next
      ensures queue.Valid() && queue.popped == old(queue.popped) && queue.stop == old(queue.stop)
      ensures queue.tail == old(queue.tail) || fresh(queue.tail)
      ensures fresh(task) && Carries(task, packet) && task.channel == channel
      ensures ret == if queue.stop then -1 else 0
      ensures queue.accepted == if queue.stop then old(queue.accepted) else old(queue.accepted) + [task]
    {
      hide Q.TaskQueue.Valid;
      var t := new Q.Task(Q.UdpPacket, channel, packet.fd, packet.peer, packet.data);
      task := t;
      ret := queue.Push(t);
    }

    /** `dispatch_udp_packets`: while the queue takes tasks, the tasks queued are exactly the
        datagrams received, in order; every other task it allocates is freed at once. It goes
        on until the kernel has no more or something fails. Returns both counts. */
    method DispatchUdpPackets(channel: Channel) returns (ghost mallocs: nat, ghost freed: nat)
      requires queue.Valid()
      modifies queue, network, resources, (if queue.tail == null then {} else {queue.tail})`next
      ensures || queue.stop || network.dry > old(network.dry) || network.faults > old(network.faults)
              || resources.failures > old(resources.failures)
      ensures UdpStops() >= old(UdpStops()) && (!queue.stop ==> UdpStops() == old(UdpStops()) + 1)
      ensures queue.Valid() && queue.popped == old(queue.popped) && queue.stop == old(queue.stop)
      ensures queue.tail == old(queue.tail) || fresh(queue.tail)
      ensures old(queue.accepted) <= queue.accepted && old(network.received) <= network.received
      ensures mallocs == freed + |queue.accepted| - |old(queue.accepted)|
      ensures !queue.stop ==>
                CarriesAll(queue.accepted, |old(queue.accepted)|, network.received, |old(network.received)|)
      ensures queue.stop ==> queue.accepted == old(queue.accepted) && |network.received| <= |old(network.received)| + 1
      ensures forall k | |old(queue.accepted)| <= k < |queue.accepted| :: fresh(queue.accepted[k])
      ensures forall k | |old(queue.accepted)| <= k < |queue.accepted| ::
                queue.accepted[k].clientFd == channel.fd && queue.accepted[k].channel == channel.config
    {
      hide CarriesAll, Q.TaskQueue.Valid;
      mallocs, freed := 0, 0;
      NothingCarried(queue.accepted, network.received);
      while true
        invariant queue.Valid() && queue.popped == old(queue.popped) && queue.stop == old(queue.stop)
        invariant queue.tail == old(queue.tail) || fresh(queue.tail)
        invariant old(queue.accepted) <= queue.accepted && old(network.received) <= network.received
        invariant mallocs == freed + |queue.accepted| - |old(queue.accepted)|
        invariant !queue.stop ==>
                    CarriesAll(queue.accepted, |old(queue.accepted)|, network.received, |old(network.received)|)
        invariant queue.stop ==> queue.accepted == old(queue.accepted) && network.received == old(network.received)
        invariant forall k | |old(queue.accepted)| <= k < |queue.accepted| :: fresh(queue.accepted[k])
        invariant forall k | |old(queue.accepted)| <= k < |queue.accepted| ::
                    queue.accepted[k].clientFd == channel.fd && queue.accepted[k].channel == channel.config
        invariant network.dry == old(network.dry) && network.faults == old(network.faults)
        invariant resources.failures == old(resources.failures)
        decreases network.arriving + network.stalls
      {
        var haveMemory := resources.Attempt();
        if !haveMemory { return; }
        mallocs := mallocs + 1;
        ghost var tasks, packets := queue.accepted, network.received;
        var n, packet, err := network.RecvFrom(channel.fd, Anyone, IO_BUF_SIZE);
        if n == -1 {
          freed := freed + 1;
          if err == EINTR { continue; }
          return;
        }
        var ret, task := QueueDatagram(channel.config, packet);
        if ret == -1 {
          freed := freed + 1;
          return;
        }
        OneMoreCarried(tasks, |old(queue.accepted)|, packets, |old(network.received)|, task, packet);
      }
    }

    /** Every datagram received so far was queued, once and in order, as it was. */
    ghost predicate Dispatched()
      reads queue, network
    {
      !queue.stop && CarriesAll(queue.accepted, 0, network.received, 0)
    }

    /** Every connection and every task belongs to the listener it came by, a TCP one for a
        connection and a UDP one for a task. */
    ghost predicate Rightful()
      requires listenCount <= channels.Length
      reads `listenCount, channels, table`live, table.live`fd, queue`accepted, fds`accepted
    {
      && (forall c | c in table.live ::
            && c.channel in Active() && c.channel.config.proto == Tcp
            && Arrival(c.fd, c.channel.fd) in fds.accepted)
      && FromListeners(queue.accepted, Active())
    }

    /** The invariant of the event loop. */
    ghost predicate Serving()
      reads *
    {
      Holding() && Registered() && epollFd >= 0 && queue.Valid() && Dispatched() && Rightful()
    }

    lemma OnlyDatagrams()
      requires queue.Valid() && Dispatched()
      ensures forall t | t in queue.tasks :: t.kind == Q.UdpPacket
    {
      assert forall t | t in queue.tasks :: t in queue.accepted;
    }

    /** The pointer of an event names an object that is still there. */
    ghost predicate Points(event: Event)
      reads this, table, table.live, channels
    {
      match event.entry
      case Connection(conn, _) => conn in table.live && conn.fd == event.fd
      case Listening(i) => i < listenCount <= channels.Length && channels[i].fd == event.fd
    }

    /** Input on a UDP listener: what is received is queued for the workers. */
    method HandleUdpListener(i: nat)
      requires Serving() && i < listenCount && channels[i].config.proto == Udp
      modifies resources, queue, network, (if queue.tail == null then {} else {queue.tail})`next
      ensures Serving() && UdpStops() > old(UdpStops())
      ensures queue.tail == old(queue.tail) || fresh(queue.tail)
      ensures old(queue.accepted) <= queue.accepted
      ensures forall k | |old(queue.accepted)| <= k < |queue.accepted| ::
                queue.accepted[k].clientFd == channels[i].fd && queue.accepted[k].channel == channels[i].config
    {
      hide Connections.Valid, Connections.OtherFds, Connections.OtherEntries, Q.TaskQueue.Valid, CarriesAll;
      hide Distinguished, AllRegistered, Own, FromListeners;
      var mallocs, freed := DispatchUdpPackets(channels[i]);
      CarriedOn(old(queue.accepted), queue.accepted, old(network.received), network.received);
      assert Active()[i] == channels[i];
      MoreFromListeners(old(queue.accepted), queue.accepted, Active(), channels[i]);
    }

    /** Input on a TCP listener: each client becomes a connection of that listener. */
    method HandleTcpListener(i: nat)
      requires Serving() && i < listenCount && channels[i].config.proto == Tcp
      modifies table, epoll, fds, clock, resources
      ensures Serving() && old(table.live) <= table.live
      ensures fds.refusals > old(fds.refusals) && old(fds.accepted) <= fds.accepted
      ensures forall c | c in table.live && c !in old(table.live) ::
                && fresh(c) && fresh(c.outBuf) && fresh(c.sock)
                && c.channel == channels[i] && Arrival(c.fd, channels[i].fd) in fds.accepted[|old(fds.accepted)|..]
      ensures forall a | a in fds.accepted[|old(fds.accepted)|..] :: a.via == channels[i].fd
      ensures |table.conns| - |old(table.conns)| + table.Failures() - old(table.Failures())
           == |fds.accepted| - |old(fds.accepted)|
      ensures resources.failures >= old(resources.failures) && epoll.failures >= old(epoll.failures)
    {
      hide Connections.Valid, Connections.OtherFds, Connections.OtherEntries, Q.TaskQueue.Valid, CarriesAll;
      hide Distinguished, AllRegistered, Own, FromListeners;
      assert Active()[i] == channels[i];
      table.AcceptClients(channels[i]);
    }

    /** The listener branch of the dispatch loop. True means `break`. */
    method HandleListener(i: nat, flags: Flags) returns (leave: bool)
      requires Serving() && i < listenCount
      modifies this`stop, table, epoll, fds, clock, resources, queue, network
      modifies (if queue.tail == null then {} else {queue.tail})`next
      ensures Serving()
      ensures old(table.live) <= table.live
      ensures forall c | c in table.live && c !in old(table.live) :: fresh(c) && fresh(c.outBuf) && fresh(c.sock)
      ensures queue.tail == old(queue.tail) || fresh(queue.tail)
      ensures leave == (flags.error || flags.hangUp) && stop == (old(stop) || leave)
      ensures old(fds.accepted) <= fds.accepted && old(queue.accepted) <= queue.accepted
      ensures forall c | c in table.live && c !in old(table.live) ::
                c.channel == channels[i] && Arrival(c.fd, channels[i].fd) in fds.accepted[|old(fds.accepted)|..]
      ensures forall a | a in fds.accepted[|old(fds.accepted)|..] :: a.via == channels[i].fd
      ensures if !leave && flags.readable && channels[i].config.proto == Tcp
              then |table.conns| - |old(table.conns)| + table.Failures() - old(table.Failures())
                   == |fds.accepted| - |old(fds.accepted)|
              else table.conns == old(table.conns) && fds.accepted == old(fds.accepted)
      ensures forall k | |old(queue.accepted)| <= k < |queue.accepted| ::
                queue.accepted[k].clientFd == channels[i].fd && queue.accepted[k].channel == channels[i].config
      ensures leave || !flags.readable || channels[i].config.proto == Udp ==> table.live == old(table.live)
      ensures leave || !flags.readable || channels[i].config.proto == Tcp ==> network.received == old(network.received)
      ensures fds.refusals >=
              old(fds.refusals) + if !leave && flags.readable && channels[i].config.proto == Tcp then 1 else 0
      ensures UdpStops() >=
              old(UdpStops()) + if !leave && flags.readable && channels[i].config.proto == Udp then 1 else 0
      ensures epoll.failures >= old(epoll.failures)
    {
      hide Connections.Valid, Connections.OtherFds, Connections.OtherEntries, Q.TaskQueue.Valid, CarriesAll;
      hide Distinguished, AllRegistered, Own, FromListeners, Rightful, Dispatched;
      if flags.error || flags.hangUp {
        stop := true;
        return true;
      }
      leave := false;
      if flags.readable {
        if channels[i].config.proto == Udp {
          HandleUdpListener(i);
        } else {
          HandleTcpListener(i);
        }
      }
    }

    /** What has become of the connection an event was for, since the handling began. */
    twostate predicate EchoServed(event: Event, swept: bool)
      requires event.entry.Connection?
      reads table, event.entry.conn, event.entry.conn.sock, epoll, clock
    {
      var c := event.entry.conn;
      ServedBy(event, old(AccountOf(c)), AccountOf(c), c in table.live, epoll.failures > old(epoll.failures),
               swept && IsIdle(c.lastActive, clock.last))
    }

    /** The connections some events are for were all there when the handling began, and have
        been served. */
    twostate predicate AllServed(new events: seq<Event>, swept: bool)
      reads table, epoll, clock
      reads set e | e in events && e.entry.Connection? :: e.entry.conn
      reads set e | e in events && e.entry.Connection? :: e.entry.conn.sock
    {
      forall k | 0 <= k < |events| && events[k].entry.Connection? ::
        events[k].entry.conn in old(table.live) && EchoServed(events[k], swept)
    }

    /** Closing connections leaves the others to their listeners. */
    twostate lemma FewerConnections()
      requires unchanged(`listenCount) && unchanged(channels) && listenCount <= channels.Length && old(Rightful())
      requires table.live <= old(table.live) && forall c | c in table.live :: c.fd == old(c.fd)
      requires queue.accepted == old(queue.accepted) && fds.accepted == old(fds.accepted)
      ensures Rightful()
    {
    }

    /** The connection branch of the dispatch loop: an echo connection is handled here, a proxy
        connection is none of the event loop's business. */
    method HandleConnection(event: Event)
      requires Serving() && Points(event) && event.entry.Connection?
      modifies table, table.live`next, epoll, fds`open, clock
      modifies event.entry.conn, event.entry.conn.outBuf, event.entry.conn.sock
      ensures Serving() && EchoServed(event, false)
      ensures table.live <= old(table.live) && forall c | c in table.live :: c.fd == old(c.fd)
      ensures forall c | c in old(table.live) && old(c.fd) != event.fd :: c in table.live && c.fd == old(c.fd)
      ensures event.entry.conn in table.live ==> epoll.failures == old(epoll.failures)
      ensures epoll.failures >= old(epoll.failures)
    {
      hide Connections.Valid, Connections.OtherFds, Connections.OtherEntries, Distinguished, AllRegistered, Own;
      hide Rightful, Q.TaskQueue.Valid, Dispatched;
      var conn := event.entry.conn;
      if conn.channel.config.service == Echo {
        var outcome := table.HandleEchoEvent(conn, event.flags);
        FewerConnections();
      }
    }

    /** One round of the dispatch loop. True means `break`. Every connection but the one the
        event is for stays as live as it was, under the same descriptor. */
    method DispatchOne(event: Event) returns (leave: bool)
      requires Serving() && Points(event)
      modifies this`stop, table, table.live`next, epoll, fds, clock, resources, queue, network
      modifies if event.entry.Connection? then {event.entry.conn} else {}
      modifies if event.entry.Connection? then {event.entry.conn.outBuf} else {}
      modifies if event.entry.Connection? then {event.entry.conn.sock} else {}
      modifies (if queue.tail == null then {} else {queue.tail})`next
      ensures Serving()
      ensures forall c | c in old(table.live) && old(c.fd) != event.fd :: c in table.live && c.fd == old(c.fd)
      ensures forall c | c in table.live && c in old(table.live) :: c.fd == old(c.fd)
      ensures forall c | c in table.live && c !in old(table.live) :: fresh(c) && fresh(c.outBuf) && fresh(c.sock)
      ensures queue.tail == old(queue.tail) || fresh(queue.tail)
      ensures leave == ListenerFails(event) && stop == (old(stop) || leave)
      ensures event.entry.Connection? ==> EchoServed(event, false)
      ensures event.entry.Connection? ==> table.live <= old(table.live) && network.received == old(network.received)
      ensures event.entry.Connection? && event.entry.conn in table.live ==> epoll.failures == old(epoll.failures)
      ensures fds.refusals >= old(fds.refusals) + Asks(Active(), Tcp)(event)
      ensures UdpStops() >= old(UdpStops()) + Asks(Active(), Udp)(event)
      ensures epoll.failures >= old(epoll.failures)
    {
      hide Serving, ServedBy, Rightful;
      leave := false;
      match event.entry
      case Connection(conn, _) =>
        HandleConnection(event);
      case Listening(i) =>
        leave := HandleListener(i, event.flags);
    }

    /** `epoll_wait`: up to `room` ready descriptors, each reported once. */
    method EpollWait(room: nat) returns (ok: bool, interrupted: bool, events: seq<Event>)
      modifies waits, this`reported
      ensures Reported(events, epoll.table) && |events| <= room
      ensures reported == if ok then old(reported) + events else old(reported)
      ensures waits.answers == old(waits.answers) + if ok then 1 else 0
      ensures waits.interruptions == old(waits.interruptions) + if !ok && interrupted then 1 else 0
      ensures waits.failures == old(waits.failures) + if !ok && !interrupted then 1 else 0
    {
      ok, interrupted := waits.Wait();
      events := [];
      var more: bool := *;
      while more && |events| < room
        invariant Reported(events, epoll.table) && |events| <= room
        decreases room - |events|, more
      {
        var fd: int, flags: Flags := *, *;
        if fd in epoll.table && forall k | 0 <= k < |events| :: events[k].fd != fd {
          events := events + [Event(fd, epoll.table[fd], flags)];
        } else {
          more := false;
        }
      }
      if ok { reported := reported + events; }
    }

    /** What epoll reports points to channels and live connections. */
    lemma ReportedPoints(events: seq<Event>)
      requires Serving() && Reported(events, epoll.table)
      ensures forall k | 0 <= k < |events| :: Points(events[k])
    {
      forall k | 0 <= k < |events| && events[k].entry.Listening? ensures Points(events[k]) {
        assert events[k].fd in table.OtherEntries();
      }
    }

    lemma ReportedApart(events: seq<Event>)
      requires Serving() && Reported(events, epoll.table) && forall k | 0 <= k < |events| :: Points(events[k])
      ensures Apart(events) && Among(events, table.live)
    {
    }

    /** Where the dispatch loop stands when `j` events have had their turn: theirs were served,
        and the others still point to live objects, untouched so far. `was` and `failures` are
        from the beginning of the batch. */
    ghost predicate Standing(events: seq<Event>, j: nat, was: seq<Account>, failures: nat)
      requires j <= |events| == |was|
      reads this, table, table.live, channels, epoll
      reads set e | e in events && e.entry.Connection? :: e.entry.conn
      reads set e | e in events && e.entry.Connection? :: e.entry.conn.sock
    {
      && epoll.failures >= failures
      && (forall k | j <= k < |events| ::
            Points(events[k]) && (events[k].entry.Connection? ==> AccountOf(events[k].entry.conn) == was[k]))
      && (forall k | 0 <= k < j && events[k].entry.Connection? ::
            var c := events[k].entry.conn;
            && ServedBy(events[k], was[k], AccountOf(c), c in table.live, epoll.failures > failures, false)
            && (c in table.live ==> c.fd == events[k].fd))
    }

    /** The turn of one event. */
    method TakeTurn(events: seq<Event>, j: nat, ghost was: seq<Account>, ghost failures: nat) returns (leave: bool)
      requires Serving() && j < |events| == |was| && Standing(events, j, was, failures) && Apart(events)
      modifies this`stop, table, table.live`next, epoll, fds, clock, resources, queue, network
      modifies if events[j].entry.Connection? then {events[j].entry.conn} else {}
      modifies if events[j].entry.Connection? then {events[j].entry.conn.outBuf} else {}
      modifies if events[j].entry.Connection? then {events[j].entry.conn.sock} else {}
      modifies (if queue.tail == null then {} else {queue.tail})`next
      ensures Serving() && Standing(events, j + 1, was, failures)
      ensures forall c | c in table.live && c !in old(table.live) :: fresh(c) && fresh(c.outBuf) && fresh(c.sock)
      ensures queue.tail == old(queue.tail) || fresh(queue.tail)
      ensures leave == ListenerFails(events[j]) && stop == (old(stop) || leave)
      ensures fds.refusals >= old(fds.refusals) + Asks(Active(), Tcp)(events[j])
      ensures UdpStops() >= old(UdpStops()) + Asks(Active(), Udp)(events[j])
    {
      hide Serving, ServedBy, AccountOf;
      leave := DispatchOne(events[j]);
      forall k | 0 <= k <= j && events[k].entry.Connection?
        ensures var c := events[k].entry.conn;
                ServedBy(events[k], was[k], AccountOf(c), c in table.live, epoll.failures > failures, false)
      {
        var c := events[k].entry.conn;
        var refused := if k == j then epoll.failures > old(epoll.failures) else old(epoll.failures) > failures;
        ServedStill(events[k], was[k], AccountOf(c), c in table.live, refused, epoll.failures > failures);
      }
    }

    lemma StandingAtFirst(events: seq<Event>, was: seq<Account>)
      requires |was| == |events| && forall k | 0 <= k < |events| :: Points(events[k])
      requires forall k | 0 <= k < |events| && events[k].entry.Connection? :: AccountOf(events[k].entry.conn) == was[k]
      ensures Standing(events, 0, was, epoll.failures) && NoneFails(events, 0)
    {
    }

    /** The dispatch loop over one batch. Each event still points to a live object when its
        turn comes, whatever the events before it closed or accepted. The first `turns` events
        have had their turn: all of them, or those up to the first listener that failed. */
    method Dispatch(events: seq<Event>) returns (turns: nat)
      requires Serving() && Reported(events, epoll.table)
      modifies this`stop, table, table.live, epoll, fds, clock, resources, queue, network
      modifies set c | c in table.live :: c.outBuf
      modifies set c | c in table.live :: c.sock
      modifies (if queue.tail == null then {} else {queue.tail})`next
      ensures Serving()
      ensures forall c | c in table.live && c !in old(table.live) :: fresh(c) && fresh(c.outBuf) && fresh(c.sock)
      ensures queue.tail == old(queue.tail) || fresh(queue.tail)
      ensures TurnsTaken(events, turns) && stop == (old(stop) || LastFails(events, turns))
      ensures forall k | 0 <= k < turns && events[k].entry.Connection? :: EchoServed(events[k], false)
      ensures fds.refusals >= old(fds.refusals) + Asked(Active(), Tcp, events, turns)
      ensures UdpStops() >= old(UdpStops()) + Asked(Active(), Udp, events, turns)
    {
      ghost var was := BatchBegins(events);
      hide Serving, Reported, Standing, Apart, Among, TurnsTaken, LastFails, Asked, ServedBy, AccountOf;
      turns := DispatchLoop(events, was, epoll.failures);
      StandingMeans(events, turns, was, old(epoll.failures));
    }

    /** The accounts at the beginning of a batch. */
    lemma BatchBegins(events: seq<Event>) returns (was: seq<Account>)
      requires Serving() && Reported(events, epoll.table)
      ensures |was| == |events| && Standing(events, 0, was, epoll.failures)
      ensures Apart(events) && Among(events, table.live)
      ensures forall k | 0 <= k < |events| && events[k].entry.Connection? :: was[k] == AccountOf(events[k].entry.conn)
    {
      ReportedPoints(events);
      ReportedApart(events);
      was := Accounts(events);
      StandingAtFirst(events, was);
    }

    /** The loop itself, one turn after the other. */
    method DispatchLoop(events: seq<Event>, ghost was: seq<Account>, ghost failures: nat) returns (turns: nat)
      requires Serving() && |was| == |events| && Standing(events, 0, was, failures)
      requires Apart(events) && Among(events, table.live)
      modifies this`stop, table, table.live, epoll, fds, clock, resources, queue, network
      modifies set c | c in table.live :: c.outBuf
      modifies set c | c in table.live :: c.sock
      modifies (if queue.tail == null then {} else {queue.tail})`next
      ensures Serving()
      ensures forall c | c in table.live && c !in old(table.live) :: fresh(c) && fresh(c.outBuf) && fresh(c.sock)
      ensures queue.tail == old(queue.tail) || fresh(queue.tail)
      ensures TurnsTaken(events, turns) && stop == (old(stop) || LastFails(events, turns))
      ensures Standing(events, turns, was, failures)
      ensures fds.refusals >= old(fds.refusals) + Asked(Active(), Tcp, events, turns)
      ensures UdpStops() >= old(UdpStops()) + Asked(Active(), Udp, events, turns)
    {
      hide Serving, Asks, Asked, Standing, Apart, Among, NoneFails, TurnsTaken, LastFails, ListenerFails;
      Bounded();
      NoTurns(Active(), Tcp, events);
      NoTurns(Active(), Udp, events);
      NothingFailed(events);
      turns := 0;
      while turns < |events|
        invariant turns <= |events| && Serving() && Standing(events, turns, was, failures)
        invariant stop == old(stop) && NoneFails(events, turns)
        invariant forall c | c in table.live && c !in old(table.live) :: fresh(c) && fresh(c.outBuf) && fresh(c.sock)
        invariant queue.tail == old(queue.tail) || fresh(queue.tail)
        invariant fds.refusals >= old(fds.refusals) + Asked(Active(), Tcp, events, turns)
        invariant UdpStops() >= old(UdpStops()) + Asked(Active(), Udp, events, turns)
      {
        OneTurnMore(Active(), Tcp, events, turns);
        OneTurnMore(Active(), Udp, events, turns);
        OneAmong(events, old(table.live), turns);
        var leave := TakeTurn(events, turns, was, failures);
        if leave {
          LeftEarly(events, turns);
          turns := turns + 1;
          return;
        }
        OneMoreThatWorks(events, turns);
        turns := turns + 1;
      }
      AllTurnsTaken(events);
    }

    lemma NothingFailed(events: seq<Event>)
      ensures NoneFails(events, 0)
    {
    }

    lemma LeftEarly(events: seq<Event>, j: nat)
      requires j < |events| && NoneFails(events, j) && ListenerFails(events[j])
      ensures TurnsTaken(events, j + 1) && LastFails(events, j + 1)
    {
    }

    lemma AllTurnsTaken(events: seq<Event>)
      requires NoneFails(events, |events|)
      ensures TurnsTaken(events, |events|) && !LastFails(events, |events|)
    {
    }

    /** The accounts of the connections some events are for. */
    ghost function Accounts(events: seq<Event>): (was: seq<Account>)
      reads set e | e in events && e.entry.Connection? :: e.entry.conn
      reads set e | e in events && e.entry.Connection? :: e.entry.conn.sock
      ensures |was| == |events|
      ensures forall k | 0 <= k < |events| && events[k].entry.Connection? :: was[k] == AccountOf(events[k].entry.conn)
    {
      if events == [] then []
      else Accounts(events[..|events| - 1])
           + [if events[|events| - 1].entry.Connection? then AccountOf(events[|events| - 1].entry.conn)
              else Account(false, 0, 0, 0, 0)]
    }

    /** What the loop has done, event by event. */
    lemma StandingMeans(events: seq<Event>, turns: nat, was: seq<Account>, failures: nat)
      requires turns <= |events| == |was| && Standing(events, turns, was, failures)
      ensures forall k | 0 <= k < turns && events[k].entry.Connection? ::
                var c := events[k].entry.conn;
                ServedBy(events[k], was[k], AccountOf(c), c in table.live, epoll.failures > failures, false)
    {
    }

    /** The event loop, for up to `rounds` rounds; a signal may end it after any of them and
        a reload may replace the configuration. Signals and `epoll_wait` are arbitrary. However
        it ends, every datagram received has been queued in order, and no connection was idle
        at the last sweep. All events reported have had their turn, but for those after a
        listener that failed, and each that asked to serve a listener was answered. Only the stop
        flag or a failure of `epoll_wait` ends the loop early. */
    method Run(rounds: nat)
      requires Serving() && table.conns == [] && queue.tail == null && |listeners| <= MAX_LISTENERS
      requires served == reported == []
      modifies this`stop, this`listeners, this`batches, this`reported, this`served
      modifies table, epoll, fds, clock, resources, queue, network, waits
      ensures Holding() && queue.Valid() && Dispatched() && Rightful()
      ensures table.NoneIdle(clock.last)
      ensures forall c | c in table.live :: fresh(c)
      ensures served <= reported && (served == reported || LastFails(served, |served|))
      ensures fds.refusals >= old(fds.refusals) + Asked(Active(), Tcp, served, |served|)
      ensures UdpStops() >= old(UdpStops()) + Asked(Active(), Udp, served, |served|)
      ensures batches - old(batches) == waits.answers - old(waits.answers)
      ensures || stop || waits.failures > old(waits.failures)
              || waits.answers + waits.interruptions - old(waits.answers + waits.interruptions) == rounds
    {
      NoConnections();
      hide Serving, Connections.NoneIdle, Asked;
      NoTurns(Active(), Tcp, served);
      NoTurns(Active(), Udp, served);
      var left := rounds;
      while !stop && left > 0
        invariant Serving() && |listeners| <= MAX_LISTENERS
        invariant forall c | c in table.live :: fresh(c) && fresh(c.outBuf) && fresh(c.sock)
        invariant table.NoneIdle(clock.last)
        invariant queue.tail == null || fresh(queue.tail)
        invariant served <= reported && (served == reported || (stop && LastFails(served, |served|)))
        invariant fds.refusals >= old(fds.refusals) + Asked(Active(), Tcp, served, |served|)
        invariant UdpStops() >= old(UdpStops()) + Asked(Active(), Udp, served, |served|)
        invariant batches - old(batches) == waits.answers - old(waits.answers) && waits.failures >= old(waits.failures)
        invariant 0 <= left <= rounds
        invariant waits.answers + waits.interruptions - old(waits.answers + waits.interruptions) == rounds - left
        decreases left
      {
        left := left - 1;
        var again := Round();
        if !again { break; }
      }
      StillServing();
    }

    /** One round of the event loop: what `epoll_wait` reports is served, and the idle swept. */
    method Round() returns (again: bool)
      requires Serving() && |listeners| <= MAX_LISTENERS && table.NoneIdle(clock.last) && served == reported
      modifies this`stop, this`listeners, this`batches, this`reported, this`served
      modifies table, table.live, epoll, fds, clock, resources, queue, network, waits
      modifies set c | c in table.live :: c.outBuf
      modifies set c | c in table.live :: c.sock
      modifies (if queue.tail == null then {} else {queue.tail})`next
      ensures Serving() && |listeners| <= MAX_LISTENERS && table.NoneIdle(clock.last)
      ensures forall c | c in table.live && c !in old(table.live) :: fresh(c) && fresh(c.outBuf) && fresh(c.sock)
      ensures queue.tail == old(queue.tail) || fresh(queue.tail)
      ensures old(served) <= served <= reported && (served == reported || (stop && LastFails(served, |served|)))
      ensures fds.refusals - old(fds.refusals) >=
              Asked(Active(), Tcp, served, |served|) - Asked(Active(), Tcp, old(served), |old(served)|)
      ensures UdpStops() - old(UdpStops()) >=
              Asked(Active(), Udp, served, |served|) - Asked(Active(), Udp, old(served), |old(served)|)
      ensures AllServed(served[|old(served)|..], true)
      ensures batches - old(batches) == waits.answers - old(waits.answers) && waits.failures >= old(waits.failures)
      ensures if again then waits.answers + waits.interruptions == old(waits.answers + waits.interruptions) + 1
              else waits.failures > old(waits.failures)
    {
      hide Serving, Connections.NoneIdle, Asked, LastFails, Reported, ServedBy, AccountOf;
      TakeSignals();
      var ok, interrupted, events := WaitServing();
      if !ok { return interrupted; }
      ReportedPoints(events);
      ServeReported(events);
      again := true;
    }

    /** The part of a round after `epoll_wait`. */
    method ServeReported(events: seq<Event>)
      requires Serving() && Reported(events, epoll.table) && reported == served + events
      requires forall k | 0 <= k < |events| :: Points(events[k])
      modifies this`stop, this`batches, this`served, table, table.live, epoll, fds, clock, resources, queue, network
      modifies set c | c in table.live :: c.outBuf
      modifies set c | c in table.live :: c.sock
      modifies (if queue.tail == null then {} else {queue.tail})`next
      ensures Serving() && table.NoneIdle(clock.last) && batches == old(batches) + 1
      ensures forall c | c in table.live && c !in old(table.live) :: fresh(c) && fresh(c.outBuf) && fresh(c.sock)
      ensures queue.tail == old(queue.tail) || fresh(queue.tail)
      ensures old(served) <= served <= reported && (served == reported || (stop && LastFails(served, |served|)))
      ensures fds.refusals - old(fds.refusals) >=
              Asked(Active(), Tcp, served, |served|) - Asked(Active(), Tcp, old(served), |old(served)|)
      ensures UdpStops() - old(UdpStops()) >=
              Asked(Active(), Udp, served, |served|) - Asked(Active(), Udp, old(served), |old(served)|)
      ensures AllServed(served[|old(served)|..], true)
    {
      hide Serving, Connections.NoneIdle, Asked, LastFails, TurnsTaken, Reported, EchoServed;
      var turns := Batch(events);
      Bounded();
      TurnsShape(old(served), events, turns);
      MoreServed(Active(), Tcp, old(served), events, turns);
      MoreServed(Active(), Udp, old(served), events, turns);
      assert served[|old(served)|..] == events[..turns];
    }

    /** `epoll_wait` in the event loop. */
    method WaitServing() returns (ok: bool, interrupted: bool, events: seq<Event>)
      requires Serving()
      modifies waits, this`reported
      ensures Serving() && Reported(events, epoll.table)
      ensures reported == if ok then old(reported) + events else old(reported)
      ensures waits.answers == old(waits.answers) + if ok then 1 else 0
      ensures waits.interruptions == old(waits.interruptions) + if !ok && interrupted then 1 else 0
      ensures waits.failures == old(waits.failures) + if !ok && !interrupted then 1 else 0
    {
      hide Connections.Valid, Connections.OtherFds, Connections.OtherEntries, Q.TaskQueue.Valid, CarriesAll;
      hide Distinguished, AllRegistered, Own;
      ok, interrupted, events := EpollWait(1024);
    }

    /** One batch of events and the sweep after it. */
    method Batch(events: seq<Event>) returns (turns: nat)
      requires Serving() && Reported(events, epoll.table)
      modifies this`stop, this`batches, this`served, table, table.live, epoll, fds, clock, resources, queue, network
      modifies set c | c in table.live :: c.outBuf
      modifies set c | c in table.live :: c.sock
      modifies (if queue.tail == null then {} else {queue.tail})`next
      ensures Serving() && table.NoneIdle(clock.last) && batches == old(batches) + 1
      ensures forall c | c in table.live && c !in old(table.live) :: fresh(c) && fresh(c.outBuf) && fresh(c.sock)
      ensures queue.tail == old(queue.tail) || fresh(queue.tail)
      ensures TurnsTaken(events, turns) && (LastFails(events, turns) ==> stop)
      ensures served == old(served) + events[..turns]
      ensures forall k | 0 <= k < turns && events[k].entry.Connection? :: EchoServed(events[k], true)
      ensures fds.refusals >= old(fds.refusals) + Asked(Active(), Tcp, events, turns)
      ensures UdpStops() >= old(UdpStops()) + Asked(Active(), Udp, events, turns)
    {
      hide Serving, Connections.NoneIdle, Asked, AccountOf, ServedBy, LastFails;
      turns := Dispatch(events);
      ghost var open := table.live;
      var now := Sweep();
      forall k | 0 <= k < turns && events[k].entry.Connection? ensures EchoServed(events[k], true) {
        var c := events[k].entry.conn;
        ServedThenSwept(events[k], old(AccountOf(c)), AccountOf(c), c in open, epoll.failures > old(epoll.failures),
                        c in table.live, IsIdle(c.lastActive, clock.last));
      }
      Counted(events[..turns]);
    }

    /** The ghost count of batches and turns. */
    ghost method Counted(turns: seq<Event>)
      requires Serving()
      modifies this`batches, this`served
      ensures Serving() && batches == old(batches) + 1 && served == old(served) + turns
    {
      hide Connections.Valid, Connections.OtherFds, Connections.OtherEntries, Q.TaskQueue.Valid, CarriesAll;
      hide Distinguished, AllRegistered, Own;
      batches, served := batches + 1, served + turns;
    }

    lemma TurnsShape(before: seq<Event>, events: seq<Event>, turns: nat)
      requires TurnsTaken(events, turns)
      ensures turns <= |events| && before + events[..turns] <= before + events
      ensures if turns == |events| then events[..turns] == events else LastFails(events, turns)
      ensures LastFails(events, turns) ==> LastFails(before + events[..turns], |before| + turns)
    {
    }

    lemma Bounded()
      requires Serving()
      ensures listenCount <= channels.Length
    {
    }

    lemma StartsServing()
      requires Holding() && Registered() && epollFd >= 0 && queue.Valid() && Dispatched()
      requires table.live == {} && queue.accepted == []
      ensures Serving()
    {
    }

    lemma Channels()
      requires Holding()
      ensures listenCount <= channels.Length && |Active()| == listenCount
      ensures forall i | 0 <= i < listenCount :: Active()[i] == channels[i]
    {
    }

    /** What the queue was given. */
    lemma TasksQueued()
      requires Holding() && Dispatched() && Rightful()
      ensures CarriesAll(queue.accepted, 0, network.received, 0) && OwnChannels(queue.accepted, Active())
    {
    }

    lemma StillServing()
      requires Serving()
      ensures Holding() && queue.Valid() && Dispatched() && Rightful()
    {
    }

    /** What signals have asked for: `reload_config` and the snapshot after it, which on
        success bring the listeners of another configuration, or the end. Without a snapshot the
        old configuration stays. Channels already set up stay as they are. */
    method Signals(snapshot: Option<seq<Listener>>, terminated: bool)
      requires |listeners| <= MAX_LISTENERS && Serving()
      requires snapshot.Some? ==> |snapshot.value| <= MAX_LISTENERS
      modifies this`listeners, this`stop
      ensures |listeners| <= MAX_LISTENERS && Serving()
      ensures listeners == match snapshot case Some(next) => next case None => old(listeners)
      ensures stop == (old(stop) || terminated)
    {
      hide Connections.Valid, Connections.OtherFds, Connections.OtherEntries, Q.TaskQueue.Valid, CarriesAll;
      hide Distinguished, AllRegistered, Own;
      if snapshot.Some? {
        listeners := snapshot.value;
      }
      if terminated { stop := true; }
    }

    /** Any signals may have arrived; an accepted reload brings at most 16 listeners. */
    method TakeSignals()
      requires |listeners| <= MAX_LISTENERS && Serving()
      modifies this`listeners, this`stop
      ensures |listeners| <= MAX_LISTENERS && Serving() && (old(stop) ==> stop)
    {
      hide Serving;
      var snapshot: Option<seq<Listener>>, terminated: bool := *, *;
      if snapshot.Some? && |snapshot.value| > MAX_LISTENERS { snapshot := None; }
      Signals(snapshot, terminated);
    }

    lemma NoConnections()
      requires Holding() && table.conns == []
      ensures table.live == {} && table.NoneIdle(clock.last)
    {
    }

    /** The idle sweep, in the event loop. */
    method Sweep() returns (ghost now: int)
      requires Serving()
      modifies table, table.live`next, table.live`fd, epoll`table, fds`open, clock
      ensures Serving() && table.live <= old(table.live) && now == clock.last && table.NoneIdle(now)
      ensures forall c | c in old(table.live) && c !in table.live :: IsIdle(c.lastActive, now)
      ensures table.conns == Keep(old(table.conns), old(table.live) - old(table.Idle(now)))
    {
      hide Connections.Valid, Connections.OtherFds, Connections.OtherEntries, Q.TaskQueue.Valid;
      hide Distinguished, AllRegistered, Own, Dispatched, Keep;
      now := table.CloseIdle();
    }

    /** `quit`: closes every connection, every channel that was set up (not the number of
        channels the current configuration asks for), and the epoll descriptor. */
    method Quit()
      requires Holding()
      modifies table, table.live`next, table.live`fd, epoll`table, fds`open, channels
      ensures fds.open == inherited
    {
      hide Connections.Valid, Distinguished, FdsOf, Connections.OtherFds;
      table.CloseAll();
      table.OnlyOthers();
      ghost var active := Active();
      for i := 0 to listenCount
        invariant fds.open == inherited + Own(active[i..], epollFd)
        invariant forall k | i <= k < listenCount :: channels[k] == active[k]
        invariant Distinguished(active, epollFd, inherited)
      {
        OneChannelLess(active, epollFd, inherited, i);
        if channels[i].fd >= 0 {
          fds.Close(channels[i].fd);
          channels[i] := channels[i].(fd := -1);
        }
      }
      NothingOwned(active);
      if epollFd >= 0 {
        fds.Close(epollFd);
      }
    }

    lemma NothingOwned(active: seq<Channel>)
      requires Distinguished(active, epollFd, inherited)
      ensures FdsOf(active[|active|..]) == {} && (epollFd >= 0 ==> epollFd !in inherited)
    {
    }
  }

  /** `main_t` from the creation of epoll on: whatever fails and whenever it stops, every
      descriptor it opened has been closed, and those it inherited are untouched. The event loop
      runs unless the set-up failed, on one channel per listener, and does what `Run` says. */
  method RunService(fds: FdTable, listeners: seq<Listener>, rounds: nat)
      returns (ghost g: Gateway, ghost ran: bool, ghost active: seq<Channel>)
    requires |listeners| <= MAX_LISTENERS
    modifies fds
    ensures fds.open == old(fds.open) && fresh(g)
    ensures !ran ==> fds.denied > old(fds.denied) || g.resources.failures + g.epoll.failures > 0 || listeners == []
    ensures ran ==> |active| == |listeners| && forall i | 0 <= i < |listeners| :: active[i].config == listeners[i]
    ensures ran ==> CarriesAll(g.queue.accepted, 0, g.network.received, 0) && OwnChannels(g.queue.accepted, active)
    ensures ran ==> g.served <= g.reported && (g.served == g.reported || LastFails(g.served, |g.served|))
    ensures ran ==> fds.refusals >= old(fds.refusals) + Asked(active, Tcp, g.served, |g.served|)
    ensures ran ==> g.UdpStops() >= Asked(active, Udp, g.served, |g.served|)
    ensures ran ==> g.stop || g.waits.failures > 0 || g.waits.answers + g.waits.interruptions == rounds
  {
    hide *;
    ran, active := false, [];
    var gateway := new Gateway(fds, listeners);
    g := gateway;
    var ok := gateway.SetUp();
    if ok {
      gateway.Channels();
      ran, active := true, gateway.Active();
      gateway.StartsServing();
      gateway.Run(rounds);
      gateway.TasksQueued();
    }
    gateway.OnlyDatagrams();
    gateway.Quit();
    gateway.queue.Stop();
    Q.NoClients(gateway.queue.tasks);
    var freed := gateway.queue.Destroy(fds);
  }
}
