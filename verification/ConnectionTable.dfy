/** All live connections of the gateway: the intrusive list that starts at `head`, the heap
    objects, their descriptors and their epoll entries, which always name the same set. */
module ConnectionTable {
  import opened Kernel
  import opened EchoConnection
  import opened Listeners
  import opened Lists

  const IDLE_TIMEOUT_SEC := 60

  /** The test of the idle sweep; -1 is the clock's failure value. */
  predicate IsIdle(lastActive: int, now: int) {
    now != -1 && lastActive != -1 && now - lastActive >= IDLE_TIMEOUT_SEC
  }

  /** What `epoll_wait` reports for one descriptor. */
  datatype Flags = Flags(readable: bool, writable: bool, error: bool, hangUp: bool, readHangUp: bool)

  /** How an event left an echo connection: open, or closed for one of the reasons the log
      distinguishes. */
  datatype Outcome = StillOpen | SocketError | SendFailure | ReadEnded(why: Failure) | PeerClosed

  lemma MoreTimes(before: seq<int>, times: seq<int>, after: seq<int>)
    requires before <= times <= after
    ensures before <= after && after[|before|..] == times[|before|..] + after[|times|..]
  {
    assert after == times + after[|times|..];
  }

  /** A connection is idle after a minute without activity; a clock that failed tells nothing. */
  lemma IdleAfterAMinute(lastActive: int, now: int)
    ensures lastActive == -1 || now == -1 ==> !IsIdle(lastActive, now)
    ensures lastActive != -1 && now != -1 ==> (IsIdle(lastActive, now) <==> now >= lastActive + 60)
    ensures !IsIdle(1000, 1059) && IsIdle(1000, 1060) && !IsIdle(-1, 1060) && !IsIdle(1000, -1)
  {
  }

  /** All the event asked for was done, before a hang-up too. */
  predicate Completed(outcome: Outcome) {
    outcome == StillOpen || outcome == PeerClosed
  }

  class Connections {
    const fds: FdTable
    const epoll: Epoll
    const clock: Clock
    const resources: Resources
    var head: TcpConn?
    /** The list from `head`, the objects allocated and not freed, and those freed so far. */
    ghost var conns: seq<TcpConn>
    ghost var live: set<TcpConn>
    ghost var freed: seq<TcpConn>

    constructor (fds: FdTable, epoll: Epoll, clock: Clock, resources: Resources)
      requires epoll.table.Keys <= fds.open && forall fd | fd in epoll.table :: epoll.table[fd].Listening?
      ensures Valid() && conns == [] && live == {} && freed == []
      ensures OtherFds() == fds.open && OtherEntries() == epoll.table
      ensures this.fds == fds && this.epoll == epoll && this.clock == clock && this.resources == resources
    {
      this.fds, this.epoll, this.clock, this.resources := fds, epoll, clock, resources;
      head, conns, live, freed := null, [], {}, [];
      new;
      NoConnFds();
    }

    lemma NoConnFds()
      requires forall fd | fd in epoll.table :: epoll.table[fd].Listening?
      ensures ConnFds() == {} && OtherFds() == fds.open && OtherEntries() == epoll.table
    {
      assert forall fd | fd in ConnFds() :: epoll.table[fd].Listening?;
    }

    /** Following `next` from `head` visits exactly `conns`, in order, and ends. */
    ghost predicate Linked()
      reads `head, `conns, conns`next
    {
      && Distinct(conns)
      && head == NodeAt<TcpConn?>(conns, 0, null)
      && forall i | 0 <= i < |conns| :: conns[i].next == NodeAt<TcpConn?>(conns, i + 1, null)
    }

    /** The live objects are the ones on the list. */
    ghost predicate Listed()
      reads this
    {
      (forall c | c in live :: c in conns) && (forall c | c in conns :: c in live)
    }

    /** Heap, open descriptors and epoll entries agree. */
    ghost predicate Coherent()
      reads this, live, epoll`table, fds`open
    {
      && (forall c | c in live :: c.fd >= 0 && c.fd in fds.open && c.Registered(epoll))
      && epoll.table.Keys <= fds.open
      && (forall fd | fd in epoll.table && epoll.table[fd].Connection? ::
            epoll.table[fd].conn in live && epoll.table[fd].conn.fd == fd)
    }

    ghost predicate Separate()
      reads this, live
    {
      forall c, d | c in live && d in live && c != d :: c.sock != d.sock && c.outBuf != d.outBuf
    }

    /** The invariant of one connection, with the interest epoll holds for it. */
    ghost predicate Settled(c: TcpConn)
      reads c, c.outBuf, c.sock, epoll`table
    {
      c.Valid() && c.fd in epoll.table && epoll.table[c.fd] == Connection(c, c.Events())
    }

    /** Everything but what concerns only the connection `except`. */
    ghost predicate ValidExcept(except: TcpConn?)
      reads this, conns, live, epoll`table, fds`open, set c | c in live :: c.outBuf, set c | c in live :: c.sock
    {
      && Linked() && Listed() && Coherent() && Separate()
      && forall c | c in live && c != except :: Settled(c)
    }

    ghost predicate Valid()
      reads this, conns, live, epoll`table, fds`open, set c | c in live :: c.outBuf, set c | c in live :: c.sock
    {
      ValidExcept(null)
    }

    /** The open descriptors that belong to no connection. */
    ghost function OtherFds(): set<int>
      reads fds`open, epoll`table
    {
      fds.open - ConnFds()
    }

    /** What epoll knows besides the connections. */
    ghost function OtherEntries(): map<int, Registration>
      reads epoll`table
    {
      epoll.table - ConnFds()
    }

    /** The descriptors of the live connections. */
    ghost function ConnFds(): set<int>
      reads epoll`table
    {
      set fd | fd in epoll.table && epoll.table[fd].Connection?
    }

    /** The list, the heap and epoll name the same connections, none twice, each under an
        open descriptor of its own, for which epoll waits for what the connection needs. */
    lemma SameConnections()
      requires Valid()
      ensures Distinct(conns) && forall c :: c in conns <==> c in live
      ensures ConnFds() == (set c | c in live :: c.fd) && ConnFds() <= fds.open
      ensures forall c, d | c in live && d in live && c != d :: c.fd != d.fd
      ensures forall c | c in live ::
                epoll.table[c.fd] == Connection(c, Interest(!c.HasPendingOutput(), c.HasPendingOutput()))
    {
      hide TcpConn.Valid, Separate;
      assert forall c | c in live :: Settled(c);
      forall fd | fd in ConnFds() ensures fd in set c | c in live :: c.fd {
        assert epoll.table[fd].conn.fd == fd;
      }
    }

    /** `tcp_conn_list_add`. */
    method ListAdd(conn: TcpConn)
      requires Linked() && conn !in conns
      modifies this`head, this`conns, conn`next
      ensures Linked() && conns == [conn] + old(conns)
    {
      conn.next := head;
      head := conn;
      conns := [conn] + conns;
      assert conns[0] == conn && conns[1..] == old(conns);
      forall i | 0 <= i < |conns|
        ensures conns[i].next == NodeAt<TcpConn?>(conns, i + 1, null)
      {
        if i > 0 { assert conns[i] == conns[1..][i - 1] && conns[i] in old(conns); }
      }
    }

    /** `*pp = conn->next; conn->next = NULL`, where `pp` is the address of `head` when
        `prev` is null and else of the field `next` of `prev`. */
    method Unlink(prev: TcpConn?, conn: TcpConn, ghost k: nat)
      requires Linked() && k < |conns| && conn == conns[k]
      requires prev == if k == 0 then null else conns[k - 1]
      modifies this`head, this`conns, conn`next, (if prev == null then {} else {prev})`next
      ensures Linked() && conns == old(conns[..k] + conns[k + 1..])
      ensures conn.next == null
    {
      ghost var was := conns;
      TakeOut(was, k);
      hide Distinct;
      if prev == null { head := conn.next; } else { prev.next := conn.next; }
      conn.next := null;
      conns := was[..k] + was[k + 1..];
      forall i | 0 <= i < |conns| ensures conns[i].next == NodeAt<TcpConn?>(conns, i + 1, null) {
        assert conns[i] == was[if i < k then i else i + 1];
      }
    }

    /** `tcp_conn_list_remove`. */
    method ListRemove(conn: TcpConn)
      requires Linked()
      modifies this`head, this`conns, (set c | c in conns)`next
      ensures Linked() && conns == Remove(old(conns), conn)
      ensures conn in old(conns) ==> conn.next == null
    {
      var prev: TcpConn?, cur := null, head;
      ghost var k := 0;
      while cur != null
        invariant Linked() && conns == old(conns) && 0 <= k <= |conns|
        invariant cur == NodeAt<TcpConn?>(conns, k, null)
        invariant prev == if k == 0 then null else conns[k - 1]
        invariant forall i | 0 <= i < k :: conns[i] != conn
        decreases |conns| - k
      {
        if cur == conn {
          RemoveAt(conns, k);
          Unlink(prev, cur, k);
          return;
        }
        prev, cur, k := cur, cur.next, k + 1;
      }
      RemoveAbsent(conns, conn);
    }

    /** The part of `close_tcp_conn` after the list: descriptor, epoll entry and memory. */
    method Release(conn: TcpConn)
      requires Coherent() && conn in live
      modifies this`live, this`freed, conn`fd, epoll`table, fds`open
      ensures Coherent()
      ensures live == old(live) - {conn} && freed == old(freed) + [conn]
      ensures fds.open == old(fds.open) - {old(conn.fd)}
      ensures epoll.table == old(epoll.table) - {old(conn.fd)}
    {
      if conn.fd >= 0 {
        epoll.Del(conn.fd);
        fds.Close(conn.fd);
        conn.fd := -1;
      }
      live := live - {conn};
      freed := freed + [conn];
    }

    /** The body of `close_tcp_conn`: off the list, out of epoll, descriptor closed, freed. */
    method Detach(conn: TcpConn)
      requires Linked() && Listed() && Coherent() && conn in live
      modifies this, live`next, conn`fd, epoll`table, fds`open
      ensures Linked() && Listed() && Coherent()
      ensures live == old(live) - {conn}
      ensures conns == Remove(old(conns), conn) && freed == old(freed) + [conn]
      ensures fds.open == old(fds.open) - {old(conn.fd)}
      ensures epoll.table == old(epoll.table) - {old(conn.fd)}
    {
      RemoveDistinct(conns, conn);
      ListRemove(conn);
      Release(conn);
    }

    /** `close_tcp_conn`. Only what concerns this connection may be unsettled before. */
    method CloseTcpConn(conn: TcpConn)
      requires ValidExcept(conn) && conn in live
      modifies this, live`next, conn`fd, epoll`table, fds`open
      ensures Valid()
      ensures live == old(live) - {conn}
      ensures conns == Remove(old(conns), conn) && freed == old(freed) + [conn]
      ensures fds.open == old(fds.open) - {old(conn.fd)}
      ensures OtherFds() == old(OtherFds()) && OtherEntries() == old(OtherEntries())
      ensures epoll.table == old(epoll.table) - {old(conn.fd)}
    {
      hide TcpConn.Valid, Linked, Listed;
      Detach(conn);
      forall c | c in live ensures Settled(c) && c.fd != old(conn.fd) {
        assert old(Settled(c)) && old(c.Registered(epoll) && conn.Registered(epoll));
      }
    }

    /** `close_all_tcp_conns`: each round shortens the list, and every connection is freed
        once, from the head on. */
    method CloseAll()
      requires Valid()
      modifies this, live`next, live`fd, epoll`table, fds`open
      ensures Valid() && conns == [] && live == {}
      ensures freed == old(freed) + old(conns)
      ensures OtherFds() == old(OtherFds()) && OtherEntries() == old(OtherEntries())
    {
      hide Settled, Separate, Coherent, OtherFds, OtherEntries, Remove, Distinct;
      ghost var k := 0;
      while head != null
        invariant Valid() && live <= old(live)
        invariant k <= |old(conns)| && conns == old(conns)[k..] && freed == old(freed) + old(conns)[..k]
        invariant OtherFds() == old(OtherFds()) && OtherEntries() == old(OtherEntries())
        decreases |conns|
      {
        DrainStep(old(conns), k, old(freed));
        CloseTcpConn(head);
        k := k + 1;
      }
      assert forall c | c in live :: c in conns;
    }

    /** Where a sweep of the list `all` stands that has passed `i` nodes. */
    ghost predicate Swept(all: seq<TcpConn>, i: nat, stay: set<TcpConn>, go: set<TcpConn>, gone: seq<TcpConn>)
      reads this
    {
      i <= |all| && conns == Keep(all[..i], stay) + all[i..] && freed == gone + Keep(all[..i], go)
    }

    /** The node a sweep stands at is still on the list, and its `next` is still right. */
    lemma NextOfSweep(all: seq<TcpConn>, i: nat, stay: set<TcpConn>, go: set<TcpConn>, gone: seq<TcpConn>)
      requires Valid() && i < |all| && Swept(all, i, stay, go, gone)
      ensures all[i] in live && all[i].next == NodeAt<TcpConn?>(all, i + 1, null)
    {
      var k := |Keep(all[..i], stay)|;
      assert conns[k] == all[i] && NodeAt<TcpConn?>(conns, k + 1, null) == NodeAt<TcpConn?>(all, i + 1, null);
    }

    /** One node of the sweep: closed or passed over. */
    method SweepNode(conn: TcpConn, now: int, ghost all: seq<TcpConn>, ghost i: nat, ghost stay: set<TcpConn>,
                     ghost go: set<TcpConn>, ghost gone: seq<TcpConn>)
      requires Valid() && conn in live && Swept(all, i, stay, go, gone) && i < |all| && conn == all[i]
      requires if IsIdle(conn.lastActive, now) then conn in go && conn !in stay else conn in stay && conn !in go
      modifies this, live`next, conn`fd, epoll`table, fds`open
      ensures Valid() && live <= old(live) && Swept(all, i + 1, stay, go, gone)
      ensures conn in live ==> conn.fd == old(conn.fd)
      ensures OtherFds() == old(OtherFds()) && OtherEntries() == old(OtherEntries())
    {
      hide Settled, Separate, Coherent, OtherFds, OtherEntries, Keep, Remove;
      if now != -1 && conn.lastActive != -1 && now - conn.lastActive >= IDLE_TIMEOUT_SEC {
        SweepGo(all, i, stay, go, gone);
        CloseTcpConn(conn);
      } else {
        SweepStay(all, i, stay, go);
      }
    }

    /** `close_idle_tcp_conns`: frees exactly the connections idle for at least the time
        limit, in list order, and leaves the others in their order and none of them idle. */
    method CloseIdle() returns (now: int)
      requires Valid()
      modifies this, live`next, live`fd, epoll`table, fds`open, clock
      ensures Valid()
      ensures conns == Keep(old(conns), old(live) - old(Idle(now)))
      ensures freed == old(freed) + Keep(old(conns), old(Idle(now)))
      ensures OtherFds() == old(OtherFds()) && OtherEntries() == old(OtherEntries())
      ensures forall c | c in live :: c in old(live) && c.fd == old(c.fd)
      ensures now == clock.last && NoneIdle(now)
      ensures forall c | c in old(live) && c !in live :: IsIdle(c.lastActive, now)
    {
      hide ValidExcept, Valid, OtherFds, OtherEntries, Swept, Keep, NoneIdle, IsIdle;
      now := clock.Time();
      var conn := head;
      ghost var all, gone, go, i := conns, freed, Idle(now), 0;
      ghost var stay := live - go;
      SweepBegins(stay, go);
      while conn != null
        invariant Valid() && i <= |all| && conn == NodeAt<TcpConn?>(all, i, null)
        invariant Swept(all, i, stay, go, gone)
        invariant OtherFds() == old(OtherFds()) && OtherEntries() == old(OtherEntries())
        invariant forall c | c in live :: c in old(live) && c.fd == old(c.fd)
        invariant now == clock.last
        decreases |all| - i
      {
        NextOfSweep(all, i, stay, go, gone);
        var next := conn.next;
        SweepNode(conn, now, all, i, stay, go, gone);
        conn, i := next, i + 1;
      }
      SweepDone(all, stay, go, gone);
      KeptAreNotIdle(all, stay, now);
      GoneWereIdle(all, stay);
    }

    ghost predicate NoneIdle(now: int)
      reads `live, live`lastActive
    {
      forall c | c in live :: !IsIdle(c.lastActive, now)
    }

    lemma KeptAreNotIdle(all: seq<TcpConn>, stay: set<TcpConn>, now: int)
      requires Valid() && conns == Keep(all, stay)
      requires forall c | c in stay :: !IsIdle(c.lastActive, now)
      ensures NoneIdle(now)
    {
      forall c | c in live ensures c in stay { KeepMember(all, stay, c); }
    }

    lemma SweepBegins(stay: set<TcpConn>, go: set<TcpConn>)
      requires Valid()
      ensures Swept(conns, 0, stay, go, freed) && head == NodeAt<TcpConn?>(conns, 0, null)
      ensures forall c | c in live :: c in conns
    {
      SweepEnds(conns, stay, freed);
      SweepEnds(conns, go, freed);
    }

    lemma SweepDone(all: seq<TcpConn>, stay: set<TcpConn>, go: set<TcpConn>, gone: seq<TcpConn>)
      requires Swept(all, |all|, stay, go, gone)
      ensures conns == Keep(all, stay) && freed == gone + Keep(all, go)
    {
      SweepEnds(all, stay, gone);
    }

    lemma GoneWereIdle(all: seq<TcpConn>, stay: set<TcpConn>)
      requires Valid() && conns == Keep(all, stay)
      ensures forall c | c in stay && c in all :: c in live
    {
      forall c | c in stay && c in all ensures c in live { KeepMember(all, stay, c); }
    }

    /** The connections the sweep has to close when it reads the time `now`. */
    ghost function Idle(now: int): set<TcpConn>
      reads this, live
    {
      set c | c in live && IsIdle(c.lastActive, now)
    }

    /** After a handler has run on `conn`, everything about the other connections holds. */
    twostate lemma OthersUndisturbed(conn: TcpConn)
      requires old(Valid()) && old(conn in live)
      requires unchanged(this) && unchanged(fds`open) && unchanged(live`next) && unchanged(live`fd)
      requires forall c | c in live && c != conn :: unchanged(c) && unchanged(c.sock) && unchanged(c.outBuf)
      requires conn.OnlyOwnEntry(old(epoll.table), epoll.table)
      ensures ValidExcept(conn) && OtherFds() == old(OtherFds()) && OtherEntries() == old(OtherEntries())
    {
      hide TcpConn.Valid, Linked;
      assert forall c | c in live && c != conn :: old(Settled(c)) && c.fd != conn.fd;
    }

    /** The flush handler, run on a connection of the table. */
    method FlushOne(conn: TcpConn) returns (ret: int, ghost why: Failure)
      requires Valid() && conn in live
      modifies conn`outLen, conn`outSent, conn`lastActive, epoll, clock
      modifies conn.sock`sent, conn.sock`stalls, conn.sock`full, conn.sock`faults
      ensures ValidExcept(conn) && (ret == 0 || ret == -1)
      ensures if ret == 0 then Valid() && epoll.failures == old(epoll.failures) else conn.BoundedLoss()
      ensures OtherFds() == old(OtherFds()) && OtherEntries() == old(OtherEntries())
      ensures conn.sock.received == old(conn.sock.received) && old(conn.sock.sent) <= conn.sock.sent
      ensures conn.sock.full >= old(conn.sock.full) && conn.sock.faults >= old(conn.sock.faults)
      ensures conn.sock.ends == old(conn.sock.ends) && epoll.failures >= old(epoll.failures)
      ensures ret == -1 ==> conn.Caused(why, old(conn.sock.ends), old(conn.sock.faults), old(epoll.failures), epoll)
      ensures ret == -1 ==> why == SendFailed || why == RegistrationFailed
      ensures ret == 0 ==> conn.sock.faults == old(conn.sock.faults)
      ensures ret == 0 && conn.HasPendingOutput() ==> conn.sock.full > old(conn.sock.full)
    {
      assert Settled(conn);
      ret, why := conn.Flush(epoll, clock);
      OthersUndisturbed(conn);
    }

    /** The read handler, run on a connection of the table. */
    method ReadOne(conn: TcpConn) returns (ret: int, ghost why: Failure)
      requires Valid() && conn in live
      modifies conn`outLen, conn`outSent, conn`lastActive, conn.outBuf, conn.sock, epoll, clock
      ensures ValidExcept(conn) && (ret == 0 || ret == -1)
      ensures if ret == 0 then Valid() && epoll.failures == old(epoll.failures) else conn.BoundedLoss()
      ensures OtherFds() == old(OtherFds()) && OtherEntries() == old(OtherEntries())
      ensures old(conn.sock.received) <= conn.sock.received && old(conn.sock.sent) <= conn.sock.sent
      ensures ret == -1 && why == EndOfStream ==> conn.sock.sent == conn.sock.received
      ensures why != BufferTooSmall && epoll.failures >= old(epoll.failures)
      ensures ret == -1 ==> conn.Caused(why, old(conn.sock.ends), old(conn.sock.faults), old(epoll.failures), epoll)
      ensures ret == 0 && !old(conn.HasPendingOutput()) ==>
                if conn.HasPendingOutput() then conn.sock.full > old(conn.sock.full)
                else conn.sock.dry > old(conn.sock.dry)
      ensures ret == 0 && old(conn.HasPendingOutput()) ==> conn.HasPendingOutput()
      ensures ret == 0 ==> conn.sock.faults == old(conn.sock.faults) && conn.sock.ends == old(conn.sock.ends)
      ensures conn.sock.full >= old(conn.sock.full)
    {
      assert Settled(conn);
      ret, why := conn.HandleRead(epoll, clock);
      OthersUndisturbed(conn);
    }

    /** A valid table needs no exception, and no connection holds back more than a buffer. */
    lemma Relax(conn: TcpConn)
      requires Valid() && conn in live
      ensures ValidExcept(conn) && conn.BoundedLoss()
    {
      assert Settled(conn);
    }

    /** The handlers `handle_tcp_echo_event` calls for an event without an error: an outcome
        other than `StillOpen` asks for the connection to be closed, and has a cause. */
    method ServeConn(conn: TcpConn, flags: Flags) returns (ghost outcome: Outcome, ok: bool)
      requires Valid() && conn in live
      modifies conn`outLen, conn`outSent, conn`lastActive, conn.outBuf, conn.sock, epoll, clock
      ensures ValidExcept(conn) && conn.BoundedLoss() && ok == (outcome == StillOpen)
      ensures ok ==> Valid() && epoll.failures == old(epoll.failures)
      ensures ok ==> conn.sock.faults == old(conn.sock.faults) && conn.sock.ends == old(conn.sock.ends)
      ensures OtherFds() == old(OtherFds()) && OtherEntries() == old(OtherEntries())
      ensures old(conn.sock.received) <= conn.sock.received && old(conn.sock.sent) <= conn.sock.sent
      ensures outcome == StillOpen || outcome == SendFailure || outcome.ReadEnded?
      ensures outcome == ReadEnded(EndOfStream) ==> conn.sock.sent == conn.sock.received
      ensures outcome != ReadEnded(BufferTooSmall)
      ensures ok && flags.writable && conn.HasPendingOutput() ==> conn.sock.full > old(conn.sock.full)
      ensures ok && flags.readable && !old(conn.HasPendingOutput()) ==>
                if conn.HasPendingOutput() then conn.sock.full > old(conn.sock.full)
                else conn.sock.dry > old(conn.sock.dry)
      ensures outcome == SendFailure ==>
                conn.sock.faults > old(conn.sock.faults) || epoll.failures > old(epoll.failures)
      ensures outcome.ReadEnded? ==>
                conn.Caused(outcome.why, old(conn.sock.ends), old(conn.sock.faults), old(epoll.failures), epoll)
      ensures epoll.failures >= old(epoll.failures)
    {
      hide ValidExcept, Valid, OtherFds, OtherEntries, TcpConn.BoundedLoss;
      Relax(conn);
      if flags.writable {
        var ret, why := FlushOne(conn);
        if ret == -1 { return SendFailure, false; }
        Relax(conn);
      }
      if flags.readable {
        var ret, why := ReadOne(conn);
        if ret == -1 { return ReadEnded(why), false; }
        Relax(conn);
      }
      return StillOpen, true;
    }

    /** `handle_tcp_echo_event`. Whatever the flags, stale ones included, the connection is
        afterwards either closed, with at most one buffer lost, or settled again. It is
        closed only for a cause, and stays open with work left only after the kernel has
        refused more; a peer that hung up is served once more before it is closed. */
    method HandleEchoEvent(conn: TcpConn, flags: Flags) returns (ghost outcome: Outcome)
      requires Valid() && conn in live
      modifies this, live`next, conn, conn.outBuf, conn.sock, epoll, fds`open, clock
      ensures Valid() && OtherFds() == old(OtherFds()) && OtherEntries() == old(OtherEntries())
      ensures old(conn.sock.received) <= conn.sock.received && old(conn.sock.sent) <= conn.sock.sent
      ensures if outcome == StillOpen then live == old(live) && conns == old(conns) && freed == old(freed)
              else live == old(live) - {conn} && conns == Remove(old(conns), conn) && freed == old(freed) + [conn]
      ensures conn.BoundedLoss()
      ensures outcome == ReadEnded(EndOfStream) ==> conn.sock.sent == conn.sock.received
      ensures outcome != ReadEnded(BufferTooSmall)
      ensures flags.error <==> outcome == SocketError
      ensures flags.error ==> unchanged(conn.sock) && unchanged(conn`outLen) && unchanged(conn`outSent)
      ensures flags.hangUp || flags.readHangUp ==> outcome != StillOpen
      ensures Completed(outcome) && flags.writable && conn.HasPendingOutput() ==> conn.sock.full > old(conn.sock.full)
      ensures Completed(outcome) && flags.readable && !old(conn.HasPendingOutput()) ==>
                if conn.HasPendingOutput() then conn.sock.full > old(conn.sock.full)
                else conn.sock.dry > old(conn.sock.dry)
      ensures outcome == SendFailure ==>
                conn.sock.faults > old(conn.sock.faults) || epoll.failures > old(epoll.failures)
      ensures outcome.ReadEnded? ==>
                conn.Caused(outcome.why, old(conn.sock.ends), old(conn.sock.faults), old(epoll.failures), epoll)
      ensures Completed(outcome) ==> epoll.failures == old(epoll.failures)
      ensures Completed(outcome) ==> conn.sock.faults == old(conn.sock.faults) && conn.sock.ends == old(conn.sock.ends)
      ensures epoll.failures >= old(epoll.failures)
      ensures outcome == PeerClosed ==> flags.hangUp || flags.readHangUp
      ensures forall c | c in live :: c.fd == old(c.fd)
    {
      hide ValidExcept, Valid, OtherFds, OtherEntries, Remove, TcpConn.BoundedLoss, TcpConn.Caused;
      Relax(conn);
      if flags.error {
        CloseTcpConn(conn);
        return SocketError;
      }
      var peerClosed := flags.readHangUp || flags.hangUp;
      var ok;
      outcome, ok := ServeConn(conn, flags);
      if !ok {
        CloseTcpConn(conn);
        return;
      }
      if peerClosed {
        Relax(conn);
        CloseTcpConn(conn);
        return PeerClosed;
      }
    }

    /** Closing a descriptor that no connection owns. */
    method Refuse(fd: int)
      requires Valid() && fd in fds.open && fd !in epoll.table
      modifies fds`open
      ensures Valid() && fds.open == old(fds.open) - {fd}
      ensures OtherFds() == old(OtherFds()) - {fd} && OtherEntries() == old(OtherEntries())
    {
      hide TcpConn.Valid, Linked, Listed, Separate;
      fds.Close(fd);
      assert forall c | c in live :: old(Settled(c));
    }

    /** A new descriptor that no connection owns yet. */
    method OpenOther() returns (fd: int)
      requires Valid()
      modifies fds`open, fds`denied
      ensures Valid() && OtherEntries() == old(OtherEntries())
      ensures fd == -1 ==> fds.open == old(fds.open) && OtherFds() == old(OtherFds())
      ensures fd != -1 ==> fd >= 0 && fd !in old(fds.open) && fds.open == old(fds.open) + {fd}
      ensures fd != -1 ==> fd !in epoll.table && fd !in old(OtherFds()) && OtherFds() == old(OtherFds()) + {fd}
      ensures fds.denied == old(fds.denied) + if fd == -1 then 1 else 0
    {
      hide TcpConn.Valid, Linked, Listed, Separate;
      fd := fds.Open();
      assert forall c | c in live :: old(Settled(c));
    }

    /** A new client's descriptor, which no connection owns yet. */
    method AcceptOther(via: int) returns (fd: int, interrupted: bool)
      requires Valid()
      modifies fds
      ensures Valid() && OtherEntries() == old(OtherEntries())
      ensures fd == -1 ==> OtherFds() == old(OtherFds())
      ensures fd != -1 ==> fd >= 0 && fd in fds.open && fd !in epoll.table
      ensures fd != -1 ==> fd !in old(OtherFds()) && OtherFds() == old(OtherFds()) + {fd}
      ensures fds.accepted == if fd == -1 then old(fds.accepted) else old(fds.accepted) + [Arrival(fd, via)]
      ensures fds.refusals == old(fds.refusals) + if fd == -1 && !interrupted then 1 else 0
      ensures fd != -1 || interrupted ==> fds.arriving + fds.stalls < old(fds.arriving + fds.stalls)
    {
      hide TcpConn.Valid, Linked, Listed, Separate;
      fd, interrupted := fds.Accept(via);
      assert forall c | c in live :: old(Settled(c));
    }

    /** `epoll_ctl` for a descriptor that is not a connection. */
    method AddOther(fd: int, channel: nat) returns (ret: int)
      requires Valid() && fd in fds.open && fd !in epoll.table
      modifies epoll
      ensures Valid() && (ret == 0 || ret == -1) && OtherFds() == old(OtherFds())
      ensures ret == -1 ==> epoll.table == old(epoll.table) && OtherEntries() == old(OtherEntries())
      ensures ret == 0 ==> fd !in old(OtherEntries()) && OtherEntries() == old(OtherEntries())[fd := Listening(channel)]
      ensures epoll.failures == old(epoll.failures) + if ret == 0 then 0 else 1
    {
      hide TcpConn.Valid, Linked, Listed, Separate;
      ret := epoll.Add(fd, Listening(channel));
      assert forall c | c in live :: old(Settled(c));
    }

    /** With no connection left, every open descriptor is another one. */
    lemma OnlyOthers()
      requires Valid() && conns == []
      ensures fds.open == OtherFds()
    {
      assert live == {};
      assert forall fd | fd in epoll.table :: epoll.table[fd].Connection? ==> epoll.table[fd].conn in live;
    }

    /** The table after a new connection has been registered and put on the list. */
    twostate lemma Joined(conn: TcpConn)
      requires old(Valid()) && Linked() && conns == [conn] + old(conns)
      requires live == old(live) + {conn} && conn !in old(live)
      requires unchanged(fds`open)
      requires forall c | c in old(live) :: unchanged(c) && unchanged(c.sock) && unchanged(c.outBuf)
      requires forall c | c in old(live) :: c.sock != conn.sock && c.outBuf != conn.outBuf
      requires conn.fd >= 0 && conn.fd in fds.open && conn.fd !in old(epoll.table)
      requires conn.Valid() && epoll.table == old(epoll.table)[conn.fd := Connection(conn, conn.Events())]
      ensures Valid() && OtherFds() == old(OtherFds()) - {conn.fd} && OtherEntries() == old(OtherEntries())
    {
      hide TcpConn.Valid, Linked;
      assert forall c | c in old(live) :: old(Settled(c)) && c.fd != conn.fd;
    }

    /** A refused registration changes nothing. */
    twostate lemma NotJoined()
      requires old(Valid()) && Linked() && unchanged(this) && unchanged(fds`open) && epoll.table == old(epoll.table)
      requires forall c | c in live :: unchanged(c) && unchanged(c.sock) && unchanged(c.outBuf)
      ensures Valid() && OtherFds() == old(OtherFds()) && OtherEntries() == old(OtherEntries())
    {
      hide Linked, TcpConn.Valid;
      assert forall c | c in live :: old(Settled(c));
    }

    /** `epoll_ctl` and `tcp_conn_list_add`. */
    method Register(conn: TcpConn) returns (ret: int)
      requires Valid() && conn !in live && conn.Valid() && conn.fd >= 0 && conn.fd in fds.open
      requires conn.fd !in epoll.table
      requires forall c | c in live :: c.sock != conn.sock && c.outBuf != conn.outBuf
      modifies this`head, this`conns, this`live, conn`next, epoll
      ensures Valid() && (ret == 0 || ret == -1)
      ensures OtherFds() == (if ret == 0 then old(OtherFds()) - {conn.fd} else old(OtherFds()))
      ensures OtherEntries() == old(OtherEntries())
      ensures ret == -1 ==> conns == old(conns) && live == old(live) && epoll.table == old(epoll.table)
      ensures epoll.failures == old(epoll.failures) + if ret == 0 then 0 else 1
      ensures ret == 0 ==> conns == [conn] + old(conns) && live == old(live) + {conn}
    {
      hide Coherent, Separate, Settled, OtherFds, OtherEntries, TcpConn.Valid;
      ret := epoll.Add(conn.fd, Connection(conn, conn.Events()));
      if ret == -1 {
        NotJoined();
        return;
      }
      ListAdd(conn);
      live := live + {conn};
      Joined(conn);
    }

    /** `add_tcp_echo_client` and `dispatch_tcp_proxy_client`: a new connection joins list,
        heap and epoll together; or `fcntl`, `malloc` or epoll failed, its descriptor is closed
        and nothing remains. */
    method AddClient(channel: Channel, fd: int, sock: Socket) returns (ret: int)
      requires Valid() && fd >= 0 && fd in fds.open && fd !in epoll.table
      requires sock.received == sock.sent == [] && forall c | c in live :: c.sock != sock
      modifies this, epoll, fds`open, clock, resources
      ensures Valid() && (ret == 0 || ret == -1) && freed == old(freed)
      ensures OtherFds() == old(OtherFds()) - {fd} && OtherEntries() == old(OtherEntries())
      ensures ret == -1 ==> conns == old(conns) && live == old(live) && fds.open == old(fds.open) - {fd}
      ensures ret == 0 ==> |conns| > 0 && conns[1..] == old(conns) && fresh(conns[0]) && live == old(live) + {conns[0]}
      ensures ret == 0 ==>
                conns[0].fd == fd && conns[0].sock == sock && conns[0].channel == channel && fresh(conns[0].outBuf)
      ensures old(clock.times) <= clock.times
      ensures ret == 0 ==> conns[0].lastActive in clock.times[|old(clock.times)|..]
      ensures ret == 0 ==> fds.open == old(fds.open)
      ensures Failures() == old(Failures()) + if ret == 0 then 0 else 1
      ensures resources.failures >= old(resources.failures) && epoll.failures >= old(epoll.failures)
    {
      hide ValidExcept, OtherFds, OtherEntries;
      var modeSet := resources.Attempt();
      if !modeSet {
        Refuse(fd);
        return -1;
      }
      var haveMemory := resources.Attempt();
      if !haveMemory {
        Refuse(fd);
        return -1;
      }
      var now := clock.Time();
      var conn := new TcpConn(fd, sock, channel, now);
      ret := Register(conn);
      if ret == -1 {
        Refuse(fd);
      }
    }

    /** How often something a new connection needs was not to be had. */
    ghost function Failures(): nat
      reads resources, epoll`failures
    {
      resources.failures + epoll.failures
    }

    /** `accept_clients`: goes on until `accept` says that no client is left or fails. Each
        client it got is a new connection at the front of the list, but for one per failure; it
        belongs to the listener it came by and counts as active from then on. Old connections
        are not touched. */
    method AcceptClients(channel: Channel)
      requires Valid()
      modifies this, epoll, fds, clock, resources
      ensures Valid() && freed == old(freed)
      ensures OtherFds() == old(OtherFds()) && OtherEntries() == old(OtherEntries())
      ensures EndsWith(conns, old(conns))
      ensures fds.refusals > old(fds.refusals) && old(fds.accepted) <= fds.accepted
      ensures resources.failures >= old(resources.failures) && epoll.failures >= old(epoll.failures)
      ensures |conns| - |old(conns)| + Failures() - old(Failures()) == |fds.accepted| - |old(fds.accepted)|
      ensures old(live) <= live
      ensures forall c | c in live && c !in old(live) ::
                && fresh(c) && fresh(c.outBuf) && fresh(c.sock) && c.channel == channel
                && Arrival(c.fd, channel.fd) in fds.accepted[|old(fds.accepted)|..]
      ensures forall a | a in fds.accepted[|old(fds.accepted)|..] :: a.via == channel.fd
      ensures old(clock.times) <= clock.times
      ensures forall c | c in live && c !in old(live) :: c.lastActive in clock.times[|old(clock.times)|..]
    {
      hide ValidExcept, OtherFds, OtherEntries, EndsWith;
      EndsWithItself(conns);
      while true
        invariant Valid() && freed == old(freed)
        invariant OtherFds() == old(OtherFds()) && OtherEntries() == old(OtherEntries())
        invariant EndsWith(conns, old(conns))
        invariant old(fds.accepted) <= fds.accepted && fds.refusals == old(fds.refusals)
        invariant resources.failures >= old(resources.failures) && epoll.failures >= old(epoll.failures)
        invariant |conns| - |old(conns)| + Failures() - old(Failures()) == |fds.accepted| - |old(fds.accepted)|
        invariant old(live) <= live
        invariant forall c | c in live && c !in old(live) ::
                    && fresh(c) && fresh(c.outBuf) && fresh(c.sock) && c.channel == channel
                    && Arrival(c.fd, channel.fd) in fds.accepted[|old(fds.accepted)|..]
        invariant forall a | a in fds.accepted[|old(fds.accepted)|..] :: a.via == channel.fd
        invariant old(clock.times) <= clock.times
        invariant forall c | c in live && c !in old(live) :: c.lastActive in clock.times[|old(clock.times)|..]
        decreases fds.arriving + fds.stalls
      {
        ghost var before := fds.accepted;
        var fd, interrupted := AcceptOther(channel.fd);
        if fd == -1 {
          if interrupted { continue; }
          return;
        }
        assert fds.accepted[|old(fds.accepted)|..] == before[|old(fds.accepted)|..] + [Arrival(fd, channel.fd)];
        var incoming: seq<byte>, stalls: nat := *, *;
        var sock := new Socket(incoming, stalls);
        ghost var was := conns;
        ghost var times := clock.times;
        var ret := AddClient(channel, fd, sock);
        MoreTimes(old(clock.times), times, clock.times);
        if ret == 0 {
          LongerFront(conns, was, old(conns));
        }
      }
    }
  }
}
