/** The target echo server: a table of client slots, a poll table rebuilt each round, and a
    dispatch loop over it. */
module TargetServer {
  import opened Kernel
  import opened Options
  import opened Processes

  const MAX_TCP_CLIENTS: nat := 1024

  /** One entry of the two parallel arrays `fds` and `client_index_for_poll`. */
  datatype PollEntry = PollEntry(fd: int, index: int)

  datatype Revents = Revents(input: bool, problem: bool)

  /** `send_all` of the target: waits when the socket is full. `acts` are its moves. */
  method SendAll(sock: Socket, buf: seq<byte>) returns (ret: int, ghost taken: nat, ghost acts: seq<Act>)
    modifies sock`sent, sock`stalls, sock`full, sock`faults
    ensures sock.stalls <= old(sock.stalls)
    ensures taken <= |buf| && sock.sent == old(sock.sent) + buf[..taken]
    ensures if taken == |buf| then ret == 0 else ret == -1
    ensures if ret == 0 then sock.faults == old(sock.faults) else sock.faults > old(sock.faults)
    ensures Sends(acts, taken)
  {
    hide Sends;
    var sent := 0;
    acts := [];
    NoSends();
    while sent < |buf|
      invariant sent <= |buf| && sock.sent == old(sock.sent) + buf[..sent]
      invariant sock.stalls <= old(sock.stalls) && sock.faults == old(sock.faults)
      invariant Sends(acts, sent)
      decreases |buf| - sent + sock.stalls
    {
      var n, err := sock.Send(buf[sent..]);
      if n > 0 {
        SendMore(old(sock.sent), buf, sent, n);
        OneMoreSend(acts, sent, n);
        sent, acts := sent + n, acts + [Sent(n)];
        continue;
      }
      if n == -1 && err == EINTR { continue; }
      if n == -1 && err == EAGAIN {
        var ready := sock.Wait();
        if !ready { return -1, sent, acts; }
        continue;
      }
      return -1, sent, acts;
    }
    return 0, sent, acts;
  }

  /** The server's side of one connection as a machine, as its socket shows it. */
  ghost function Machine(sock: Socket, at: TargetAt): Process
    reads sock`received, sock`sent
  {
    ATarget(Target(sock.received, sock.sent, at))
  }

  /** The moves for one chunk take the machine back to waiting, or to its end. */
  lemma ChunkMoves(t: Target, chunk: seq<byte>, sends: seq<Act>, taken: nat)
    requires t.at == Waiting && Chunk(chunk) && taken <= |chunk| && Sends(sends, taken)
    ensures After(ATarget(t), [Received(chunk)] + sends + [if taken == |chunk| then Turned else Ended])
      == Some(ATarget(Target(t.received + chunk, t.sent + chunk[..taken], if taken == |chunk| then Waiting else Gone)))
  {
    hide After, Sends;
    NoActs(ATarget(t));
    OneMoreAct(ATarget(t), [], ATarget(t), Received(chunk));
    assert [] + [Received(chunk)] == [Received(chunk)];
    var q := ATarget(TargetDo(t, Received(chunk)));
    SendsAdvance(q, sends, taken);
    MoreActs(ATarget(t), [Received(chunk)], q, sends);
    OneMoreAct(ATarget(t), [Received(chunk)] + sends, Advance(q, taken), if taken == |chunk| then Turned else Ended);
    assert chunk[0..taken] == chunk[..taken];
    if taken == 0 { assert t.sent + chunk[..0] == t.sent; }
  }

  /** `handle_tcp_client`: true leaves the client with everything it sent so far echoed, and
      only after the kernel reported that there is no more; false asks for its removal, and
      only after the stream ended or a call failed. Its moves are those of the target's
      machine. */
  method HandleTcpClient(sock: Socket) returns (keep: bool, ghost acts: seq<Act>)
    requires sock.received == sock.sent
    modifies sock
    ensures old(sock.received) <= sock.received
    ensures sock.received + sock.incoming == old(sock.received + sock.incoming)
    ensures keep ==> sock.received == sock.sent && sock.dry == old(sock.dry) + 1
    ensures keep ==> sock.ends == old(sock.ends) && sock.faults == old(sock.faults)
    ensures !keep ==> sock.sent <= sock.received && |sock.received| <= |sock.sent| + IO_BUF_SIZE
    ensures !keep ==> sock.ends > old(sock.ends) || sock.faults > old(sock.faults)
    ensures After(old(Machine(sock, Waiting)), acts) == Some(Machine(sock, if keep then Waiting else Gone))
  {
    hide After, Sends;
    ghost var start := Machine(sock, Waiting);
    acts := [];
    NoActs(start);
    while true
      invariant sock.received == sock.sent && old(sock.received) <= sock.received && sock.stalls <= old(sock.stalls)
      invariant sock.received + sock.incoming == old(sock.received + sock.incoming)
      invariant sock.dry == old(sock.dry) && sock.ends == old(sock.ends) && sock.faults == old(sock.faults)
      invariant After(start, acts) == Some(Machine(sock, Waiting))
      decreases |sock.incoming| + sock.stalls
    {
      ghost var now := Machine(sock, Waiting);
      var n, buf, err := sock.Recv(IO_BUF_SIZE);
      if n > 0 {
        ghost var taken, sends;
        var ret;
        ret, taken, sends := SendAll(sock, buf);
        ghost var moves := [Received(buf)] + sends + [if taken == |buf| then Turned else Ended];
        ChunkMoves(now.target, buf, sends, taken);
        MoreActs(start, acts, now, moves);
        acts := acts + moves;
        if ret == -1 { return false, acts; }
        continue;
      }
      assert Machine(sock, Waiting) == now;
      OneMoreAct(start, acts, now, Ended);
      if n == 0 { return false, acts + [Ended]; }
      if err == EINTR { continue; }
      if err == EAGAIN { return true, acts; }
      return false, acts + [Ended];
    }
  }

  lemma NoSends()
    ensures Sends([], 0)
  {
  }

  /** The slots in use, in order: entries of the poll table for slots below `n`. */
  function ClientEntries(clients: seq<int>, n: nat): seq<PollEntry>
    requires n <= |clients|
  {
    if n == 0 then []
    else ClientEntries(clients, n - 1) + if clients[n - 1] != -1 then [PollEntry(clients[n - 1], n - 1)] else []
  }

  function ListenerEntry(fd: int): seq<PollEntry> {
    if fd != -1 then [PollEntry(fd, -1)] else []
  }

  /** The poll table of one round. */
  function PollTable(clients: seq<int>, tcpFd: int, udpFd: int): seq<PollEntry> {
    ListenerEntry(tcpFd) + ListenerEntry(udpFd) + ClientEntries(clients, |clients|)
  }

  /** It has at most one entry per slot, each slot's entry holds that slot's descriptor, and
      slots appear in increasing order. */
  lemma {:induction false} ClientEntriesMeaning(clients: seq<int>, n: nat)
    requires n <= |clients|
    ensures var es := ClientEntries(clients, n);
            && |es| <= n
            && (forall k | 0 <= k < |es| :: 0 <= es[k].index < n && es[k].fd == clients[es[k].index] != -1)
            && (forall j, k | 0 <= j < k < |es| :: es[j].index < es[k].index)
  {
    if n > 0 { ClientEntriesMeaning(clients, n - 1); }
  }

  /** The same of the whole table: what comes before the slots are the listeners. */
  lemma TableMeaning(clients: seq<int>, tcpFd: int, udpFd: int)
    ensures var table := PollTable(clients, tcpFd, udpFd);
            && (forall k | 0 <= k < |table| && table[k].index < 0 ::
                  table[k].index == -1 && (table[k].fd == tcpFd || table[k].fd == udpFd))
            && (forall k | 0 <= k < |table| && table[k].index >= 0 ::
                  table[k].index < |clients| && table[k].fd == clients[table[k].index] != -1)
            && (forall j, k | 0 <= j < k < |table| && table[j].index >= 0 :: table[j].index < table[k].index)
            && (tcpFd != -1 ==> PollEntry(tcpFd, -1) in table) && (udpFd != -1 ==> PollEntry(udpFd, -1) in table)
  {
    ClientEntriesMeaning(clients, |clients|);
  }

  /** Every slot in use has its entry. */
  lemma {:induction false} EverySlotPolled(clients: seq<int>, n: nat, i: nat)
    requires i < n <= |clients| && clients[i] != -1
    ensures PollEntry(clients[i], i) in ClientEntries(clients, n)
  {
    if i < n - 1 { EverySlotPolled(clients, n - 1, i); }
  }

  /** The descriptors in the slots. */
  function SlotFds(clients: seq<int>): set<int> {
    set fd | fd in clients && fd != -1
  }

  /** Slots in use hold distinct descriptors outside `base`. */
  ghost predicate Distinguished(clients: seq<int>, base: set<int>) {
    && (forall i | 0 <= i < |clients| && clients[i] != -1 :: clients[i] >= 0 && clients[i] !in base)
    && (forall i, j | 0 <= i < j < |clients| && clients[i] != -1 :: clients[i] != clients[j])
  }

  /** The descriptors of some arrivals. */
  function FdsOf(arrivals: seq<Arrival>): set<int> {
    set a | a in arrivals :: a.fd
  }

  lemma FillSlot(clients: seq<int>, base: set<int>, i: nat, fd: int)
    requires Distinguished(clients, base) && i < |clients| && clients[i] == -1
    requires fd >= 0 && fd !in base + SlotFds(clients)
    ensures Distinguished(clients[i := fd], base) && SlotFds(clients[i := fd]) == SlotFds(clients) + {fd}
    ensures |SlotFds(clients[i := fd])| == |SlotFds(clients)| + 1
  {
    var after := clients[i := fd];
    assert forall j | 0 <= j < |clients| && clients[j] != -1 :: clients[j] in SlotFds(clients);
    assert after[i] == fd && forall j | 0 <= j < |clients| && j != i :: after[j] == clients[j];
    forall f | f in SlotFds(clients) ensures f in after {
      var j :| 0 <= j < |clients| && clients[j] == f;
      assert after[j] == f;
    }
  }

  lemma ClearSlot(clients: seq<int>, base: set<int>, i: nat)
    requires Distinguished(clients, base) && i < |clients| && clients[i] != -1
    ensures Distinguished(clients[i := -1], base) && SlotFds(clients[i := -1]) == SlotFds(clients) - {clients[i]}
    ensures clients[i] in SlotFds(clients) && clients[i] !in base
    ensures |SlotFds(clients[i := -1])| == |SlotFds(clients)| - 1
  {
    var after := clients[i := -1];
    forall f | f in SlotFds(clients) && f != clients[i] ensures f in after {
      var j :| 0 <= j < |clients| && clients[j] == f;
      assert after[j] == f;
    }
  }

  /** What the kernel has answered on a client's stream. */
  datatype Account = Account(dry: nat, ends: nat, faults: nat)

  ghost function AccountOf(sock: Socket): Account
    reads sock`dry, sock`ends, sock`faults
  {
    Account(sock.dry, sock.ends, sock.faults)
  }

  /** A client's entry has been served, which took its stream from `was` to `now`. A client that
      is still there had no problem, and if it had input was served until there was no more; one
      that is gone had a problem, ended its stream, or a call failed. */
  predicate ServedBy(r: Revents, was: Account, now: Account, there: bool) {
    if r.problem then !there && now == was
    else if there then now == if r.input then was.(dry := was.dry + 1) else was
    else now.ends > was.ends || now.faults > was.faults
  }

  /** What was sent is what was received, in order and unchanged, with at most `lost` missing. */
  ghost predicate Answered(received: seq<Packet>, sent: seq<Packet>, lost: nat)
    decreases |received|
  {
    if received == [] then sent == []
    else
      var r, s := |received| - 1, |sent| - 1;
      || (s >= 0 && sent[s] == received[r] && Answered(received[..r], sent[..s], lost))
      || (lost > 0 && Answered(received[..r], sent, lost - 1))
  }

  lemma OneMoreAnswered(received: seq<Packet>, sent: seq<Packet>, lost: nat, p: Packet)
    requires Answered(received, sent, lost)
    ensures Answered(received + [p], sent + [p], lost) && Answered(received + [p], sent, lost + 1)
  {
    assert (received + [p])[..|received|] == received && (sent + [p])[..|sent|] == sent;
  }

  /** Datagrams received and sent, failures, answers that end the service of a listener, and
      clients accounted for, at some moment. */
  datatype Moment = Moment(
    received: seq<Packet>, sent: seq<Packet>, faults: nat, stops: nat, refusals: nat, accounted: int)

  /** From one moment to another each datagram was received on `fd` and sent back, but for as
      many as calls failed. */
  ghost predicate Since(fd: int, r0: seq<Packet>, s0: seq<Packet>, f0: nat, r1: seq<Packet>, s1: seq<Packet>, f1: nat) {
    && r0 <= r1 && s0 <= s1 && f0 <= f1 && Answered(r1[|r0|..], s1[|s0|..], f1 - f0)
    && forall k | |r0| <= k < |r1| :: r1[k].fd == fd
  }

  lemma OneMoreSince(fd: int, r0: seq<Packet>, s0: seq<Packet>, f0: nat, r1: seq<Packet>, s1: seq<Packet>, p: Packet)
    requires Since(fd, r0, s0, f0, r1, s1, f0) && p.fd == fd
    ensures Since(fd, r0, s0, f0, r1 + [p], s1 + [p], f0)
  {
    OneMoreAnswered(r1[|r0|..], s1[|s0|..], 0, p);
    hide Answered;
    assert (r1 + [p])[|r0|..] == r1[|r0|..] + [p] && (s1 + [p])[|s0|..] == s1[|s0|..] + [p];
  }

  lemma OneLostSince(fd: int, r0: seq<Packet>, s0: seq<Packet>, f0: nat, r1: seq<Packet>, s1: seq<Packet>, p: Packet,
                     f1: nat)
    requires Since(fd, r0, s0, f0, r1, s1, f0) && p.fd == fd && f0 < f1
    ensures Since(fd, r0, s0, f0, r1 + [p], s1, f1)
  {
    OneMoreAnswered(r1[|r0|..], s1[|s0|..], 0, p);
    hide Answered;
    assert (r1 + [p])[|r0|..] == r1[|r0|..] + [p];
    MayLoseMore((r1 + [p])[|r0|..], s1[|s0|..], 1, f1 - f0);
  }

  lemma MoreFaults(fd: int, r0: seq<Packet>, s0: seq<Packet>, f0: nat, r1: seq<Packet>, s1: seq<Packet>, f1: nat)
    requires Since(fd, r0, s0, f0, r1, s1, f0) && f0 <= f1
    ensures Since(fd, r0, s0, f0, r1, s1, f1)
  {
    MayLoseMore(r1[|r0|..], s1[|s0|..], 0, f1 - f0);
  }

  /** The last datagram received was sent back last, or is missing. */
  lemma LastAnswered(received: seq<Packet>, sent: seq<Packet>, lost: nat) returns (kept: bool)
    requires Answered(received, sent, lost) && received != []
    ensures var r := received[..|received| - 1];
            if kept then sent != [] && sent[|sent| - 1] == received[|r|] && Answered(r, sent[..|sent| - 1], lost)
            else lost > 0 && Answered(r, sent, lost - 1)
  {
    var r, s := |received| - 1, |sent| - 1;
    kept := s >= 0 && sent[s] == received[r] && Answered(received[..r], sent[..s], lost);
  }

  lemma NothingAnswered(sent: seq<Packet>, lost: nat)
    ensures Answered([], sent, lost) <==> sent == []
  {
  }

  lemma {:induction false} BothAnswered(r1: seq<Packet>, s1: seq<Packet>, n1: nat,
                                        r2: seq<Packet>, s2: seq<Packet>, n2: nat)
    requires Answered(r1, s1, n1) && Answered(r2, s2, n2)
    ensures Answered(r1 + r2, s1 + s2, n1 + n2)
    decreases |r2|
  {
    hide Answered;
    if r2 == [] {
      NothingAnswered(s2, n2);
      assert r1 + r2 == r1 && s1 + s2 == s1;
      MayLoseMore(r1, s1, n1, n1 + n2);
    } else {
      var r := r2[..|r2| - 1];
      var p := r2[|r|];
      var kept := LastAnswered(r2, s2, n2);
      assert r1 + r2 == (r1 + r) + [p];
      if kept {
        var s := s2[..|s2| - 1];
        BothAnswered(r1, s1, n1, r, s, n2);
        OneMoreAnswered(r1 + r, s1 + s, n1 + n2, p);
        assert s1 + s2 == (s1 + s) + [p];
      } else {
        BothAnswered(r1, s1, n1, r, s2, n2 - 1);
        OneMoreAnswered(r1 + r, s1 + s2, n1 + (n2 - 1), p);
      }
    }
  }

  lemma {:induction false} MayLoseMore(received: seq<Packet>, sent: seq<Packet>, lost: nat, more: nat)
    requires Answered(received, sent, lost) && lost <= more
    ensures Answered(received, sent, more)
    decreases |received|
  {
    hide Answered;
    if received == [] {
      NothingAnswered(sent, lost);
      NothingAnswered(sent, more);
    } else {
      var r := received[..|received| - 1];
      var p := received[|r|];
      var kept := LastAnswered(received, sent, lost);
      assert received == r + [p];
      if kept {
        MayLoseMore(r, sent[..|sent| - 1], lost, more);
        OneMoreAnswered(r, sent[..|sent| - 1], more, p);
        assert sent == sent[..|sent| - 1] + [p];
      } else {
        MayLoseMore(r, sent, lost - 1, more - 1);
        OneMoreAnswered(r, sent, more - 1, p);
      }
    }
  }

  /** One of the first `n` entries reports input on the listener `fd`. */
  ghost predicate Asked(entries: seq<PollEntry>, revents: seq<Revents>, fd: int, n: nat)
    requires n <= |entries| == |revents|
  {
    exists k | 0 <= k < n :: entries[k] == PollEntry(fd, -1) && revents[k].input && !revents[k].problem
  }

  lemma OneMoreAsked(entries: seq<PollEntry>, revents: seq<Revents>, fd: int, n: nat)
    requires n < |entries| == |revents|
    ensures Asked(entries, revents, fd, n + 1) <==>
              || Asked(entries, revents, fd, n)
              || (entries[n] == PollEntry(fd, -1) && revents[n].input && !revents[n].problem)
  {
    if entries[n] == PollEntry(fd, -1) && revents[n].input && !revents[n].problem {
      assert Asked(entries, revents, fd, n + 1);
    }
  }

  /** Listeners come first, then slots in increasing order with distinct descriptors. */
  ghost predicate OneEach(entries: seq<PollEntry>) {
    forall j, k | 0 <= j < k < |entries| && entries[j].index >= 0 ::
      entries[j].index < entries[k].index && entries[j].fd != entries[k].fd
  }

  class Server {
    const fds: FdTable
    const clients: array<int>
    const tcpFd: int
    const udpFd: int
    const net: Network
    const resources: Resources
    const waits: Waits
    /** Passes of the dispatch loop so far, and how often `poll` reported input on a listener. */
    ghost var passes: nat
    ghost var tcpAsked: nat
    ghost var udpAsked: nat
    /** Clients closed at once because no slot was free, and clients that had a slot and were
        closed. */
    ghost var turnedAway: nat
    ghost var removed: nat
    /** Open descriptors that are not clients, the listeners among them. */
    ghost const base: set<int>
    /** The stream behind each client descriptor. */
    var socks: map<int, Socket>

    constructor (fds: FdTable, tcpFd: int, udpFd: int, net: Network, resources: Resources, waits: Waits)
      requires tcpFd != -1 ==> tcpFd in fds.open
      requires udpFd != -1 ==> udpFd in fds.open
      ensures Slots() && Echoed() && this.fds == fds && this.tcpFd == tcpFd && this.udpFd == udpFd && this.net == net
      ensures this.resources == resources && this.waits == waits && base == fds.open
      ensures fresh(clients) && socks == map[] && forall i | 0 <= i < clients.Length :: clients[i] == -1
    {
      this.fds, this.tcpFd, this.udpFd, this.net := fds, tcpFd, udpFd, net;
      this.resources, this.waits, base := resources, waits, fds.open;
      passes, tcpAsked, udpAsked, turnedAway, removed := 0, 0, 0, 0, 0;
      clients := new int[MAX_TCP_CLIENTS](_ => -1);
      socks := map[];
    }

    ghost predicate Slots()
      reads clients, fds`open
    {
      && clients.Length == MAX_TCP_CLIENTS
      && (tcpFd != -1 ==> tcpFd in base) && (udpFd != -1 ==> udpFd in base)
      && Distinguished(clients[..], base) && fds.open == base + SlotFds(clients[..])
    }

    /** Every client has been echoed all it sent so far, over a stream of its own. */
    ghost predicate Echoed()
      reads `socks, clients, socks.Values
    {
      && (forall i | 0 <= i < clients.Length && clients[i] != -1 ::
            clients[i] in socks && socks[clients[i]].received == socks[clients[i]].sent)
      && (forall f, g | f in socks && g in socks && f != g :: socks[f] != socks[g])
    }

    /** Every client accepted has a slot, had one, or was closed at once. The difference never
        changes. */
    ghost function Accounted(): int
      reads `turnedAway, `removed, clients, resources, fds`accepted
    {
      |SlotFds(clients[..])| + resources.failures + turnedAway + removed - |fds.accepted|
    }

    /** Since then each datagram was sent back, but for as many as calls failed. */
    ghost predicate AnsweredSince(received: seq<Packet>, sent: seq<Packet>, faults: nat)
      reads net`received, net`sent, net`faults
    {
      Since(udpFd, received, sent, faults, net.received, net.sent, net.faults)
    }

    lemma NothingSince()
      ensures AnsweredSince(net.received, net.sent, net.faults)
    {
    }

    /** What was so from then to now goes on from before then. */
    lemma StillAnswered(r0: seq<Packet>, s0: seq<Packet>, f0: nat, r1: seq<Packet>, s1: seq<Packet>, f1: nat)
      requires Since(udpFd, r0, s0, f0, r1, s1, f1) && AnsweredSince(r1, s1, f1)
      ensures AnsweredSince(r0, s0, f0)
    {
      hide Answered;
      BothAnswered(r1[|r0|..], s1[|s0|..], f1 - f0, net.received[|r1|..], net.sent[|s1|..], net.faults - f1);
      assert net.received[|r0|..] == r1[|r0|..] + net.received[|r1|..];
      assert net.sent[|s0|..] == s1[|s0|..] + net.sent[|s1|..];
    }

    /** `add_client`: the first free slot takes the descriptor. */
    method AddClient(fd: int) returns (ret: int)
      requires clients.Length == MAX_TCP_CLIENTS
      modifies clients
      ensures ret == 0 || ret == -1
      ensures ret == 0 ==> exists k | 0 <= k < clients.Length ::
                old(clients[k]) == -1 && clients[..] == old(clients[..])[k := fd] && -1 !in old(clients[..k])
      ensures ret == -1 ==> clients[..] == old(clients[..]) && -1 !in clients[..]
    {
      for i := 0 to MAX_TCP_CLIENTS
        invariant clients[..] == old(clients[..]) && -1 !in clients[..i]
      {
        if clients[i] == -1 {
          clients[i] := fd;
          return 0;
        }
      }
      return -1;
    }

    /** `remove_client`: closes the slot's descriptor once and frees the slot. */
    method RemoveClient(index: nat)
      requires Slots() && index < MAX_TCP_CLIENTS
      modifies this`removed, clients, fds`open
      ensures Slots() && clients[..] == old(clients[..])[index := -1] && Accounted() == old(Accounted())
      ensures fds.open == old(fds.open) - if old(clients[index]) != -1 then {old(clients[index])} else {}
    {
      hide SlotFds, Distinguished;
      if clients[index] != -1 {
        ClearSlot(clients[..], base, index);
        fds.Close(clients[index]);
        clients[index], removed := -1, removed + 1;
        assert clients[..] == old(clients[..])[index := -1];
      } else {
        assert clients[..] == clients[..][index := -1];
      }
    }

    /** `accept`: a client more to account for, or none. */
    method AcceptNext() returns (fd: int, interrupted: bool)
      modifies fds
      ensures if fd == -1 then fds.open == old(fds.open)
              else fd >= 0 && fd !in old(fds.open) && fds.open == old(fds.open) + {fd}
      ensures fds.accepted == if fd == -1 then old(fds.accepted) else old(fds.accepted) + [Arrival(fd, tcpFd)]
      ensures fds.refusals == old(fds.refusals) + if fd == -1 && !interrupted then 1 else 0
      ensures fd != -1 || interrupted ==> fds.arriving + fds.stalls < old(fds.arriving + fds.stalls)
      ensures Accounted() == old(Accounted()) - if fd == -1 then 0 else 1
    {
      fd, interrupted := fds.Accept(tcpFd);
    }

    /** `accept_tcp_clients`: goes on until `accept` says that no client is left or fails. Only
        free slots change, and unless something failed or the table is full every client
        accepted has a slot. */
    method AcceptTcpClients()
      requires Slots() && Echoed()
      modifies this`socks, this`turnedAway, clients, fds, resources
      ensures Slots() && Echoed() && Accounted() == old(Accounted())
      ensures turnedAway >= old(turnedAway) && (turnedAway > old(turnedAway) ==> -1 !in clients[..])
      ensures forall i | 0 <= i < clients.Length && old(clients[i]) != -1 :: clients[i] == old(clients[i])
      ensures forall i | 0 <= i < clients.Length && old(clients[i]) != -1 ::
                && old(clients[i]) in old(socks) && old(clients[i]) in socks
                && socks[old(clients[i])] == old(socks[clients[i]])
      ensures forall sock | sock in socks.Values :: sock in old(socks.Values) || fresh(sock)
      ensures fds.refusals > old(fds.refusals) && old(fds.accepted) <= fds.accepted
      ensures forall a | a in fds.accepted[|old(fds.accepted)|..] :: a.via == tcpFd
      ensures resources.failures >= old(resources.failures)
      ensures resources.failures == old(resources.failures) && -1 in clients[..] ==>
                SlotFds(clients[..]) == old(SlotFds(clients[..])) + FdsOf(fds.accepted[|old(fds.accepted)|..])
    {
      hide SlotFds, Distinguished, Accounted;
      assert SlotFds(clients[..]) == old(SlotFds(clients[..])) + FdsOf(fds.accepted[|old(fds.accepted)|..]);
      while true
        invariant Slots() && Echoed() && Accounted() == old(Accounted())
        invariant turnedAway >= old(turnedAway) && (turnedAway > old(turnedAway) ==> -1 !in clients[..])
        invariant forall i | 0 <= i < clients.Length && old(clients[i]) != -1 :: clients[i] == old(clients[i])
        invariant forall i | 0 <= i < clients.Length && old(clients[i]) != -1 ::
                    && old(clients[i]) in old(socks) && old(clients[i]) in socks
                    && socks[old(clients[i])] == old(socks[clients[i]])
        invariant forall sock | sock in socks.Values :: sock in old(socks.Values) || fresh(sock)
        invariant fds.refusals == old(fds.refusals) && old(fds.accepted) <= fds.accepted
        invariant forall a | a in fds.accepted[|old(fds.accepted)|..] :: a.via == tcpFd
        invariant resources.failures >= old(resources.failures)
        invariant resources.failures == old(resources.failures) && -1 in clients[..] ==>
                    SlotFds(clients[..]) ==
                    old(SlotFds(clients[..])) + FdsOf(fds.accepted[|old(fds.accepted)|..])
        decreases fds.arriving + fds.stalls
      {
        ghost var before, was := fds.accepted, clients[..];
        var fd, interrupted := AcceptNext();
        if fd == -1 {
          if interrupted { continue; }
          return;
        }
        assert fds.accepted[|old(fds.accepted)|..] == before[|old(fds.accepted)|..] + [Arrival(fd, tcpFd)];
        AcceptOne(fd);
        StillFree(was);
      }
    }

    /** A slot that is free now was free before, if used slots kept their descriptors. */
    lemma StillFree(was: seq<int>)
      requires |was| == clients.Length && forall i | 0 <= i < |was| && was[i] != -1 :: clients[i] == was[i]
      ensures -1 in clients[..] ==> -1 in was
    {
      if -1 in clients[..] {
        var i :| 0 <= i < clients.Length && clients[i] == -1;
        assert was[i] == -1;
      }
    }

    /** What happens to one accepted descriptor: a slot, or an immediate close. */
    method AcceptOne(fd: int)
      requires fds.open == base + SlotFds(clients[..]) + {fd} && fd >= 0 && fd !in base + SlotFds(clients[..])
      requires clients.Length == MAX_TCP_CLIENTS && Distinguished(clients[..], base) && Echoed()
      requires (tcpFd != -1 ==> tcpFd in base) && (udpFd != -1 ==> udpFd in base)
      modifies this`socks, this`turnedAway, clients, fds`open, resources
      ensures Slots() && Echoed() && Accounted() == old(Accounted()) + 1
      ensures turnedAway >= old(turnedAway) && (turnedAway > old(turnedAway) ==> -1 !in clients[..])
      ensures forall i | 0 <= i < clients.Length && old(clients[i]) != -1 :: clients[i] == old(clients[i])
      ensures forall i | 0 <= i < clients.Length && old(clients[i]) != -1 ::
                && old(clients[i]) in old(socks) && old(clients[i]) in socks
                && socks[old(clients[i])] == old(socks[clients[i]])
      ensures forall sock | sock in socks.Values :: sock in old(socks.Values) || fresh(sock)
      ensures resources.failures >= old(resources.failures)
      ensures resources.failures == old(resources.failures) && -1 in clients[..] ==>
                SlotFds(clients[..]) == old(SlotFds(clients[..])) + {fd}
    {
      hide Distinguished, SlotFds;
      var nonBlocking := resources.Attempt();
      if !nonBlocking {
        fds.Close(fd);
        return;
      }
      var ret := GiveSlot(fd);
      if ret == -1 {
        fds.Close(fd);
        turnedAway := turnedAway + 1;
      }
    }

    /** A free slot for a new client, and the stream it comes with. */
    method GiveSlot(fd: int) returns (ret: int)
      requires clients.Length == MAX_TCP_CLIENTS && Distinguished(clients[..], base) && Echoed()
      requires fd >= 0 && fd !in base + SlotFds(clients[..])
      modifies this`socks, clients
      ensures Distinguished(clients[..], base) && Echoed() && (ret == 0 || ret == -1)
      ensures ret == -1 ==> clients[..] == old(clients[..]) && -1 !in clients[..] && socks == old(socks)
      ensures ret == 0 ==> SlotFds(clients[..]) == old(SlotFds(clients[..])) + {fd}
      ensures ret == 0 ==> |SlotFds(clients[..])| == |old(SlotFds(clients[..]))| + 1
      ensures forall i | 0 <= i < clients.Length && old(clients[i]) != -1 ::
                && clients[i] == old(clients[i]) && old(clients[i]) in old(socks) && old(clients[i]) in socks
                && socks[old(clients[i])] == old(socks[clients[i]])
      ensures forall sock | sock in socks.Values :: sock in old(socks.Values) || fresh(sock)
    {
      hide Distinguished, SlotFds;
      ghost var was := clients[..];
      ret := AddClient(fd);
      if ret == -1 { return; }
      ghost var k :| 0 <= k < |was| && was[k] == -1 && clients[..] == was[k := fd];
      FillSlot(was, base, k, fd);
      var incoming: seq<byte>, stalls: nat := *, *;
      var stream := new Socket(incoming, stalls);
      socks := socks[fd := stream];
      SlotsFd(was, fd);
      assert forall i | 0 <= i < clients.Length :: clients[i] == clients[..][i];
    }

    lemma SlotsFd(was: seq<int>, fd: int)
      requires fd !in SlotFds(was) && fd >= 0
      ensures fd !in was
    {
    }

    /** The start of a round of `run_server`: the two parallel arrays and their length. */
    method BuildPollTable() returns (table: array<PollEntry>, nfds: nat)
      requires clients.Length == MAX_TCP_CLIENTS
      ensures fresh(table) && nfds <= table.Length == 2 + MAX_TCP_CLIENTS
      ensures table[..nfds] == PollTable(clients[..], tcpFd, udpFd)
    {
      table := new PollEntry[2 + MAX_TCP_CLIENTS](_ => PollEntry(-1, -1));
      nfds := 0;
      if tcpFd != -1 {
        table[nfds] := PollEntry(tcpFd, -1);
        nfds := nfds + 1;
      }
      if udpFd != -1 {
        table[nfds] := PollEntry(udpFd, -1);
        nfds := nfds + 1;
      }
      ghost var front := ListenerEntry(tcpFd) + ListenerEntry(udpFd);
      assert table[..nfds] == front;
      for i := 0 to MAX_TCP_CLIENTS
        invariant nfds <= 2 + i && table[..nfds] == front + ClientEntries(clients[..], i)
      {
        if clients[i] != -1 {
          ghost var before := table[..nfds];
          table[nfds] := PollEntry(clients[i], i);
          nfds := nfds + 1;
          assert table[..nfds] == before + [PollEntry(clients[i], i)];
        }
      }
    }

    /** The entry's slot still holds the descriptor that was polled. */
    ghost predicate Current(e: PollEntry)
      reads clients
    {
      && -1 <= e.index < clients.Length
      && (e.index >= 0 ==> e.fd != -1 && clients[e.index] == e.fd)
      && (e.index == -1 ==> e.fd == tcpFd || e.fd == udpFd)
    }

    /** One round of the dispatch loop. Slots of other entries keep their descriptors and
        streams; the entry's own client is served to the end of its input or removed, and a
        listener with input is served until the kernel has no more. */
    method DispatchEntry(e: PollEntry, revents: Revents)
      requires Slots() && Echoed() && Current(e)
      modifies this`socks, this`turnedAway, this`removed, clients, fds, net, resources
      modifies if e.index >= 0 && e.fd in socks then {socks[e.fd]} else {}
      ensures Slots() && Echoed() && Accounted() == old(Accounted())
      ensures turnedAway > old(turnedAway) ==> -1 !in clients[..]
      ensures AnsweredSince(old(net.received), old(net.sent), old(net.faults))
      ensures forall i | 0 <= i < clients.Length && old(clients[i]) != -1 && i != e.index ::
                clients[i] == old(clients[i])
      ensures e.index >= 0 ==> forall i | 0 <= i < clients.Length && i != e.index :: clients[i] == old(clients[i])
      ensures e.index >= 0 ==> clients[e.index] == e.fd || clients[e.index] == -1
      ensures e.index >= 0 ==> socks == old(socks) && e.fd in socks
      ensures e.index >= 0 ==>
                ServedBy(revents, old(AccountOf(socks[e.fd])), AccountOf(socks[e.fd]), clients[e.index] == e.fd)
      ensures e.index == -1 ==> forall i | 0 <= i < clients.Length && old(clients[i]) != -1 ::
                && old(clients[i]) in old(socks) && old(clients[i]) in socks
                && socks[old(clients[i])] == old(socks[clients[i]])
      ensures fds.refusals >= old(fds.refusals) && net.dry + net.faults >= old(net.dry + net.faults)
      ensures e == PollEntry(tcpFd, -1) && revents.input && !revents.problem ==> fds.refusals > old(fds.refusals)
      ensures e == PollEntry(udpFd, -1) && udpFd != tcpFd && revents.input && !revents.problem ==>
                net.dry + net.faults > old(net.dry + net.faults)
      ensures forall sock | sock in socks.Values :: sock in old(socks.Values) || fresh(sock)
    {
      NothingSince();
      hide Accounted, Since;
      if !revents.input && !revents.problem { return; }
      if revents.problem {
        if e.index >= 0 { RemoveClient(e.index); }
        return;
      }
      if e.fd == tcpFd {
        AcceptTcpClients();
      } else if e.fd == udpFd {
        HandleUdpPackets();
      } else if e.index >= 0 {
        var keep, acts := HandleTcpClient(socks[e.fd]);
        if !keep { RemoveClient(e.index); }
      }
    }

    /** The datagrams from `r` on were sent back from `n` on, but for at most the last. */
    ghost predicate EchoedBack(received: seq<Packet>, r: nat, sent: seq<Packet>, n: nat, last: bool)
      requires r <= |received| && n <= |sent|
    {
      sent[n..] == received[r..] || (last && received[r..] != [] && sent[n..] == received[r..|received| - 1])
    }

    /** `handle_udp_packets`: each datagram is sent back as it is, from where and to whom it
        came, in order; only the reply to the last one can be missing. */
    method HandleUdpPackets()
      modifies net
      ensures old(net.received) <= net.received && old(net.sent) <= net.sent
      ensures EchoedBack(net.received, |old(net.received)|, net.sent, |old(net.sent)|, true)
      ensures AnsweredSince(old(net.received), old(net.sent), old(net.faults))
      ensures forall k | |old(net.received)| <= k < |net.received| :: net.received[k].fd == udpFd
      ensures net.dry + net.faults == old(net.dry + net.faults) + 1
    {
      while true
        invariant old(net.received) <= net.received && old(net.sent) <= net.sent
        invariant EchoedBack(net.received, |old(net.received)|, net.sent, |old(net.sent)|, false)
        invariant AnsweredSince(old(net.received), old(net.sent), old(net.faults))
        invariant forall k | |old(net.received)| <= k < |net.received| :: net.received[k].fd == udpFd
        invariant net.dry == old(net.dry) && net.faults == old(net.faults)
        decreases net.arriving + net.stalls
      {
        ghost var received, sent := net.received, net.sent;
        var n, packet, err := net.RecvFrom(udpFd, Anyone, IO_BUF_SIZE);
        if n == -1 {
          if err == EINTR { continue; }
          MoreFaults(udpFd, old(net.received), old(net.sent), old(net.faults), received, sent, net.faults);
          return;
        }
        var ret := SendUdpReply(packet);
        OneMoreEchoed(received, |old(net.received)|, sent, |old(net.sent)|, packet);
        if ret == -1 {
          OneLostSince(udpFd, old(net.received), old(net.sent), old(net.faults), received, sent, packet, net.faults);
          return;
        }
        OneMoreSince(udpFd, old(net.received), old(net.sent), old(net.faults), received, sent, packet);
      }
    }

    lemma OneMoreEchoed(received: seq<Packet>, r: nat, sent: seq<Packet>, n: nat, p: Packet)
      requires r <= |received| && n <= |sent| && EchoedBack(received, r, sent, n, false)
      ensures EchoedBack(received + [p], r, sent + [p], n, false) && EchoedBack(received + [p], r, sent, n, true)
    {
      assert (received + [p])[r..] == received[r..] + [p] && (sent + [p])[n..] == sent[n..] + [p];
      assert (received + [p])[r..|received|] == received[r..];
    }

    /** `send_udp_reply`. */
    method SendUdpReply(packet: Packet) returns (ret: int)
      modifies net`attempted, net`sent, net`stalls, net`faults
      ensures ret == 0 || ret == -1
      ensures net.sent == if ret == 0 then old(net.sent) + [packet] else old(net.sent)
      ensures net.stalls <= old(net.stalls)
      ensures net.faults == old(net.faults) + if ret == 0 then 0 else 1
    {
      while true
        invariant net.sent == old(net.sent) && net.stalls <= old(net.stalls) && net.faults == old(net.faults)
        decreases net.stalls
      {
        var n, err := net.SendTo(packet);
        if n == |packet.data| { return 0; }
        if n == -1 && err == EINTR { continue; }
        if n == -1 && err == EAGAIN {
          var ready := net.Wait();
          if !ready { return -1; }
          continue;
        }
        return -1;
      }
    }

    /** The poll table of this moment is current. */
    lemma FreshTableIsCurrent()
      requires Slots() && Echoed()
      ensures var table := PollTable(clients[..], tcpFd, udpFd);
              && OneEach(table) && (forall k | 0 <= k < |table| :: Current(table[k]))
              && (forall k | 0 <= k < |table| && table[k].index >= 0 :: table[k].fd in socks)
    {
      hide PollTable;
      TableMeaning(clients[..], tcpFd, udpFd);
    }

    /** Where a pass stands when `i` entries have had their turn: theirs were served, and the
        others are still current and untouched. `was` is from the beginning of the pass. */
    ghost predicate Standing(entries: seq<PollEntry>, revents: seq<Revents>, was: seq<Account>, i: nat)
      requires i <= |entries| == |revents| == |was|
      reads `socks, clients, socks.Values
    {
      && (forall k | i <= k < |entries| ::
            && Current(entries[k])
            && (entries[k].index >= 0 ==> entries[k].fd in socks && AccountOf(socks[entries[k].fd]) == was[k]))
      && (forall k | 0 <= k < i && entries[k].index >= 0 ::
            var e := entries[k];
            && e.index < clients.Length && e.fd in socks && (clients[e.index] == e.fd || clients[e.index] == -1)
            && ServedBy(revents[k], was[k], AccountOf(socks[e.fd]), clients[e.index] == e.fd))
    }

    /** The counts and histories of this moment. */
    ghost function Now(): Moment
      reads `turnedAway, `removed, clients, resources, net, fds`accepted, fds`refusals
    {
      Moment(net.received, net.sent, net.faults, net.dry + net.faults, fds.refusals, Accounted())
    }

    /** Where a pass stands, with what it has done since `start`: listeners that reported input
        were served, datagrams sent back, and clients accounted for. */
    ghost predicate Going(entries: seq<PollEntry>, revents: seq<Revents>, was: seq<Account>, i: nat, start: Moment)
      requires i <= |entries| == |revents| == |was|
      reads `turnedAway, `removed, `socks, clients, resources, net, fds`accepted, fds`refusals, socks.Values
    {
      && Standing(entries, revents, was, i) && Accounted() == start.accounted
      && AnsweredSince(start.received, start.sent, start.faults)
      && fds.refusals >= start.refusals + (if Asked(entries, revents, tcpFd, i) then 1 else 0)
      && net.dry + net.faults >=
         start.stops + if udpFd != tcpFd && Asked(entries, revents, udpFd, i) then 1 else 0
    }

    /** The turn of one entry. */
    method TakeTurn(entries: seq<PollEntry>, revents: seq<Revents>, ghost was: seq<Account>, i: nat,
                    ghost start: Moment)
      requires Slots() && Echoed() && i < |entries| == |revents| == |was|
      requires Going(entries, revents, was, i, start) && OneEach(entries)
      modifies this`socks, this`turnedAway, this`removed, clients, fds, net, resources
      modifies if entries[i].index >= 0 && entries[i].fd in socks then {socks[entries[i].fd]} else {}
      ensures Slots() && Echoed() && Going(entries, revents, was, i + 1, start)
      ensures forall sock | sock in socks.Values :: sock in old(socks.Values) || fresh(sock)
    {
      hide Distinguished, SlotFds, ServedBy, Accounted, Since, Asked;
      OneMoreAsked(entries, revents, tcpFd, i);
      OneMoreAsked(entries, revents, udpFd, i);
      DispatchEntry(entries[i], revents[i]);
      StillAnswered(start.received, start.sent, start.faults, old(net.received), old(net.sent), old(net.faults));
    }

    /** The dispatch loop. Accepts and removals earlier in the pass never change the slot of
        an entry still to come, and every entry has its turn. */
    method Dispatch(table: array<PollEntry>, nfds: nat, revents: seq<Revents>)
      requires Slots() && Echoed() && nfds <= table.Length && |revents| == nfds
      requires table[..nfds] == PollTable(clients[..], tcpFd, udpFd)
      modifies this`socks, this`passes, this`turnedAway, this`removed, clients, fds, net, resources, socks.Values
      ensures passes == old(passes) + 1
      ensures Slots() && Echoed() && Accounted() == old(Accounted())
      ensures AnsweredSince(old(net.received), old(net.sent), old(net.faults))
      ensures forall sock | sock in socks.Values :: sock in old(socks.Values) || fresh(sock)
      ensures ClientsServed(table[..nfds], revents)
      ensures fds.refusals >= old(fds.refusals) + if Asked(table[..nfds], revents, tcpFd, nfds) then 1 else 0
      ensures net.dry + net.faults >=
              old(net.dry + net.faults) + if udpFd != tcpFd && Asked(table[..nfds], revents, udpFd, nfds) then 1 else 0
    {
      ghost var entries := table[..nfds];
      ghost var was := PassBegins(entries, revents);
      hide PollTable, Slots, Echoed, Going, OneEach, ServedBy, AccountOf, Asked, Accounted, AnsweredSince;
      DispatchLoop(table, nfds, revents, was, Now());
      GoingMeans(entries, revents, was, old(Now()));
    }

    /** Each client polled has been served since, or its slot is free for a reason. */
    twostate predicate ClientsServed(entries: seq<PollEntry>, revents: seq<Revents>)
      requires |entries| == |revents|
      reads `socks, clients, socks.Values
    {
      forall k | 0 <= k < |entries| && entries[k].index >= 0 ::
        var e := entries[k];
        && e.index < clients.Length && e.fd in socks && e.fd in old(socks)
        && (clients[e.index] == e.fd || clients[e.index] == -1)
        && ServedBy(revents[k], old(AccountOf(socks[e.fd])), AccountOf(socks[e.fd]), clients[e.index] == e.fd)
    }

    /** The accounts at the beginning of a pass over a table just built. */
    lemma PassBegins(entries: seq<PollEntry>, revents: seq<Revents>) returns (was: seq<Account>)
      requires Slots() && Echoed() && entries == PollTable(clients[..], tcpFd, udpFd) && |revents| == |entries|
      ensures |was| == |entries| && OneEach(entries) && Going(entries, revents, was, 0, Now())
      ensures forall k | 0 <= k < |entries| && entries[k].index >= 0 ::
                entries[k].fd in socks && was[k] == AccountOf(socks[entries[k].fd])
    {
      FreshTableIsCurrent();
      hide PollTable, Slots, Echoed, OneEach, Asked, Accounted, Since;
      was := Accounts(entries);
      StandingAtFirst(entries, revents, was);
      NothingYet(entries, revents, was);
    }

    /** The loop itself, one turn after the other. */
    method DispatchLoop(table: array<PollEntry>, nfds: nat, revents: seq<Revents>, ghost was: seq<Account>,
                        ghost start: Moment)
      requires Slots() && Echoed() && nfds <= table.Length && |revents| == |was| == nfds
      requires Going(table[..nfds], revents, was, 0, start) && OneEach(table[..nfds])
      modifies this`socks, this`passes, this`turnedAway, this`removed, clients, fds, net, resources, socks.Values
      ensures passes == old(passes) + 1
      ensures Slots() && Echoed() && Going(table[..nfds], revents, was, nfds, start)
      ensures forall sock | sock in socks.Values :: sock in old(socks.Values) || fresh(sock)
    {
      hide Slots, Echoed, Going, OneEach;
      passes := passes + 1;
      ghost var entries := table[..nfds];
      for i := 0 to nfds
        invariant Slots() && Echoed() && table[..nfds] == entries && passes == old(passes) + 1
        invariant Going(entries, revents, was, i, start)
        invariant forall sock | sock in socks.Values :: sock in old(socks.Values) || fresh(sock)
      {
        TakeTurn(table[..nfds], revents, was, i, start);
      }
    }

    lemma NothingYet(entries: seq<PollEntry>, revents: seq<Revents>, was: seq<Account>)
      requires |entries| == |revents| == |was| && Standing(entries, revents, was, 0)
      ensures Going(entries, revents, was, 0, Now())
    {
      NothingSince();
    }

    /** The accounts of the clients some entries are for. */
    ghost function Accounts(entries: seq<PollEntry>): (was: seq<Account>)
      requires forall k | 0 <= k < |entries| && entries[k].index >= 0 :: entries[k].fd in socks
      reads `socks, socks.Values
      ensures |was| == |entries|
      ensures forall k | 0 <= k < |entries| && entries[k].index >= 0 :: was[k] == AccountOf(socks[entries[k].fd])
    {
      if entries == [] then []
      else Accounts(entries[..|entries| - 1])
           + [if entries[|entries| - 1].index >= 0 then AccountOf(socks[entries[|entries| - 1].fd])
              else Account(0, 0, 0)]
    }

    lemma StandingAtFirst(entries: seq<PollEntry>, revents: seq<Revents>, was: seq<Account>)
      requires |entries| == |revents| == |was| && forall k | 0 <= k < |entries| :: Current(entries[k])
      requires forall k | 0 <= k < |entries| && entries[k].index >= 0 ::
                 entries[k].fd in socks && AccountOf(socks[entries[k].fd]) == was[k]
      ensures Standing(entries, revents, was, 0)
    {
    }

    /** What a pass has done. */
    lemma GoingMeans(entries: seq<PollEntry>, revents: seq<Revents>, was: seq<Account>, start: Moment)
      requires |entries| == |revents| == |was| && Going(entries, revents, was, |entries|, start)
      ensures Accounted() == start.accounted && AnsweredSince(start.received, start.sent, start.faults)
      ensures fds.refusals >= start.refusals + if Asked(entries, revents, tcpFd, |entries|) then 1 else 0
      ensures net.dry + net.faults >=
              start.stops + if udpFd != tcpFd && Asked(entries, revents, udpFd, |entries|) then 1 else 0
      ensures forall k | 0 <= k < |entries| && entries[k].index >= 0 ::
                var e := entries[k];
                && e.index < clients.Length && e.fd in socks && (clients[e.index] == e.fd || clients[e.index] == -1)
                && ServedBy(revents[k], was[k], AccountOf(socks[e.fd]), clients[e.index] == e.fd)
    {
    }

    /** The loop of `run_server`, for up to `rounds` rounds: after any number of them slots
        hold distinct open descriptors, and every client there has been echoed all it sent.
        Each answer of `poll` had its pass, each report of input on a listener was served, and
        only a failure of `poll` ended it early. */
    method Serve(rounds: nat)
      requires Slots() && Echoed() && socks == map[]
      modifies this`socks, this`passes, this`tcpAsked, this`udpAsked, this`turnedAway, this`removed
      modifies clients, fds, net, resources, waits
      ensures Slots() && Echoed() && forall sock | sock in socks.Values :: fresh(sock)
      ensures Accounted() == old(Accounted())
      ensures AnsweredSince(old(net.received), old(net.sent), old(net.faults))
      ensures passes - old(passes) == waits.answers - old(waits.answers)
      ensures fds.refusals - old(fds.refusals) >= tcpAsked - old(tcpAsked)
      ensures udpFd != tcpFd ==> net.dry + net.faults - old(net.dry + net.faults) >= udpAsked - old(udpAsked)
      ensures || waits.failures > old(waits.failures)
              || waits.answers + waits.interruptions - old(waits.answers + waits.interruptions) == rounds
    {
      NothingSince();
      hide Distinguished, SlotFds, Asked, ServedBy, Accounted, Since;
      var left := rounds;
      while left > 0
        invariant Accounted() == old(Accounted())
        invariant AnsweredSince(old(net.received), old(net.sent), old(net.faults))
        invariant Slots() && Echoed() && forall sock | sock in socks.Values :: fresh(sock)
        invariant passes - old(passes) == waits.answers - old(waits.answers) && waits.failures >= old(waits.failures)
        invariant fds.refusals - old(fds.refusals) >= tcpAsked - old(tcpAsked)
        invariant udpFd != tcpFd ==> net.dry + net.faults - old(net.dry + net.faults) >= udpAsked - old(udpAsked)
        invariant 0 <= left <= rounds
        invariant waits.answers + waits.interruptions - old(waits.answers + waits.interruptions) == rounds - left
      {
        left := left - 1;
        var table, nfds := BuildPollTable();
        var ok, interrupted, revents := Poll(table, nfds);
        if !ok {
          if interrupted { continue; }
          break;
        }
        ghost var received, sent, faults := net.received, net.sent, net.faults;
        Dispatch(table, nfds, revents);
        StillAnswered(old(net.received), old(net.sent), old(net.faults), received, sent, faults);
      }
    }

    /** `run_server` from its loop on: the rounds, and the clean-up that closes every client
        and each listener once. */
    method Run(rounds: nat)
      requires Slots() && Echoed() && socks == map[]
      requires tcpFd != udpFd || tcpFd == -1
      modifies this`socks, this`passes, this`tcpAsked, this`udpAsked, this`turnedAway, this`removed
      modifies clients, fds, net, resources, waits
      ensures Accounted() == old(Accounted()) && SlotFds(clients[..]) == {}
      ensures AnsweredSince(old(net.received), old(net.sent), old(net.faults))
      ensures fds.open == base - Listeners()
      ensures passes - old(passes) == waits.answers - old(waits.answers)
      ensures fds.refusals - old(fds.refusals) >= tcpAsked - old(tcpAsked)
      ensures udpFd != tcpFd ==> net.dry + net.faults - old(net.dry + net.faults) >= udpAsked - old(udpAsked)
      ensures || waits.failures > old(waits.failures)
              || waits.answers + waits.interruptions - old(waits.answers + waits.interruptions) == rounds
    {
      Serve(rounds);
      CloseAll();
    }

    ghost function Listeners(): set<int> {
      (if tcpFd != -1 then {tcpFd} else {}) + if udpFd != -1 then {udpFd} else {}
    }

    /** `poll`: some answer for each entry. */
    method Poll(table: array<PollEntry>, nfds: nat) returns (ok: bool, interrupted: bool, revents: seq<Revents>)
      requires nfds <= table.Length
      modifies waits, this`tcpAsked, this`udpAsked
      ensures |revents| == nfds
      ensures waits.answers == old(waits.answers) + if ok then 1 else 0
      ensures waits.interruptions == old(waits.interruptions) + if !ok && interrupted then 1 else 0
      ensures waits.failures == old(waits.failures) + if !ok && !interrupted then 1 else 0
      ensures tcpAsked == old(tcpAsked) + if ok && Asked(table[..nfds], revents, tcpFd, nfds) then 1 else 0
      ensures udpAsked == old(udpAsked) + if ok && Asked(table[..nfds], revents, udpFd, nfds) then 1 else 0
    {
      ok, interrupted := waits.Wait();
      revents := [];
      while |revents| < nfds
        invariant |revents| <= nfds
      {
        var r: Revents := *;
        revents := revents + [r];
      }
      if ok {
        tcpAsked := tcpAsked + if Asked(table[..nfds], revents, tcpFd, nfds) then 1 else 0;
        udpAsked := udpAsked + if Asked(table[..nfds], revents, udpFd, nfds) then 1 else 0;
      }
    }

    method CloseAll()
      requires Slots() && (tcpFd != udpFd || tcpFd == -1)
      modifies this`removed, clients, fds`open
      ensures Accounted() == old(Accounted()) && SlotFds(clients[..]) == {}
      ensures fds.open == base - Listeners() && forall i | 0 <= i < clients.Length :: clients[i] == -1
    {
      hide Accounted;
      for i := 0 to MAX_TCP_CLIENTS
        invariant Slots() && Accounted() == old(Accounted()) && forall k | 0 <= k < i :: clients[k] == -1
      {
        RemoveClient(i);
      }
      assert SlotFds(clients[..]) == {};
      if tcpFd != -1 { fds.Close(tcpFd); }
      if udpFd != -1 { fds.Close(udpFd); }
    }
  }
}
