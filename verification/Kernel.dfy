/** The operating system as the programs see it. Every answer a system call may give is a
    nondeterministic choice; what the calls moved is kept in histories. A run is finite, so
    the bytes a peer still delivers and the interruptions still to come are finite too,
    but both are arbitrary. */
module Kernel {

  newtype byte = x: int | 0 <= x < 256

  /** `IO_BUF_SIZE`, the size of every transfer buffer. */
  const IO_BUF_SIZE: nat := 4096

  /** A partial send of the rest of `data` extends what was sent of it. */
  lemma SendMore(before: seq<byte>, data: seq<byte>, sent: nat, n: nat)
    requires sent + n <= |data|
    ensures before + data[..sent] + data[sent..][..n] == before + data[..sent + n]
  {
    assert data[..sent] + data[sent..][..n] == data[..sent + n];
  }

  /** The values of `errno` the programs tell apart. */
  datatype Errno = EINTR | EAGAIN | OTHER

  /** One end of a stream connection. */
  class Socket {
    /** All bytes `recv` has returned and `send` has accepted, oldest first. */
    ghost var received: seq<byte>
    ghost var sent: seq<byte>
    /** How often `recv` and `send` said "not now" (EAGAIN), how often `recv` reported the end
        of the stream, and how often a call failed for good. Interruptions count nowhere. */
    ghost var dry: nat
    ghost var full: nat
    ghost var ends: nat
    ghost var faults: nat
    /** Bytes `recv` can still return, and how often calls can still fail temporarily. */
    var incoming: seq<byte>
    var stalls: nat

    constructor (incoming: seq<byte>, stalls: nat)
      ensures received == [] && sent == []
      ensures this.incoming == incoming && this.stalls == stalls
    {
      received, sent, dry, full, ends, faults := [], [], 0, 0, 0, 0;
      this.incoming, this.stalls := incoming, stalls;
    }

    /** A failed call: any `errno`, a temporary one only while stalls remain. */
    method Fail() returns (err: Errno)
      modifies this`stalls, this`faults
      ensures if err == OTHER then stalls == old(stalls) else stalls == old(stalls) - 1
      ensures faults == old(faults) + if err == OTHER then 1 else 0
    {
      err := OTHER;
      var interrupted: bool, blocked: bool := *, *;
      if stalls > 0 && (interrupted || blocked) {
        err := if interrupted then EINTR else EAGAIN;
        stalls := stalls - 1;
      } else {
        faults := faults + 1;
      }
    }

    /** `send`: accepts any prefix of `data`, possibly the empty one, or fails. To accept
        nothing is a failure to the programs. */
    method Send(data: seq<byte>) returns (n: int, err: Errno)
      requires data != []
      modifies this`sent, this`stalls, this`full, this`faults
      ensures -1 <= n <= |data|
      ensures n >= 0 ==> sent == old(sent) + data[..n] && stalls == old(stalls)
      ensures n == -1 ==> sent == old(sent)
      ensures n == -1 ==> if err == OTHER then stalls == old(stalls) else stalls == old(stalls) - 1
      ensures full == old(full) + if n == -1 && err == EAGAIN then 1 else 0
      ensures faults == old(faults) + if n == 0 || (n == -1 && err == OTHER) then 1 else 0
    {
      n, err := *, OTHER;
      if 0 <= n <= |data| {
        sent := sent + data[..n];
        if n == 0 { faults := faults + 1; }
      } else {
        n := -1;
        err := Fail();
        if err == EAGAIN { full := full + 1; }
      }
    }

    /** `recv` into a buffer of `room` bytes: any nonempty piece of what is to come, the
        end of the stream, or a failure. */
    method Recv(room: nat) returns (n: int, data: seq<byte>, err: Errno)
      modifies this`received, this`incoming, this`stalls, this`dry, this`ends, this`faults
      ensures received == old(received) + data
      ensures n == |data| <= room || (n == -1 && data == [])
      ensures old(incoming) == data + incoming
      ensures n >= 0 ==> stalls == old(stalls)
      ensures n == -1 ==> if err == OTHER then stalls == old(stalls) else stalls == old(stalls) - 1
      ensures dry == old(dry) + if n == -1 && err == EAGAIN then 1 else 0
      ensures ends == old(ends) + if n == 0 then 1 else 0
      ensures faults == old(faults) + if n == -1 && err == OTHER then 1 else 0
    {
      n, data, err := *, [], OTHER;
      if 0 <= n <= room && n <= |incoming| {
        data, incoming := incoming[..n], incoming[n..];
        received := received + data;
        if n == 0 { ends := ends + 1; }
      } else {
        n := -1;
        err := Fail();
        if err == EAGAIN { dry := dry + 1; }
      }
    }

    /** `poll` on this socket alone: ready, or too late, or broken. */
    method Wait() returns (ok: bool)
      modifies this`faults
      ensures faults == old(faults) + if ok then 0 else 1
    {
      ok := *;
      if !ok { faults := faults + 1; }
    }
  }

  /** Address and port of an endpoint. */
  datatype Endpoint = Endpoint(ip: string, port: int)

  /** A datagram, with the descriptor it was received or sent on and its other end. */
  datatype Packet = Packet(fd: int, peer: Endpoint, data: seq<byte>)

  /** The datagram sockets of one thread. */
  class Network {
    /** What `recvfrom` returned, what `sendto` was asked to send, and what it sent whole. */
    ghost var received: seq<Packet>
    ghost var attempted: seq<Packet>
    ghost var sent: seq<Packet>
    /** How often `recvfrom` said "not now", and how often a call failed for good. */
    ghost var dry: nat
    ghost var faults: nat
    /** Datagrams still to come, and how often calls can still fail temporarily. */
    var arriving: nat
    var stalls: nat

    constructor (arriving: nat, stalls: nat)
      ensures received == attempted == sent == []
    {
      received, attempted, sent, dry, faults := [], [], [], 0, 0;
      this.arriving, this.stalls := arriving, stalls;
    }

    method Fail() returns (err: Errno)
      modifies this`stalls, this`faults
      ensures if err == OTHER then stalls == old(stalls) else stalls == old(stalls) - 1
      ensures faults == old(faults) + if err == OTHER then 1 else 0
    {
      err := OTHER;
      var interrupted: bool, blocked: bool := *, *;
      if stalls > 0 && (interrupted || blocked) {
        err := if interrupted then EINTR else EAGAIN;
        stalls := stalls - 1;
      } else {
        faults := faults + 1;
      }
    }

    /** `recvfrom` into a buffer of `room` bytes: any datagram, cut to the room. On an
        unconnected socket it may come from anyone, on one connected to `only` from there. */
    method RecvFrom(fd: int, only: Origin, room: nat) returns (n: int, packet: Packet, err: Errno)
      modifies this`received, this`arriving, this`stalls, this`dry, this`faults
      ensures n == -1 || n == |packet.data| <= room
      ensures n >= 0 ==> packet.fd == fd && (only.Peer? ==> packet.peer == only.peer)
      ensures n >= 0 ==> received == old(received) + [packet] && arriving == old(arriving) - 1 && stalls == old(stalls)
      ensures n == -1 ==> received == old(received) && arriving == old(arriving)
      ensures n == -1 ==> if err == OTHER then stalls == old(stalls) else stalls == old(stalls) - 1
      ensures dry == old(dry) + if n == -1 && err == EAGAIN then 1 else 0
      ensures faults == old(faults) + if n == -1 && err == OTHER then 1 else 0
    {
      var peer: Endpoint, data: seq<byte>, ok: bool := *, *, *;
      if |data| > room { data := data[..room]; }
      if only.Peer? { peer := only.peer; }
      n, packet, err := |data|, Packet(fd, peer, data), OTHER;
      if ok && arriving > 0 {
        arriving := arriving - 1;
        received := received + [packet];
      } else {
        n := -1;
        err := Fail();
        if err == EAGAIN { dry := dry + 1; }
      }
    }

    /** `sendto`: the datagram goes out whole, or cut, or not at all. A cut one is a failure
        to the programs that look. */
    method SendTo(packet: Packet) returns (n: int, err: Errno)
      modifies this`attempted, this`sent, this`stalls, this`faults
      ensures attempted == old(attempted) + [packet] && -1 <= n <= |packet.data|
      ensures sent == if n == |packet.data| then old(sent) + [packet] else old(sent)
      ensures n >= 0 ==> stalls == old(stalls)
      ensures n == -1 ==> if err == OTHER then stalls == old(stalls) else stalls == old(stalls) - 1
      ensures faults == old(faults) + if 0 <= n < |packet.data| || (n == -1 && err == OTHER) then 1 else 0
    {
      n, err := *, OTHER;
      attempted := attempted + [packet];
      if n == |packet.data| {
        sent := sent + [packet];
      } else if 0 <= n < |packet.data| {
        faults := faults + 1;
      } else {
        n := -1;
        err := Fail();
      }
    }

    /** `poll` before another attempt. */
    method Wait() returns (ok: bool)
      modifies this`faults
      ensures faults == old(faults) + if ok then 0 else 1
    {
      ok := *;
      if !ok { faults := faults + 1; }
    }
  }

  /** Where a datagram may come from. */
  datatype Origin = Anyone | Peer(peer: Endpoint)

  /** `time(NULL)`; -1 is its failure value. The last answer and all answers are remembered. */
  class Clock {
    ghost var last: int
    ghost var times: seq<int>

    constructor () {
      last, times := -1, [];
    }

    method Time() returns (now: int)
      modifies this
      ensures now >= -1 && last == now && times == old(times) + [now]
    {
      now := *;
      if now < -1 { now := -1; }
      last, times := now, times + [now];
    }
  }

  /** `poll` and `epoll_wait` of a main loop: answered, interrupted, or failed. */
  class Waits {
    ghost var answers: nat
    ghost var interruptions: nat
    ghost var failures: nat

    constructor ()
      ensures answers == interruptions == failures == 0
    {
      answers, interruptions, failures := 0, 0, 0;
    }

    method Wait() returns (ok: bool, interrupted: bool)
      modifies this
      ensures answers == old(answers) + if ok then 1 else 0
      ensures interruptions == old(interruptions) + if !ok && interrupted then 1 else 0
      ensures failures == old(failures) + if !ok && !interrupted then 1 else 0
    {
      ok, interrupted := *, *;
      if ok { answers := answers + 1; }
      else if interrupted { interruptions := interruptions + 1; }
      else { failures := failures + 1; }
    }
  }

  /** `malloc`, `fcntl`, `inet_pton` and `connect`, which succeed or fail. */
  class Resources {
    ghost var failures: nat

    constructor ()
      ensures failures == 0
    {
      failures := 0;
    }

    method Attempt() returns (ok: bool)
      modifies this
      ensures failures == old(failures) + if ok then 0 else 1
    {
      ok := *;
      if !ok { failures := failures + 1; }
    }
  }

  /** A descriptor that was connected, and to what. */
  datatype Link = Link(fd: int, peer: Endpoint)

  /** A client's descriptor, and that of the listener it came by. */
  datatype Arrival = Arrival(fd: int, via: int)

  /** The process's open descriptors. Closing is only for an open one, so a program that
      meets this precondition everywhere closes each descriptor it was given at most once. */
  class FdTable {
    var open: set<int>
    /** What `accept` returned, and how often it said that no client is left or failed. */
    ghost var accepted: seq<Arrival>
    ghost var refusals: nat
    /** How often no descriptor or no connection was to be had, and all connections made. */
    ghost var denied: nat
    ghost var connected: seq<Link>
    /** Clients that will still come, and how often `accept` can still be interrupted. */
    var arriving: nat
    var stalls: nat

    constructor (arriving: nat, stalls: nat)
      ensures open == {} && accepted == [] && connected == []
    {
      open, accepted, refusals, denied, connected := {}, [], 0, 0, [];
      this.arriving, this.stalls := arriving, stalls;
    }

    /** `socket`, `epoll_create1`: a descriptor not in use, or -1. */
    method Open() returns (fd: int)
      modifies this`open, this`denied
      ensures if fd == -1 then open == old(open) else fd >= 0 && fd !in old(open) && open == old(open) + {fd}
      ensures denied == old(denied) + if fd == -1 then 1 else 0
    {
      fd := *;
      if fd < 0 || fd in open {
        denied := denied + 1;
        return -1;
      }
      open := open + {fd};
    }

    /** `connect`, interruptions aside. */
    method Connect(fd: int, peer: Endpoint) returns (ok: bool)
      requires fd in open
      modifies this`denied, this`connected
      ensures connected == if ok then old(connected) + [Link(fd, peer)] else old(connected)
      ensures denied == old(denied) + if ok then 0 else 1
    {
      ok := *;
      if ok { connected := connected + [Link(fd, peer)]; } else { denied := denied + 1; }
    }

    /** `accept` on the non-blocking listener `via`. */
    method Accept(via: int) returns (fd: int, interrupted: bool)
      modifies this
      ensures if fd == -1 then open == old(open) else fd >= 0 && fd !in old(open) && open == old(open) + {fd}
      ensures accepted == if fd == -1 then old(accepted) else old(accepted) + [Arrival(fd, via)]
      ensures refusals == old(refusals) + if fd == -1 && !interrupted then 1 else 0
      ensures arriving + stalls <= old(arriving + stalls)
      ensures fd != -1 || interrupted ==> arriving + stalls < old(arriving + stalls)
    {
      fd, interrupted := *, *;
      if fd >= 0 && fd !in open && arriving > 0 {
        open, accepted, arriving := open + {fd}, accepted + [Arrival(fd, via)], arriving - 1;
        return fd, false;
      }
      fd := -1;
      interrupted := interrupted && stalls > 0;
      if interrupted { stalls := stalls - 1; } else { refusals := refusals + 1; }
    }

    method Close(fd: int)
      requires fd in open
      modifies this`open
      ensures open == old(open) - {fd}
    {
      open := open - {fd};
    }
  }
}
