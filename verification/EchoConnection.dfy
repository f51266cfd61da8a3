/** One non-blocking TCP connection of the gateway: its bounded output buffer, its epoll
    interest, and the three handlers that move bytes. */
module EchoConnection {
  import opened Kernel
  import opened Listeners

  /** The part of an epoll mask that changes: EPOLLIN and EPOLLOUT. EPOLLERR, EPOLLHUP and
      EPOLLRDHUP are always asked for. */
  datatype Interest = Interest(readable: bool, writable: bool)

  datatype Registration = Listening(channel: nat) | Connection(conn: TcpConn, interest: Interest)

  /** The epoll instance: what each registered descriptor waits for. */
  class Epoll {
    var table: map<int, Registration>
    /** How often a registration or a change was refused. */
    ghost var failures: nat

    constructor ()
      ensures table == map[] && failures == 0
    {
      table, failures := map[], 0;
    }

    /** `EPOLL_CTL_ADD`. */
    method Add(fd: int, entry: Registration) returns (ret: int)
      modifies this
      ensures ret == 0 || ret == -1
      ensures ret == 0 ==> fd !in old(table) && table == old(table)[fd := entry]
      ensures ret == -1 ==> table == old(table)
      ensures failures == old(failures) + if ret == 0 then 0 else 1
    {
      ret := -1;
      var ok: bool := *;
      if ok && fd !in table {
        table := table[fd := entry];
        ret := 0;
      } else {
        failures := failures + 1;
      }
    }

    /** `EPOLL_CTL_MOD`. */
    method Mod(fd: int, entry: Registration) returns (ret: int)
      modifies this
      ensures ret == 0 || ret == -1
      ensures ret == 0 ==> fd in old(table) && table == old(table)[fd := entry]
      ensures ret == -1 ==> table == old(table)
      ensures failures == old(failures) + if ret == 0 then 0 else 1
    {
      ret := -1;
      var ok: bool := *;
      if ok && fd in table {
        table := table[fd := entry];
        ret := 0;
      } else {
        failures := failures + 1;
      }
    }

    /** `EPOLL_CTL_DEL`. The descriptor is closed next, which drops the entry in any case. */
    method Del(fd: int)
      modifies this`table
      ensures table == old(table) - {fd}
    {
      table := table - {fd};
    }
  }

  /** Why a handler asks for the connection to be closed; `NoFailure` when it does not. */
  datatype Failure = NoFailure | EndOfStream | RecvFailed | SendFailed | BufferTooSmall | RegistrationFailed

  class TcpConn {
    const sock: Socket
    const outBuf: array<byte>
    /** The listener this connection came by. */
    const channel: Channel
    var fd: int
    var lastActive: int
    var outLen: nat
    var outSent: nat
    var next: TcpConn?

    constructor (fd: int, sock: Socket, channel: Channel, now: int)
      requires sock.received == sock.sent == []
      ensures Valid() && this.fd == fd && this.sock == sock && this.channel == channel
      ensures next == null && lastActive == now && fresh(outBuf)
      ensures !HasPendingOutput()
    {
      this.fd, this.sock, this.channel, this.lastActive := fd, sock, channel, now;
      outBuf := new byte[IO_BUF_SIZE](_ => 0);
      outLen, outSent, next := 0, 0, null;
    }

    predicate HasPendingOutput()
      reads `outSent, `outLen
    {
      outSent < outLen
    }

    function Events(): Interest
      reads `outSent, `outLen
    {
      Interest(!HasPendingOutput(), HasPendingOutput())
    }

    ghost function Pending(): seq<byte>
      requires outSent <= outLen <= outBuf.Length
      reads `outSent, `outLen, outBuf
    {
      outBuf[outSent..outLen]
    }

    /** The state between two events: every byte received was sent back or waits, in order,
        in the buffer, and the counters are zero when nothing waits. */
    ghost predicate Valid()
      reads `outSent, `outLen, outBuf, sock
    {
      && outBuf.Length == IO_BUF_SIZE
      && outSent <= outLen <= IO_BUF_SIZE
      && (outSent == outLen ==> outLen == 0)
      && sock.received == sock.sent + Pending()
    }

    /** What is left when a handler gives up: the bytes sent are a prefix of the bytes
        received, and at most one buffer is lost. */
    ghost predicate BoundedLoss()
      reads sock
    {
      sock.sent <= sock.received && |sock.received| <= |sock.sent| + IO_BUF_SIZE
    }

    /** Registered, under its own descriptor, with some interest. */
    ghost predicate Registered(epoll: Epoll)
      reads `fd, epoll`table
    {
      fd in epoll.table && epoll.table[fd].Connection? && epoll.table[fd].conn == this
    }

    /** Only this connection's entry may differ between two tables, and it stays an entry
        of this connection. */
    ghost predicate OnlyOwnEntry(before: map<int, Registration>, after: map<int, Registration>)
      reads `fd
    {
      && fd in before && fd in after && after[fd].Connection? && after[fd].conn == this
      && after == before[fd := after[fd]]
    }

    /** The reason a handler gives is one the kernel gave it: since the counts `ends`, `faults`
        and `refused` were taken, the stream ended, a call failed for good, or epoll refused. */
    ghost predicate Caused(why: Failure, ends: nat, faults: nat, refused: nat, epoll: Epoll)
      reads sock`ends, sock`faults, epoll`failures
    {
      match why
      case EndOfStream => sock.ends > ends
      case RecvFailed => sock.faults > faults
      case SendFailed => sock.faults > faults
      case RegistrationFailed => epoll.failures > refused
      case _ => false
    }

    method UpdateEvents(epoll: Epoll) returns (ret: int)
      requires Registered(epoll)
      modifies epoll
      ensures OnlyOwnEntry(old(epoll.table), epoll.table)
      ensures ret == 0 || ret == -1
      ensures ret == 0 ==> epoll.table[fd] == Connection(this, Events())
      ensures ret == -1 ==> epoll.table == old(epoll.table)
      ensures epoll.failures == old(epoll.failures) + if ret == 0 then 0 else 1
    {
      ret := epoll.Mod(fd, Connection(this, Events()));
    }

    /** The end of a handler that did not fail. */
    method Settle(epoll: Epoll) returns (ret: int, ghost why: Failure)
      requires Valid() && Registered(epoll)
      modifies epoll
      ensures OnlyOwnEntry(old(epoll.table), epoll.table) && BoundedLoss()
      ensures ret == 0 || ret == -1
      ensures ret == 0 ==> why == NoFailure && epoll.table[fd] == Connection(this, Events())
      ensures ret == -1 ==> why == RegistrationFailed
      ensures epoll.failures == old(epoll.failures) + if ret == 0 then 0 else 1
    {
      ret := UpdateEvents(epoll);
      why := if ret == 0 then NoFailure else RegistrationFailed;
    }

    /** `flush_tcp_echo_output`: sends what waits in the buffer until it is empty or the
        socket is full; output stays behind only when the kernel refused some. */
    method Flush(epoll: Epoll, clock: Clock) returns (ret: int, ghost why: Failure)
      requires Valid() && Registered(epoll)
      modifies this`outLen, this`outSent, this`lastActive, epoll, clock, sock`sent, sock`stalls, sock`full, sock`faults
      ensures sock.stalls <= old(sock.stalls)
      ensures old(sock.sent) <= sock.sent <= sock.received
      ensures OnlyOwnEntry(old(epoll.table), epoll.table)
      ensures ret == 0 || ret == -1
      ensures ret == 0 ==> why == NoFailure && Valid() && epoll.table[fd] == Connection(this, Events())
      ensures ret == -1 ==> why in {SendFailed, RegistrationFailed} && BoundedLoss()
      ensures ret == 0 ==> sock.full == old(sock.full) + (if HasPendingOutput() then 1 else 0)
      ensures ret == 0 ==> sock.faults == old(sock.faults)
      ensures ret == 0 ==> epoll.failures == old(epoll.failures)
      ensures ret == -1 ==> Caused(why, old(sock.ends), old(sock.faults), old(epoll.failures), epoll)
      ensures sock.full >= old(sock.full) && sock.faults >= old(sock.faults) && epoll.failures >= old(epoll.failures)
      ensures if sock.sent == old(sock.sent) then lastActive == old(lastActive) else lastActive == clock.last
    {
      why := NoFailure;
      ghost var start, waiting := outSent, Pending();
      while outSent < outLen
        invariant start <= outSent <= outLen == old(outLen) <= IO_BUF_SIZE
        invariant sock.stalls <= old(sock.stalls)
        invariant waiting == outBuf[start..outLen]
        invariant sock.sent == old(sock.sent) + waiting[..outSent - start]
        invariant lastActive == if outSent == start then old(lastActive) else clock.last
        invariant epoll.table == old(epoll.table) && epoll.failures == old(epoll.failures)
        invariant sock.full == old(sock.full) && sock.faults == old(sock.faults)
        decreases outLen - outSent + sock.stalls
      {
        assert outBuf[outSent..outLen] == waiting[outSent - start..];
        var n, err := sock.Send(outBuf[outSent..outLen]);
        if n > 0 {
          SendMore(old(sock.sent), waiting, outSent - start, n);
          outSent := outSent + n;
          lastActive := clock.Time();
          continue;
        }
        if n == -1 && err == EINTR { continue; }
        if n == -1 && err == EAGAIN {
          ret, why := Settle(epoll);
          return;
        }
        return -1, SendFailed;
      }
      outLen, outSent := 0, 0;
      ret, why := Settle(epoll);
    }

    /** `memcpy` of what is left into the empty buffer. */
    method Keep(rest: seq<byte>)
      requires outLen == outSent == 0 && 0 < |rest| <= outBuf.Length == IO_BUF_SIZE
      requires sock.received == sock.sent + rest
      modifies this`outLen, this`outSent, outBuf
      ensures Valid() && HasPendingOutput()
    {
      forall i | 0 <= i < |rest| { outBuf[i] := rest[i]; }
      outLen, outSent := |rest|, 0;
      assert Pending() == rest;
    }

    /** `send_or_buffer_tcp_echo`: echoes a freshly received chunk, keeping what the socket
        does not take. It is called with an empty buffer, so nothing unsent is overwritten. */
    method SendOrBuffer(epoll: Epoll, clock: Clock, buf: seq<byte>) returns (ret: int, ghost why: Failure)
      requires Registered(epoll) && outBuf.Length == IO_BUF_SIZE
      requires outLen == outSent == 0 && |buf| <= IO_BUF_SIZE
      requires sock.received == sock.sent + buf
      modifies this`outLen, this`outSent, this`lastActive, outBuf, epoll, clock, sock`sent, sock`stalls, sock`full
      modifies sock`faults
      ensures sock.stalls <= old(sock.stalls)
      ensures old(sock.sent) <= sock.sent
      ensures OnlyOwnEntry(old(epoll.table), epoll.table)
      ensures ret == 0 || ret == -1
      ensures ret == 0 ==> why == NoFailure && Valid() && epoll.failures == old(epoll.failures)
      ensures ret == -1 ==> why in {SendFailed, RegistrationFailed} && BoundedLoss()
      ensures ret == 0 && HasPendingOutput() ==> epoll.table[fd] == Connection(this, Events())
      ensures ret == 0 ==> sock.full == old(sock.full) + (if HasPendingOutput() then 1 else 0)
      ensures ret == 0 ==> sock.faults == old(sock.faults)
      ensures sock.full >= old(sock.full) && sock.faults >= old(sock.faults) && epoll.failures >= old(epoll.failures)
      ensures ret == -1 ==> Caused(why, old(sock.ends), old(sock.faults), old(epoll.failures), epoll)
      ensures if sock.sent == old(sock.sent) then lastActive == old(lastActive) && clock.last == old(clock.last)
              else lastActive == clock.last
    {
      why := NoFailure;
      var sent := 0;
      while sent < |buf|
        invariant sent <= |buf|
        invariant sock.stalls <= old(sock.stalls) && outLen == outSent == 0
        invariant sock.sent == old(sock.sent) + buf[..sent]
        invariant if sent == 0 then lastActive == old(lastActive) && clock.last == old(clock.last)
                  else lastActive == clock.last
        invariant epoll.table == old(epoll.table) && epoll.failures == old(epoll.failures)
        invariant sock.full == old(sock.full) && sock.faults == old(sock.faults)
        decreases |buf| - sent + sock.stalls
      {
        var n, err := sock.Send(buf[sent..]);
        if n > 0 {
          SendMore(old(sock.sent), buf, sent, n);
          sent := sent + n;
          lastActive := clock.Time();
          continue;
        }
        if n == -1 && err == EINTR { continue; }
        if n == -1 && err == EAGAIN {
          var left := |buf| - sent;
          if left > outBuf.Length {
            return -1, BufferTooSmall;
          }
          Keep(buf[sent..]);
          ret, why := Settle(epoll);
          return;
        }
        return -1, SendFailed;
      }
      return 0, NoFailure;
    }

    /** With nothing waiting, the echo is complete. */
    lemma AllEchoed()
      requires !HasPendingOutput()
      ensures Valid() <==> outBuf.Length == IO_BUF_SIZE && outLen == outSent == 0 && sock.received == sock.sent
    {
    }

    /** One round of the loop of `handle_tcp_echo_read`; `more` asks for another. */
    method ReadRound(epoll: Epoll, clock: Clock) returns (more: bool, ret: int, ghost why: Failure)
      requires Valid() && Registered(epoll) && !HasPendingOutput()
      modifies this`outLen, this`outSent, this`lastActive, outBuf, sock, epoll, clock
      ensures old(sock.received) <= sock.received && old(sock.sent) <= sock.sent
      ensures sock.received + sock.incoming == old(sock.received + sock.incoming)
      ensures OnlyOwnEntry(old(epoll.table), epoll.table)
      ensures more || ret == 0 ==> Valid() && why == NoFailure && epoll.failures == old(epoll.failures)
      ensures more ==> |sock.incoming| + sock.stalls < old(|sock.incoming| + sock.stalls)
      ensures more ==> sock.dry == old(sock.dry)
      ensures more ==> sock.full == old(sock.full) + (if HasPendingOutput() then 1 else 0)
      ensures !more && ret == 0 ==> epoll.table[fd] == Connection(this, Events()) && !HasPendingOutput()
      ensures !more && ret == 0 ==> sock.dry == old(sock.dry) + 1 && sock.full == old(sock.full)
      ensures more || ret == 0 ==> sock.ends == old(sock.ends) && sock.faults == old(sock.faults)
      ensures !more ==> ret == 0 || ret == -1
      ensures !more && ret == -1 ==> why != NoFailure && why != BufferTooSmall && BoundedLoss()
      ensures !more && ret == -1 ==> Caused(why, old(sock.ends), old(sock.faults), old(epoll.failures), epoll)
      ensures why == EndOfStream ==> sock.sent == sock.received
      ensures sock.full >= old(sock.full) && sock.faults >= old(sock.faults) && sock.ends >= old(sock.ends)
      ensures epoll.failures >= old(epoll.failures) && sock.stalls <= old(sock.stalls)
      ensures if sock.received == old(sock.received) then lastActive == old(lastActive) && clock.last == old(clock.last)
              else lastActive == clock.last
    {
      hide Valid, Pending;
      AllEchoed();
      more, ret, why := false, 0, NoFailure;
      var n, buf, err := sock.Recv(IO_BUF_SIZE);
      if n > 0 {
        lastActive := clock.Time();
        ret, why := SendOrBuffer(epoll, clock, buf);
        more := ret == 0;
        return;
      }
      AllEchoed();
      if n == 0 { return false, -1, EndOfStream; }
      if err == EINTR { return true, 0, NoFailure; }
      if err == EAGAIN {
        ret, why := Settle(epoll);
        return;
      }
      return false, -1, RecvFailed;
    }

    /** `handle_tcp_echo_read`: receives and echoes until the kernel has no more input or
        takes no more output. At end of stream everything received has been sent back. */
    method HandleRead(epoll: Epoll, clock: Clock) returns (ret: int, ghost why: Failure)
      requires Valid() && Registered(epoll)
      modifies this`outLen, this`outSent, this`lastActive, outBuf, sock, epoll, clock
      ensures old(sock.received) <= sock.received && old(sock.sent) <= sock.sent
      ensures sock.received + sock.incoming == old(sock.received + sock.incoming)
      ensures OnlyOwnEntry(old(epoll.table), epoll.table)
      ensures ret == 0 || ret == -1
      ensures ret == 0 ==> why == NoFailure && Valid() && epoll.table[fd] == Connection(this, Events())
      ensures ret == 0 ==> epoll.failures == old(epoll.failures)
      ensures ret == -1 ==> why != NoFailure && why != BufferTooSmall && BoundedLoss()
      ensures ret == -1 ==> Caused(why, old(sock.ends), old(sock.faults), old(epoll.failures), epoll)
      ensures sock.faults >= old(sock.faults) && sock.ends >= old(sock.ends) && epoll.failures >= old(epoll.failures)
      ensures sock.stalls <= old(sock.stalls) && sock.full >= old(sock.full)
      ensures ret == 0 && !old(HasPendingOutput()) ==>
                if HasPendingOutput() then sock.full == old(sock.full) + 1 && sock.dry == old(sock.dry)
                else sock.dry == old(sock.dry) + 1 && sock.full == old(sock.full)
      ensures ret == 0 ==> sock.ends == old(sock.ends) && sock.faults == old(sock.faults)
      ensures why == EndOfStream ==> sock.sent == sock.received
      ensures old(HasPendingOutput()) ==> sock.received == old(sock.received) && sock.sent == old(sock.sent)
      ensures if sock.received == old(sock.received) then lastActive == old(lastActive) else lastActive == clock.last
    {
      hide Valid, Pending;
      why := NoFailure;
      while !HasPendingOutput()
        invariant Valid()
        invariant old(sock.received) <= sock.received && old(sock.sent) <= sock.sent
        invariant sock.received + sock.incoming == old(sock.received + sock.incoming)
        invariant OnlyOwnEntry(old(epoll.table), epoll.table)
        invariant sock.stalls <= old(sock.stalls)
        invariant sock.faults == old(sock.faults) && sock.ends == old(sock.ends)
        invariant epoll.failures == old(epoll.failures) && sock.dry == old(sock.dry)
        invariant sock.full == old(sock.full) + if HasPendingOutput() && !old(HasPendingOutput()) then 1 else 0
        invariant old(HasPendingOutput()) ==>
                    HasPendingOutput() && sock.received == old(sock.received) && sock.sent == old(sock.sent)
        invariant if sock.received == old(sock.received) then lastActive == old(lastActive)
                  else lastActive == clock.last
        decreases |sock.incoming| + sock.stalls
      {
        var more;
        more, ret, why := ReadRound(epoll, clock);
        if !more { return; }
      }
      ret, why := Settle(epoll);
    }
  }
}
