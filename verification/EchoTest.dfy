/** The TCP part of the test client: it sends the message, receives as many bytes, compares,
    and repeats. */
module EchoTest {
  import opened Kernel
  import opened Options
  import opened Processes

  const MAX_RESPONSE_SIZE: nat := 65535

  /** How often a call on the connection failed, for good or for now, or found the stream ended. */
  ghost function Setbacks(sock: Socket): nat
    reads sock`dry, sock`full, sock`ends, sock`faults
  {
    sock.dry + sock.full + sock.ends + sock.faults
  }

  /** `send_all` of the test client: any error but an interruption ends it. `acts` are its
      moves. */
  method SendAll(sock: Socket, buf: seq<byte>) returns (ret: int, ghost taken: nat, ghost acts: seq<Act>)
    modifies sock`sent, sock`stalls, sock`full, sock`faults
    ensures taken <= |buf| && sock.sent == old(sock.sent) + buf[..taken]
    ensures if taken == |buf| then ret == 0 else ret == -1
    ensures if ret == 0 then Setbacks(sock) == old(Setbacks(sock)) else Setbacks(sock) > old(Setbacks(sock))
    ensures Sends(acts, taken)
  {
    hide Sends;
    var sent := 0;
    acts := [];
    NoMoves();
    while sent < |buf|
      invariant sent <= |buf| && sock.sent == old(sock.sent) + buf[..sent]
      invariant sock.faults == old(sock.faults) && sock.full == old(sock.full)
      invariant Sends(acts, sent)
      decreases |buf| - sent + sock.stalls
    {
      var n, err := sock.Send(buf[sent..]);
      if n > 0 {
        SendMore(old(sock.sent), buf, sent, n);
        OneMoreSend(acts, sent, n);
        sent, acts := sent + n, acts + [Sent(n)];
        continue;
      }
      if n == -1 && err == EINTR { continue; }
      return -1, sent, acts;
    }
    return 0, sent, acts;
  }

  /** `acts` are the moves of a receive loop that got `data`. */
  ghost predicate Receives(acts: seq<Act>, data: seq<byte>) {
    if acts == [] then data == []
    else
      var last := acts[|acts| - 1];
      && last.Received? && 0 < |last.data| <= |data|
      && data[|data| - |last.data|..] == last.data
      && Receives(acts[..|acts| - 1], data[..|data| - |last.data|])
  }

  lemma OneMoreReceive(acts: seq<Act>, data: seq<byte>, next: seq<byte>)
    requires Receives(acts, data) && next != []
    ensures Receives(acts + [Received(next)], data + next)
  {
    assert (acts + [Received(next)])[..|acts|] == acts && (data + next)[..|data|] == data;
  }

  lemma NoMoves()
    ensures Sends([], 0) && Receives([], [])
  {
  }

  /** `recv_exact`: fills the buffer, or reports that time ran out, the stream ended, or a
      call failed. `acts` are its moves. */
  method RecvExact(sock: Socket, buf: array<byte>) returns (ret: int, ghost filled: nat, ghost acts: seq<Act>)
    modifies sock`received, sock`incoming, sock`stalls, sock`dry, sock`ends, sock`faults, buf
    ensures filled <= buf.Length && sock.received == old(sock.received) + buf[..filled]
    ensures if filled == buf.Length then ret == 0 else ret == -1
    ensures if ret == 0 then Setbacks(sock) == old(Setbacks(sock)) else Setbacks(sock) > old(Setbacks(sock))
    ensures Receives(acts, buf[..filled])
  {
    hide Receives;
    var received := 0;
    acts := [];
    NoMoves();
    assert buf[..0] == [];
    while received < buf.Length
      invariant received <= buf.Length
      invariant sock.received == old(sock.received) + buf[..received]
      invariant sock.faults == old(sock.faults) && sock.dry == old(sock.dry) && sock.ends == old(sock.ends)
      invariant Receives(acts, buf[..received])
      decreases buf.Length - received + sock.stalls
    {
      var ready := sock.Wait();
      if !ready { return -1, received, acts; }
      ghost var before := buf[..received];
      var n, data, err := sock.Recv(buf.Length - received);
      if n > 0 {
        forall i | 0 <= i < n { buf[received + i] := data[i]; }
        assert buf[..received + n] == before + data;
        OneMoreReceive(acts, before, data);
        received, acts := received + n, acts + [Received(data)];
        continue;
      }
      if n == 0 { return -1, received, acts; }
      if err == EINTR { continue; }
      return -1, received, acts;
    }
    return 0, received, acts;
  }

  /** The test after it has received `data` of the response. */
  function Got(p: Process, data: seq<byte>): Process
    requires p.AClient?
  {
    p.(client := p.client.(received := p.client.received + data, at := Receiving(data)))
  }

  lemma GotNothing(p: Process)
    requires p.AClient? && p.client.at == Receiving([])
    ensures Got(p, []) == p
  {
    assert p.client.received + [] == p.client.received;
  }

  lemma GotMore(p: Process, data: seq<byte>, next: seq<byte>)
    requires p.AClient? && next != [] && |data + next| <= |p.message|
    ensures Can(Got(p, data), Received(next)) && Do(Got(p, data), Received(next)) == Got(p, data + next)
  {
    assert p.client.received + data + next == p.client.received + (data + next);
  }

  /** The receive loop takes the machine through its moves. */
  lemma {:induction false} ReceiveMoves(p: Process, acts: seq<Act>, data: seq<byte>)
    requires p.AClient? && p.client.at == Receiving([]) && Receives(acts, data) && |data| <= |p.message|
    ensures After(p, acts) == Some(Got(p, data))
    decreases |acts|
  {
    hide After, Can, Do, Got;
    if acts == [] {
      NoActs(p);
      GotNothing(p);
    } else {
      var front, next := acts[..|acts| - 1], acts[|acts| - 1].data;
      var rest := data[..|data| - |next|];
      assert acts == front + [Received(next)] && data == rest + next;
      ReceiveMoves(p, front, rest);
      GotMore(p, rest, next);
      OneMoreAct(p, front, Got(p, rest), Received(next));
    }
  }

  datatype Verdict = Pass | Fail | WrongResponse

  /** Where the machine of the test stands when the test is over. */
  function EndOf(verdict: Verdict): ClientAt {
    match verdict
    case Pass => Passed
    case Fail => Failed
    case WrongResponse => Mismatch
  }

  /** `run_tcp_test`. It passes only if every round came back in full; it reports a wrong
      response only if the peer is no echo, that is, if what came back is not a prefix of
      what was sent; it gives up exactly if the message is too long, something it needs was not
      to be had, or a call on the connection failed or timed out; and it closes what it opens. */
  method RunTcpTest(fds: FdTable, resources: Resources, sock: Socket, message: seq<byte>, count: nat)
    returns (verdict: Verdict)
    requires sock.received == sock.sent == []
    modifies fds`open, fds`denied, resources, sock
    ensures fds.open == old(fds.open)
    ensures verdict == Pass ==> sock.received == sock.sent == Repeat(message, count)
    ensures verdict == WrongResponse ==> !(sock.received <= sock.sent)
    ensures verdict == WrongResponse ==>
              exists i | 0 < i <= count :: sock.sent == Repeat(message, i) && |sock.received| == |sock.sent|
    ensures verdict == Fail <==>
              || |message| > MAX_RESPONSE_SIZE || resources.failures > old(resources.failures)
              || fds.denied > old(fds.denied) || Setbacks(sock) > old(Setbacks(sock))
  {
    if |message| > MAX_RESPONSE_SIZE { return Fail; }
    var haveMemory := resources.Attempt();
    if !haveMemory { return Fail; }
    var response := new byte[|message|];
    var fd := fds.Open();
    if fd == -1 { return Fail; }
    ghost var acts;
    verdict, acts := Rounds(sock, message, count, response);
    fds.Close(fd);
  }

  /** The test as a machine, as its socket shows it. */
  ghost function Machine(message: seq<byte>, count: nat, sock: Socket, round: nat, at: ClientAt): Process
    reads sock`received, sock`sent
  {
    AClient(message, count, Client(sock.sent, sock.received, round, at))
  }

  /** Where a round begins, or the test ends. */
  function Begins(round: nat, count: nat): ClientAt {
    if round == count then Passed else Sending(0)
  }

  /** The request and response loop, which reuses one response buffer. It gives up exactly if a
      call failed; otherwise it passes if and only if what came back is what was sent. Its moves
      are those of the client's machine, and its verdict is where that machine ends. */
  method Rounds(sock: Socket, message: seq<byte>, count: nat, response: array<byte>)
    returns (verdict: Verdict, ghost acts: seq<Act>)
    requires sock.received == sock.sent == [] && response.Length == |message|
    modifies sock, response
    ensures verdict == Pass ==> sock.received == sock.sent == Repeat(message, count)
    ensures verdict == WrongResponse ==> !(sock.received <= sock.sent)
    ensures verdict == WrongResponse ==>
              exists i | 0 < i <= count :: sock.sent == Repeat(message, i) && |sock.received| == |sock.sent|
    ensures verdict == Fail <==> Setbacks(sock) > old(Setbacks(sock))
    ensures Setbacks(sock) == old(Setbacks(sock)) ==> (verdict == Pass <==> sock.received == sock.sent)
    ensures exists round :: After(AClient(message, count, Client([], [], 0, Begins(0, count))), acts)
                         == Some(Machine(message, count, sock, round, EndOf(verdict)))
  {
    hide After, Sends, Receives;
    ghost var start := Machine(message, count, sock, 0, Begins(0, count));
    acts := [];
    NoActs(start);
    for i := 0 to count
      invariant sock.received == sock.sent == Repeat(message, i) && Setbacks(sock) == old(Setbacks(sock))
      invariant After(start, acts) == Some(Machine(message, count, sock, i, Begins(i, count)))
    {
      ghost var taken, filled, moves, now;
      var ret;
      now := Machine(message, count, sock, i, Sending(0));
      ret, taken, moves := SendAll(sock, message);
      SendMoves(now, moves, taken);
      MoreActs(start, acts, now, moves);
      acts, now := acts + moves, Machine(message, count, sock, i, Sending(taken));
      if ret == -1 {
        OneMoreAct(start, acts, now, Ended);
        assert After(start, acts + [Ended]) == Some(Machine(message, count, sock, i, EndOf(Fail)));
        return Fail, acts + [Ended];
      }
      OneMoreAct(start, acts, now, Turned);
      acts, now := acts + [Turned], Machine(message, count, sock, i, Receiving([]));
      assert message[..taken] == message && sock.sent == Repeat(message, i + 1);
      forall k | 0 <= k < response.Length { response[k] := 0; }
      ret, filled, moves := RecvExact(sock, response);
      ReceiveMoves(now, moves, response[..filled]);
      MoreActs(start, acts, now, moves);
      acts, now := acts + moves, Machine(message, count, sock, i, Receiving(response[..filled]));
      if ret == -1 {
        OneMoreAct(start, acts, now, Ended);
        assert After(start, acts + [Ended]) == Some(Machine(message, count, sock, i, EndOf(Fail)));
        return Fail, acts + [Ended];
      }
      OneMoreAct(start, acts, now, Turned);
      acts := acts + [Turned];
      assert response[..filled] == response[..];
      if response[..] != message {
        assert sock.received[|Repeat(message, i)|..] == response[..] && sock.sent[|Repeat(message, i)|..] == message;
        assert After(start, acts) == Some(Machine(message, count, sock, i, EndOf(WrongResponse)));
        return WrongResponse, acts;
      }
    }
    assert After(start, acts) == Some(Machine(message, count, sock, count, EndOf(Pass)));
    return Pass, acts;
  }

  lemma SendMoves(p: Process, acts: seq<Act>, taken: nat)
    requires p.AClient? && p.client.at == Sending(0) && Sends(acts, taken) && taken <= |p.message|
    ensures After(p, acts) ==
            Some(p.(client := p.client.(sent := p.client.sent + p.message[..taken], at := Sending(taken))))
  {
    SendsAdvance(p, acts, taken);
    assert p.message[0..taken] == p.message[..taken];
    if taken == 0 { assert p.client.sent + p.message[..0] == p.client.sent; }
  }
}
