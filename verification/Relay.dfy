/** The blocking relay between a client and its target, and the handling of one task by a
    worker. */
module Relay {
  import opened Kernel
  import opened Options
  import opened Processes
  import opened Totals

  /** The output side has everything the input side received, in order. */
  ghost predicate Exact(from: Socket, to: Socket)
    reads from, to
  {
    to.sent == from.received
  }

  /** The output is a prefix, and what is missing fits one buffer. */
  ghost predicate Short(from: Socket, to: Socket)
    reads from, to
  {
    to.sent <= from.received && |from.received| <= |to.sent| + IO_BUF_SIZE
  }

  /** `send_all_or_close`. `taken` counts the bytes the socket accepted, `acts` are its moves. */
  method SendAllOrClose(sock: Socket, buf: seq<byte>) returns (ret: int, ghost taken: nat, ghost acts: seq<Act>)
    modifies sock`sent, sock`stalls, sock`full, sock`faults
    ensures sock.stalls <= old(sock.stalls)
    ensures taken <= |buf| && sock.sent == old(sock.sent) + buf[..taken]
    ensures if taken == |buf| then ret == 0 else ret == -1
    ensures sock.faults + sock.full == old(sock.faults + sock.full) + if ret == 0 then 0 else 1
    ensures sock.faults >= old(sock.faults) && sock.full >= old(sock.full)
    ensures Sends(acts, taken)
  {
    hide Sends;
    var sent := 0;
    acts := [];
    NoSends();
    while sent < |buf|
      invariant sent <= |buf| && sock.sent == old(sock.sent) + buf[..sent]
      invariant sock.stalls <= old(sock.stalls) && sock.faults == old(sock.faults) && sock.full == old(sock.full)
      invariant Sends(acts, sent)
      decreases |buf| - sent + sock.stalls
    {
      var n, err := sock.Send(buf[sent..]);
      if n > 0 {
        SendMore(old(sock.sent), buf, sent, n);
        OneMoreSend(acts, sent, n);
        sent, acts := sent + n, acts + [Sent(n)];
        continue;
      }
      if n == -1 && err == EINTR { continue; }
      if n == -1 && err == EAGAIN { return -1, sent, acts; }
      return -1, sent, acts;
    }
    return 0, sent, acts;
  }

  /** What can have gone wrong on two sockets so far. */
  ghost function Trouble(a: Socket, b: Socket): nat
    reads a`faults, a`full, a`dry, b`faults, b`full, b`dry
  {
    a.faults + a.full + a.dry + b.faults + b.full + b.dry
  }

  /** `relay_proxy_data`: one received chunk is passed on completely (1), or the input has
      ended (0), or something failed (-1). `acts` are the moves of its send loop. */
  method RelayProxyData(from: Socket, to: Socket)
    returns (ret: int, ghost chunk: seq<byte>, ghost taken: nat, ghost acts: seq<Act>)
    requires from != to
    modifies from`received, from`incoming, from`stalls, from`dry, from`ends, from`faults
    modifies to`sent, to`stalls, to`full, to`faults
    ensures old(from.incoming) == chunk + from.incoming && |chunk| <= IO_BUF_SIZE && taken <= |chunk|
    ensures from.received == old(from.received) + chunk && to.sent == old(to.sent) + chunk[..taken]
    ensures ret in {-1, 0, 1}
    ensures ret == 1 ==> chunk != [] && taken == |chunk|
    ensures ret == 0 ==> chunk == [] && from.ends > old(from.ends)
    ensures ret == -1 ==> chunk == [] || taken < |chunk|
    ensures Trouble(from, to) == old(Trouble(from, to)) + if ret == -1 then 1 else 0
    ensures from.ends == old(from.ends) + if ret == 0 then 1 else 0
    ensures Sends(acts, taken)
  {
    NoSends();
    while true
      invariant from.incoming == old(from.incoming) && from.received == old(from.received) && to.sent == old(to.sent)
      invariant from.ends == old(from.ends) && Trouble(from, to) == old(Trouble(from, to))
      decreases from.stalls
    {
      var n, buf, err := from.Recv(IO_BUF_SIZE);
      if n > 0 {
        ret, taken, acts := SendAllOrClose(to, buf);
        return if ret == -1 then -1 else 1, buf, taken, acts;
      }
      if n == 0 { return 0, [], 0, []; }
      if err == EINTR { continue; }
      return -1, [], 0, [];
    }
  }

  lemma NoSends()
    ensures Sends([], 0)
  {
  }

  function ClientInput(p: PollAnswer): nat {
    if p.Events? && p.client.input then 1 else 0
  }

  function UpstreamInput(p: PollAnswer): nat {
    if p.Events? && p.upstream.input then 1 else 0
  }

  /** One of the two connections has hung up or is broken. */
  predicate HungUp(p: PollAnswer) {
    p.Events? && (p.client.closed || p.upstream.closed)
  }

  /** How a relay run ended; when the answers of `poll` are used up it waits for the next. */
  datatype End = Returned(ret: int) | Polling

  /** The relay as a machine, as its two sockets show it. */
  ghost function Machine(client: Socket, upstream: Socket, at: ProxyAt): Process
    reads client`received, client`sent, upstream`received, upstream`sent
  {
    AProxy(Proxy(client.received, upstream.sent, upstream.received, client.sent, at))
  }

  /** The moves of one call of `relay_proxy_data`. */
  function CallActs(chunk: seq<byte>, sends: seq<Act>, taken: nat): seq<Act> {
    if chunk == [] then [Ended]
    else [Received(chunk)] + sends + [if taken == |chunk| then Turned else Ended]
  }

  /** They take the machine from receiving to what comes next, or to its end. */
  lemma CallMoves(p: Proxy, chunk: seq<byte>, sends: seq<Act>, taken: nat)
    requires p.at.ReceivingUp? || p.at.ReceivingDown?
    requires |chunk| <= IO_BUF_SIZE && taken <= |chunk| && Sends(sends, taken)
    ensures var passed := chunk != [] && taken == |chunk|;
            After(AProxy(p), CallActs(chunk, sends, taken)) == Some(AProxy(
              if p.at.ReceivingUp?
              then p.(upIn := p.upIn + chunk, upOut := p.upOut + chunk[..taken],
                      at := if passed then AfterUp(p.at.a) else Closed)
              else p.(downIn := p.downIn + chunk, downOut := p.downOut + chunk[..taken],
                      at := if passed then Checking(p.at.a) else Closed)))
  {
    hide After, Sends;
    NoActs(AProxy(p));
    if chunk == [] {
      OneMoreAct(AProxy(p), [], AProxy(p), Ended);
      assert [] + [Ended] == [Ended];
      assert chunk[..taken] == [] && p.upIn + [] == p.upIn && p.upOut + [] == p.upOut;
      assert p.downIn + [] == p.downIn && p.downOut + [] == p.downOut;
    } else {
      OneMoreAct(AProxy(p), [], AProxy(p), Received(chunk));
      assert [] + [Received(chunk)] == [Received(chunk)];
      var q := AProxy(ProxyDo(p, Received(chunk)));
      SendsAdvance(q, sends, taken);
      MoreActs(AProxy(p), [Received(chunk)], q, sends);
      OneMoreAct(AProxy(p), [Received(chunk)] + sends, Advance(q, taken), if taken == |chunk| then Turned else Ended);
      assert chunk[0..taken] == chunk[..taken];
      if taken == 0 { assert p.upOut + chunk[..0] == p.upOut && p.downOut + chunk[..0] == p.downOut; }
    }
  }

  /** `relay_proxy_data` called where the machine receives from the client (`up`) or from the
      target: both make the same moves. */
  method RelaySide(client: Socket, upstream: Socket, up: bool, answer: PollAnswer, ghost start: Process,
                   ghost acts: seq<Act>)
      returns (ret: int, ghost more: seq<Act>)
    requires client != upstream && Exact(client, upstream) && Exact(upstream, client)
    requires After(start, acts) ==
             Some(Machine(client, upstream, if up then ReceivingUp(answer) else ReceivingDown(answer)))
    modifies client, upstream
    ensures client.received + client.incoming == old(client.received + client.incoming)
    ensures upstream.received + upstream.incoming == old(upstream.received + upstream.incoming)
    ensures ret in {-1, 0, 1}
    ensures ret >= 0 ==> Exact(client, upstream) && Exact(upstream, client)
    ensures ret == -1 ==> Short(client, upstream) && Short(upstream, client)
    ensures Exact(client, upstream) || Exact(upstream, client)
    ensures |client.received| >= |old(client.received)| + if up && ret == 1 then 1 else 0
    ensures |upstream.received| >= |old(upstream.received)| + if !up && ret == 1 then 1 else 0
    ensures client.ends + upstream.ends == old(client.ends + upstream.ends) + if ret == 0 then 1 else 0
    ensures Trouble(client, upstream) == old(Trouble(client, upstream)) + if ret == -1 then 1 else 0
    ensures var at := if ret != 1 then Closed else if up then AfterUp(answer) else Checking(answer);
            After(start, more) == Some(Machine(client, upstream, at))
  {
    hide After, Sends, CallActs;
    ghost var now := Machine(client, upstream, if up then ReceivingUp(answer) else ReceivingDown(answer));
    ghost var chunk, taken, sends;
    if up {
      ret, chunk, taken, sends := RelayProxyData(client, upstream);
    } else {
      ret, chunk, taken, sends := RelayProxyData(upstream, client);
    }
    CallMoves(now.proxy, chunk, sends, taken);
    MoreActs(start, acts, now, CallActs(chunk, sends, taken));
    more := acts + CallActs(chunk, sends, taken);
  }

  /** What `relay_tcp_proxy_streams` does with one answer of `poll`; `more` asks for the next.
      It makes the moves `acts` of the relay's machine, and it returns only for a cause. */
  method RelayAnswer(client: Socket, upstream: Socket, answer: PollAnswer)
    returns (more: bool, ret: int, ghost acts: seq<Act>)
    requires client != upstream && Exact(client, upstream) && Exact(upstream, client)
    modifies client, upstream
    ensures client.received + client.incoming == old(client.received + client.incoming)
    ensures upstream.received + upstream.incoming == old(upstream.received + upstream.incoming)
    ensures more || ret == 0 ==> Exact(client, upstream) && Exact(upstream, client)
    ensures !more && ret == -1 ==> Short(client, upstream) && Short(upstream, client)
    ensures Exact(client, upstream) || Exact(upstream, client)
    ensures more ==> KeepsGoing(answer)
    ensures more || (ret == 0 && client.ends + upstream.ends == old(client.ends + upstream.ends)) ==>
              && |client.received| >= |old(client.received)| + ClientInput(answer)
              && |upstream.received| >= |old(upstream.received)| + UpstreamInput(answer)
    ensures !more ==> ret == 0 || ret == -1
    ensures !more && ret == 0 ==> HungUp(answer) || client.ends + upstream.ends > old(client.ends + upstream.ends)
    ensures !more && ret == -1 ==>
              answer == PollFailed(false) || Trouble(client, upstream) > old(Trouble(client, upstream))
    ensures client.ends + upstream.ends >= old(client.ends + upstream.ends)
    ensures Trouble(client, upstream) >= old(Trouble(client, upstream))
    ensures more || ret == -1 ==> client.ends + upstream.ends == old(client.ends + upstream.ends)
    ensures more || ret == 0 ==> Trouble(client, upstream) == old(Trouble(client, upstream))
    ensures After(old(Machine(client, upstream, AtPoll)), acts) ==
            Some(Machine(client, upstream, if more then AtPoll else Closed))
  {
    hide After;
    ghost var start := Machine(client, upstream, AtPoll);
    ghost var now;
    NoActs(start);
    now, acts := Go(start, [], start, Polled(answer));
    if answer.PollFailed? {
      return answer.interrupted, -1, acts;
    }
    if answer.client.input {
      ret, acts := RelaySide(client, upstream, true, answer, start, acts);
      if ret <= 0 { return false, ret, acts; }
    }
    if answer.upstream.input {
      ret, acts := RelaySide(client, upstream, false, answer, start, acts);
      if ret <= 0 { return false, ret, acts; }
    }
    now, acts := Go(start, acts, Machine(client, upstream, Checking(answer)), Turned);
    if answer.client.closed { return false, 0, acts; }
    if answer.upstream.closed { return false, 0, acts; }
    return true, 0, acts;
  }

  /** One move more. */
  ghost method Go(start: Process, acts: seq<Act>, now: Process, act: Act) returns (next: Process, more: seq<Act>)
    requires After(start, acts) == Some(now) && Can(now, act)
    ensures next == Do(now, act) && more == acts + [act] && After(start, more) == Some(next)
  {
    OneMoreAct(start, acts, now, act);
    next, more := Do(now, act), acts + [act];
  }

  /** The relay of two streams over the answers `polls`, of which it has dealt with the first
      `used`. Whenever it polls, and when it returns 0, both directions are exact; a failed send
      leaves exactly one direction short, by at most a buffer. Every input reported ready has
      moved at least a byte, the last one before a hang-up too; it ends only for a cause. Its
      moves are those of the relay's machine. */
  twostate predicate Relayed(client: Socket, upstream: Socket, polls: seq<PollAnswer>, end: End, used: nat,
                             acts: seq<Act>)
    reads client, upstream
  {
    && used <= |polls| && (forall k | 0 <= k < used - 1 :: KeepsGoing(polls[k]))
    && After(old(Machine(client, upstream, AtPoll)), acts) ==
       Some(Machine(client, upstream, if end == Polling then AtPoll else Closed))
    && (end == Polling || end == Returned(0) || end == Returned(-1))
    && (end == Polling ==> used == |polls| && forall p | p in polls :: KeepsGoing(p))
    && (end == Polling || end == Returned(0) ==> Exact(client, upstream) && Exact(upstream, client))
    && (end != Returned(0) ==> client.ends + upstream.ends == old(client.ends + upstream.ends))
    && (end != Returned(-1) ==> Trouble(client, upstream) == old(Trouble(client, upstream)))
    && (end == Returned(-1) ==> Short(client, upstream) && Short(upstream, client))
    && (end == Returned(0) ==>
          || client.ends + upstream.ends > old(client.ends + upstream.ends)
          || (used > 0 && HungUp(polls[used - 1])))
    && (end == Polling || (end == Returned(0) && client.ends + upstream.ends == old(client.ends + upstream.ends)) ==>
          && |client.received| >= |old(client.received)| + Total(polls[..used], ClientInput)
          && |upstream.received| >= |old(upstream.received)| + Total(polls[..used], UpstreamInput))
    && (end == Returned(-1) ==>
          || Trouble(client, upstream) > old(Trouble(client, upstream))
          || (used > 0 && polls[used - 1] == PollFailed(false)))
  }

  /** `relay_tcp_proxy_streams`, for a run in which `poll` gives the answers `polls`. */
  method RelayStreams(client: Socket, upstream: Socket, polls: seq<PollAnswer>)
    returns (end: End, ghost used: nat, ghost acts: seq<Act>)
    requires client != upstream && Exact(client, upstream) && Exact(upstream, client)
    modifies client, upstream
    ensures client.received + client.incoming == old(client.received + client.incoming)
    ensures upstream.received + upstream.incoming == old(upstream.received + upstream.incoming)
    ensures Exact(client, upstream) || Exact(upstream, client)
    ensures Relayed(client, upstream, polls, end, used, acts)
  {
    hide Total, After, KeepsGoing, HungUp;
    NoPolls(polls);
    acts := [];
    NoActs(Machine(client, upstream, AtPoll));
    for i := 0 to |polls|
      invariant Exact(client, upstream) && Exact(upstream, client)
      invariant client.received + client.incoming == old(client.received + client.incoming)
      invariant upstream.received + upstream.incoming == old(upstream.received + upstream.incoming)
      invariant forall k | 0 <= k < i :: KeepsGoing(polls[k])
      invariant |client.received| >= |old(client.received)| + Total(polls[..i], ClientInput)
      invariant |upstream.received| >= |old(upstream.received)| + Total(polls[..i], UpstreamInput)
      invariant client.ends + upstream.ends == old(client.ends + upstream.ends)
      invariant Trouble(client, upstream) == old(Trouble(client, upstream))
      invariant After(old(Machine(client, upstream, AtPoll)), acts) == Some(Machine(client, upstream, AtPoll))
    {
      OnePollMore(polls, i);
      ghost var now := Machine(client, upstream, AtPoll);
      var more, ret;
      ghost var moves;
      more, ret, moves := RelayAnswer(client, upstream, polls[i]);
      MoreActs(old(Machine(client, upstream, AtPoll)), acts, now, moves);
      acts := acts + moves;
      if !more { return Returned(ret), i + 1, acts; }
    }
    return Polling, |polls|, acts;
  }

  lemma NoPolls(polls: seq<PollAnswer>)
    ensures Total(polls[..0], ClientInput) == Total(polls[..0], UpstreamInput) == 0
    ensures polls[..|polls|] == polls
  {
  }

  lemma OnePollMore(polls: seq<PollAnswer>, i: nat)
    requires i < |polls|
    ensures Total(polls[..i + 1], ClientInput) == Total(polls[..i], ClientInput) + ClientInput(polls[i])
    ensures Total(polls[..i + 1], UpstreamInput) == Total(polls[..i], UpstreamInput) + UpstreamInput(polls[i])
  {
    assert polls[..i + 1] == polls[..i] + [polls[i]];
    TotalAppend(polls[..i], polls[i], ClientInput);
    TotalAppend(polls[..i], polls[i], UpstreamInput);
  }
}
