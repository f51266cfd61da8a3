/** What a worker does with one task: `process_task` and the functions it calls. */
module TaskHandling {
  import opened Kernel
  import opened Options
  import opened Listeners
  import opened TaskQueue
  import opened Processes
  import opened Relay
  import opened ConfigText
  import ConfigSpec
  import Pool = WorkerPool

  /** The target a listener is configured with. */
  function TargetOf(channel: Listener): Endpoint {
    Endpoint(channel.targetIp, channel.targetPort)
  }

  /** `build_proxy_target_addr` accepts it. */
  predicate HasTarget(channel: Listener) {
    IsAddress(channel.targetIp) && 0 < channel.targetPort <= 65535
  }

  /** Every proxy listener the configuration reader accepts has a target. */
  lemma AcceptedProxiesHaveTargets(channel: Listener)
    requires ConfigSpec.WellFormedListener(channel)
    ensures HasTarget(channel) <==> channel.service == Service.Proxy
  {
  }

  /** `connect_tcp_proxy_target`: a descriptor connected to the target; or, when the listener
      has none, no descriptor was to be had, or the connection failed, -1 with nothing left
      open. */
  method ConnectTarget(channel: Listener, fds: FdTable) returns (fd: int)
    modifies fds`open, fds`denied, fds`connected
    ensures if fd == -1 then fds.open == old(fds.open) && fds.connected == old(fds.connected)
            else fd !in old(fds.open) && fd >= 0 && fds.open == old(fds.open) + {fd}
                 && fds.connected == old(fds.connected) + [Link(fd, Endpoint(channel.targetIp, channel.targetPort))]
    ensures fd != -1 ==> HasTarget(channel)
    ensures fds.denied == old(fds.denied) + if fd == -1 && HasTarget(channel) then 1 else 0
  {
    if !HasTarget(channel) { return -1; }
    fd := fds.Open();
    if fd == -1 { return; }
    var connected := fds.Connect(fd, TargetOf(channel));
    if !connected {
      fds.Close(fd);
      return -1;
    }
  }

  /** What becomes of a client whose stream is relayed to the target. Without a target, which has
      a cause, nothing is moved; with one, the two streams are relayed as `end` says, by moves of
      the relay's machine. */
  twostate predicate RelayedClient(channel: Listener, fds: FdTable, client: Socket, upstream: Socket,
                                   polls: seq<PollAnswer>, new end: Option<End>, used: nat, new acts: seq<Act>)
    reads fds, client, upstream
  {
    && Short(client, upstream) && Short(upstream, client)
    && match end
       case None =>
         && (!HasTarget(channel) || fds.denied > old(fds.denied))
         && client.received == upstream.received == [] && fds.connected == old(fds.connected)
       case Some(how) =>
         && Relayed(client, upstream, polls, how, used, acts)
         && ConnectedTo(fds, Endpoint(channel.targetIp, channel.targetPort))
  }

  /** One connection was made, to `target`. */
  twostate predicate ConnectedTo(fds: FdTable, target: Endpoint)
    reads fds
  {
    && |fds.connected| == |old(fds.connected)| + 1 && old(fds.connected) <= fds.connected
    && fds.connected[|old(fds.connected)|].peer == target
  }

  /** `process_tcp_proxy_client`: both descriptors are closed on every path. */
  method ProcessTcpProxyClient(channel: Listener, fds: FdTable, clientFd: int, client: Socket, upstream: Socket,
                               polls: seq<PollAnswer>)
      returns (ghost end: Option<End>, ghost used: nat, ghost acts: seq<Act>)
    requires clientFd in fds.open && client != upstream
    requires client.received == client.sent == upstream.received == upstream.sent == []
    modifies fds`open, fds`denied, fds`connected, client, upstream
    ensures fds.open == old(fds.open) - {clientFd}
    ensures RelayedClient(channel, fds, client, upstream, polls, end, used, acts)
  {
    end, used, acts := None, 0, [];
    var upstreamFd := ConnectTarget(channel, fds);
    if upstreamFd == -1 {
      fds.Close(clientFd);
      return;
    }
    var how;
    how, used, acts := RelayStreams(client, upstream, polls);
    end := Some(how);
    fds.Close(upstreamFd);
    fds.Close(clientFd);
  }

  /** What becomes of a datagram for the target: it goes there over the connected descriptor
      `upstream`, and at most one answer, exactly as the target gave it, goes back to the sender.
      Without an answer there is no target, or something failed: the socket, the connection, the
      sending, the waiting or the receiving. */
  twostate predicate ProxiedPacket(fds: FdTable, net: Network, task: Task,
                                   new reply: Option<Packet>, upstream: int)
    reads fds, net
  {
    var target := Endpoint(task.channel.targetIp, task.channel.targetPort);
    var toTarget := Packet(upstream, target, task.data);
    match reply
    case Some(back) =>
      && back.fd == task.clientFd && back.peer == task.peer && |back.data| <= IO_BUF_SIZE
      && net.attempted == old(net.attempted) + [toTarget, back]
      && net.received == old(net.received) + [Packet(upstream, target, back.data)]
      && toTarget in net.sent && upstream !in fds.open
      && fds.connected == old(fds.connected) + [Link(upstream, target)]
    case None =>
      && net.received == old(net.received)
      && if net.attempted == old(net.attempted) then !HasTarget(task.channel) || fds.denied > old(fds.denied)
         else net.attempted == old(net.attempted) + [toTarget] && Setbacks(net) > old(Setbacks(net))
  }

  /** `process_udp_proxy_packet`, over a socket that is closed on every path. */
  method ProcessUdpProxyPacket(fds: FdTable, net: Network, task: Task)
      returns (reply: Option<Packet>, ghost upstream: int)
    modifies fds`open, fds`denied, fds`connected, net
    ensures fds.open == old(fds.open)
    ensures ProxiedPacket(fds, net, task, reply, upstream)
  {
    reply := None;
    upstream := -1;
    // socket and connection as in `connect_tcp_proxy_target`
    var upstreamFd := ConnectTarget(task.channel, fds);
    if upstreamFd == -1 { return; }
    upstream := upstreamFd;
    var toTarget := Packet(upstreamFd, TargetOf(task.channel), task.data);
    var n, err := net.SendTo(toTarget);
    if n == -1 || n != |task.data| {
      fds.Close(upstreamFd);
      return;
    }
    var readable := net.Wait();
    if !readable {
      fds.Close(upstreamFd);
      return;
    }
    var answer;
    n, answer, err := net.RecvFrom(upstreamFd, Peer(TargetOf(task.channel)), IO_BUF_SIZE);
    if n == -1 {
      fds.Close(upstreamFd);
      return;
    }
    assert answer == Packet(upstream, TargetOf(task.channel), answer.data);
    var back := Packet(task.clientFd, task.peer, answer.data);
    n, err := net.SendTo(back);
    reply := Some(back);
    fds.Close(upstreamFd);
  }

  /** How often a datagram call failed so far, for good or for now. */
  ghost function Setbacks(net: Network): int
    reads net`faults, net`stalls
  {
    net.faults - net.stalls
  }

  /** The blocking echo loop of `process_task`: everything but at most one buffer comes
      back, and everything does when the client has closed. It ends only when the client
      has closed or a call failed. */
  method EchoUntilClosed(sock: Socket) returns (ghost eof: bool)
    requires sock.received == sock.sent
    modifies sock
    ensures sock.sent <= sock.received && |sock.received| <= |sock.sent| + IO_BUF_SIZE
    ensures sock.received + sock.incoming == old(sock.received + sock.incoming)
    ensures eof <==> sock.ends > old(sock.ends)
    ensures eof ==> sock.sent == sock.received
    ensures sock.faults + sock.full + sock.dry == old(sock.faults + sock.full + sock.dry) + if eof then 0 else 1
  {
    while true
      invariant sock.received == sock.sent
      invariant sock.received + sock.incoming == old(sock.received + sock.incoming)
      invariant sock.ends == old(sock.ends) && sock.dry == old(sock.dry)
      invariant sock.faults + sock.full == old(sock.faults + sock.full)
      decreases |sock.incoming| + sock.stalls
    {
      var n, buf, err := sock.Recv(IO_BUF_SIZE);
      if n > 0 {
        ghost var taken, acts;
        var ret;
        ret, taken, acts := SendAllOrClose(sock, buf);
        if ret == -1 { return false; }
        continue;
      }
      if n == 0 { return true; }
      if err == EINTR { continue; }
      return false;
    }
  }

  /** The task as the worker pool knows it. */
  function View(id: nat, task: Task): Pool.Task {
    Pool.Task(id, task.channel, task.clientFd, task.peer, task.data)
  }

  /** `process_task`. A datagram task leaves the descriptors as they were. Echo makes one attempt
      to send the stored datagram to its sender, and nothing else; a proxy sends it to the target
      over `upstreamFd` and the target's answer to the sender, or something failed. Whatever is
      attempted is a reply the pool's machine allows. A client task closes its client and nothing
      else; an echo sends back what came, a proxy relays the two streams as `end` and `acts` say. */
  method ProcessTask(fds: FdTable, net: Network, task: Task,
                     client: Socket, upstream: Socket, polls: seq<PollAnswer>)
      returns (reply: Option<Packet>, ghost upstreamFd: int, ghost end: Option<End>, ghost used: nat,
               ghost acts: seq<Act>)
    requires task.kind == TcpClient ==> task.clientFd in fds.open
    requires client != upstream
    requires client.received == client.sent == upstream.received == upstream.sent == []
    modifies fds`open, fds`denied, fds`connected, net, client, upstream
    ensures task.kind == UdpPacket ==>
              fds.open == old(fds.open) && forall id :: Pool.ReplyAllowed(View(id, task), reply)
    ensures task.kind == UdpPacket ==> unchanged(client) && unchanged(upstream)
    ensures task.kind == UdpPacket && task.channel.service == Echo ==>
              && reply == Some(Packet(task.clientFd, task.peer, task.data))
              && net.attempted == old(net.attempted) + [reply.value] && net.received == old(net.received)
    ensures task.kind == UdpPacket && task.channel.service == Listeners.Proxy ==>
              ProxiedPacket(fds, net, task, reply, upstreamFd)
    ensures task.kind == TcpClient ==>
              && fds.open == old(fds.open) - {task.clientFd} && reply == None
              && net.attempted == old(net.attempted) && net.received == old(net.received)
    ensures task.kind == TcpClient && task.channel.service == Echo ==>
              && client.sent <= client.received && |client.received| <= |client.sent| + IO_BUF_SIZE
              && client.received + client.incoming == old(client.incoming)
              && (if client.ends > old(client.ends) then client.sent == client.received
                  else client.faults + client.full + client.dry > old(client.faults + client.full + client.dry))
    ensures task.kind == TcpClient && task.channel.service == Listeners.Proxy ==>
              RelayedClient(task.channel, fds, client, upstream, polls, end, used, acts)
  {
    reply, upstreamFd, end, used, acts := None, -1, None, 0, [];
    if task.kind == UdpPacket {
      if task.channel.service == Echo {
        var echo := Packet(task.clientFd, task.peer, task.data);
        var n, err := net.SendTo(echo);
        reply := Some(echo);
      } else {
        reply, upstreamFd := ProcessUdpProxyPacket(fds, net, task);
      }
    } else if task.channel.service == Echo {
      var eof := EchoUntilClosed(client);
      fds.Close(task.clientFd);
    } else {
      end, used, acts := ProcessTcpProxyClient(task.channel, fds, task.clientFd, client, upstream, polls);
    }
  }
}
