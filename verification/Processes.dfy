/** The three processes of an echo test as machines: the test client, the gateway's relay and
    the target echo server. A move is one system call that got somewhere, or a local step. The
    loops of the three programs are proved to make only such moves, and `EndToEnd` connects
    the machines. */
module Processes {
  import opened Kernel
  import opened Options

  /** One side of the answer of `poll`. */
  datatype Ready = Ready(input: bool, closed: bool)

  datatype PollAnswer = PollFailed(interrupted: bool) | Events(client: Ready, upstream: Ready)

  /** `poll` gave no reason to stop. */
  predicate KeepsGoing(p: PollAnswer) {
    match p
    case PollFailed(interrupted) => interrupted
    case Events(client, upstream) => !client.closed && !upstream.closed
  }

  /** `send` took `n` bytes, `recv` returned `data`, `poll` answered, a local step, an end. */
  datatype Act = Sent(n: nat) | Received(data: seq<byte>) | Polled(answer: PollAnswer) | Turned | Ended

  /** `run_tcp_test`: sending the message (with the count sent), receiving the response
      (with what arrived), or one of its ends. */
  datatype ClientAt = Sending(off: nat) | Receiving(response: seq<byte>) | Passed | Failed | Mismatch

  datatype Client = Client(sent: seq<byte>, received: seq<byte>, round: nat, at: ClientAt)

  /** `relay_tcp_proxy_streams`: in `poll`, or working through its answer `a`. */
  datatype ProxyAt =
    | AtPoll
    | ReceivingUp(a: PollAnswer) | SendingUp(buf: seq<byte>, done: nat, a: PollAnswer)
    | ReceivingDown(a: PollAnswer) | SendingDown(buf: seq<byte>, done: nat, a: PollAnswer)
    | Checking(a: PollAnswer)
    | Closed

  datatype Proxy = Proxy(upIn: seq<byte>, upOut: seq<byte>, downIn: seq<byte>, downOut: seq<byte>, at: ProxyAt)

  /** `handle_tcp_client` of the target, across its calls. */
  datatype TargetAt = Waiting | Echoing(buf: seq<byte>, done: nat) | Gone

  datatype Target = Target(received: seq<byte>, sent: seq<byte>, at: TargetAt)

  datatype Process =
    | AClient(message: seq<byte>, count: nat, client: Client)
    | AProxy(proxy: Proxy)
    | ATarget(target: Target)

  /** Where the relay goes once the client side of a poll answer is dealt with. */
  function AfterUp(a: PollAnswer): ProxyAt {
    if a.Events? && a.upstream.input then ReceivingDown(a) else Checking(a)
  }

  predicate Chunk(data: seq<byte>) {
    0 < |data| <= IO_BUF_SIZE
  }

  predicate ClientCan(message: seq<byte>, c: Client, act: Act) {
    match act
    case Sent(n) => c.at.Sending? && 0 < n && c.at.off + n <= |message|
    case Received(data) => c.at.Receiving? && 0 < |data| && |c.at.response| + |data| <= |message|
    case Turned => (c.at.Sending? && c.at.off == |message|) || (c.at.Receiving? && |c.at.response| == |message|)
    case Ended => c.at.Sending? || c.at.Receiving?
    case Polled(_) => false
  }

  function ClientDo(message: seq<byte>, count: nat, c: Client, act: Act): Client
    requires ClientCan(message, c, act)
  {
    match act
    case Sent(n) => c.(sent := c.sent + message[c.at.off..c.at.off + n], at := Sending(c.at.off + n))
    case Received(data) => c.(received := c.received + data, at := Receiving(c.at.response + data))
    case Turned =>
      if c.at.Sending? then c.(at := Receiving([]))
      else if c.at.response != message then c.(at := Mismatch)
      else if c.round + 1 == count then c.(round := c.round + 1, at := Passed)
      else c.(round := c.round + 1, at := Sending(0))
    case Ended => c.(at := Failed)
  }

  predicate ProxyCan(p: Proxy, act: Act) {
    match act
    case Polled(_) => p.at == AtPoll
    case Received(data) => (p.at.ReceivingUp? || p.at.ReceivingDown?) && Chunk(data)
    case Sent(n) => (p.at.SendingUp? || p.at.SendingDown?) && 0 < n && p.at.done + n <= |p.at.buf|
    case Turned => ((p.at.SendingUp? || p.at.SendingDown?) && p.at.done == |p.at.buf|) || p.at.Checking?
    case Ended => p.at != Closed
  }

  function ProxyDo(p: Proxy, act: Act): Proxy
    requires ProxyCan(p, act)
  {
    match act
    case Polled(a) =>
      if a.PollFailed? then (if a.interrupted then p else p.(at := Closed))
      else if a.client.input then p.(at := ReceivingUp(a)) else p.(at := AfterUp(a))
    case Received(data) =>
      if p.at.ReceivingUp? then p.(upIn := p.upIn + data, at := SendingUp(data, 0, p.at.a))
      else p.(downIn := p.downIn + data, at := SendingDown(data, 0, p.at.a))
    case Sent(n) =>
      var data := p.at.buf[p.at.done..p.at.done + n];
      if p.at.SendingUp? then p.(upOut := p.upOut + data, at := SendingUp(p.at.buf, p.at.done + n, p.at.a))
      else p.(downOut := p.downOut + data, at := SendingDown(p.at.buf, p.at.done + n, p.at.a))
    case Turned =>
      if p.at.SendingUp? then p.(at := AfterUp(p.at.a))
      else if p.at.SendingDown? then p.(at := Checking(p.at.a))
      else p.(at := if KeepsGoing(p.at.a) then AtPoll else Closed)
    case Ended => p.(at := Closed)
  }

  predicate TargetCan(t: Target, act: Act) {
    match act
    case Received(data) => t.at == Waiting && Chunk(data)
    case Sent(n) => t.at.Echoing? && 0 < n && t.at.done + n <= |t.at.buf|
    case Turned => t.at.Echoing? && t.at.done == |t.at.buf|
    case Ended => t.at != Gone
    case Polled(_) => false
  }

  function TargetDo(t: Target, act: Act): Target
    requires TargetCan(t, act)
  {
    match act
    case Received(data) => t.(received := t.received + data, at := Echoing(data, 0))
    case Sent(n) => t.(sent := t.sent + t.at.buf[t.at.done..t.at.done + n], at := Echoing(t.at.buf, t.at.done + n))
    case Turned => t.(at := Waiting)
    case Ended => t.(at := Gone)
  }

  predicate Can(p: Process, act: Act) {
    match p
    case AClient(message, _, c) => ClientCan(message, c, act)
    case AProxy(q) => ProxyCan(q, act)
    case ATarget(t) => TargetCan(t, act)
  }

  function Do(p: Process, act: Act): Process
    requires Can(p, act)
  {
    match p
    case AClient(message, count, c) => AClient(message, count, ClientDo(message, count, c, act))
    case AProxy(q) => AProxy(ProxyDo(q, act))
    case ATarget(t) => ATarget(TargetDo(t, act))
  }

  /** Where the moves lead, if they are possible one after the other. */
  function After(p: Process, acts: seq<Act>): Option<Process> {
    if acts == [] then Some(p)
    else match After(p, acts[..|acts| - 1])
         case None => None
         case Some(q) => if Can(q, acts[|acts| - 1]) then Some(Do(q, acts[|acts| - 1])) else None
  }

  lemma NoActs(p: Process)
    ensures After(p, []) == Some(p)
  {
  }

  lemma OneMoreAct(p: Process, acts: seq<Act>, q: Process, act: Act)
    requires After(p, acts) == Some(q) && Can(q, act)
    ensures After(p, acts + [act]) == Some(Do(q, act))
  {
    assert (acts + [act])[..|acts|] == acts;
  }

  lemma {:induction false} MoreActs(p: Process, xs: seq<Act>, q: Process, ys: seq<Act>)
    requires After(p, xs) == Some(q)
    ensures After(p, xs + ys) == After(q, ys)
    decreases |ys|
  {
    hide Can, Do;
    if ys == [] {
      assert xs + ys == xs;
    } else {
      var n := |ys| - 1;
      MoreActs(p, xs, q, ys[..n]);
      assert (xs + ys)[..|xs + ys| - 1] == xs + ys[..n];
    }
  }

  /** The message, `n` times. */
  function Repeat(message: seq<byte>, n: nat): seq<byte> {
    if n == 0 then [] else Repeat(message, n - 1) + message
  }

  // ---------- sending loops ----------

  /** `acts` are the moves of a send loop that got `k` bytes out. */
  ghost predicate Sends(acts: seq<Act>, k: nat) {
    if acts == [] then k == 0
    else acts[|acts| - 1].Sent? && 0 < acts[|acts| - 1].n <= k && Sends(acts[..|acts| - 1], k - acts[|acts| - 1].n)
  }

  lemma OneMoreSend(acts: seq<Act>, k: nat, n: nat)
    requires Sends(acts, k) && n > 0
    ensures Sends(acts + [Sent(n)], k + n)
  {
    assert (acts + [Sent(n)])[..|acts|] == acts;
  }

  /** How many bytes the process still has to send. */
  function Unsent(p: Process): nat {
    match p
    case AClient(message, _, c) => if c.at.Sending? && c.at.off <= |message| then |message| - c.at.off else 0
    case AProxy(q) =>
      if (q.at.SendingUp? || q.at.SendingDown?) && q.at.done <= |q.at.buf| then |q.at.buf| - q.at.done else 0
    case ATarget(t) => if t.at.Echoing? && t.at.done <= |t.at.buf| then |t.at.buf| - t.at.done else 0
  }

  /** The process after it has sent `k` bytes more. */
  function Advance(p: Process, k: nat): Process
    requires k <= Unsent(p)
  {
    if k == 0 then p else Do(p, Sent(k))
  }

  lemma AdvanceMore(p: Process, k: nat, n: nat)
    requires n > 0 && k + n <= Unsent(p)
    ensures Can(Advance(p, k), Sent(n)) && Do(Advance(p, k), Sent(n)) == Advance(p, k + n)
  {
    match p
    case AClient(message, _, c) => AdvanceClient(p, k, n);
    case AProxy(q) => AdvanceProxy(p, k, n);
    case ATarget(t) => AdvanceTarget(p, k, n);
  }

  lemma AdvanceClient(p: Process, k: nat, n: nat)
    requires p.AClient? && n > 0 && k + n <= Unsent(p)
    ensures Can(Advance(p, k), Sent(n)) && Do(Advance(p, k), Sent(n)) == Advance(p, k + n)
  {
    Joined(p.message, p.client.at.off, k, n, p.client.sent);
  }

  lemma AdvanceProxy(p: Process, k: nat, n: nat)
    requires p.AProxy? && n > 0 && k + n <= Unsent(p)
    ensures Can(Advance(p, k), Sent(n)) && Do(Advance(p, k), Sent(n)) == Advance(p, k + n)
  {
    var q := p.proxy;
    Joined(q.at.buf, q.at.done, k, n, if q.at.SendingUp? then q.upOut else q.downOut);
  }

  lemma AdvanceTarget(p: Process, k: nat, n: nat)
    requires p.ATarget? && n > 0 && k + n <= Unsent(p)
    ensures Can(Advance(p, k), Sent(n)) && Do(Advance(p, k), Sent(n)) == Advance(p, k + n)
  {
    Joined(p.target.at.buf, p.target.at.done, k, n, p.target.sent);
  }

  lemma Joined(buf: seq<byte>, done: nat, k: nat, n: nat, sent: seq<byte>)
    requires done + k + n <= |buf|
    ensures sent + buf[done..done + k] + buf[done + k..done + k + n] == sent + buf[done..done + (k + n)]
  {
    assert buf[done..done + k] + buf[done + k..done + k + n] == buf[done..done + (k + n)];
  }

  lemma {:induction false} SendsAdvance(p: Process, acts: seq<Act>, k: nat)
    requires Sends(acts, k) && k <= Unsent(p)
    ensures After(p, acts) == Some(Advance(p, k))
    decreases |acts|
  {
    hide Can, Do, Unsent, Advance;
    if acts == [] {
      NoAdvance(p);
    } else {
      var front, n := acts[..|acts| - 1], acts[|acts| - 1].n;
      SendsAdvance(p, front, k - n);
      AdvanceMore(p, k - n, n);
      OneMoreAct(p, front, Advance(p, k - n), Sent(n));
      assert acts == front + [Sent(n)];
    }
  }

  lemma NoAdvance(p: Process)
    ensures Advance(p, 0) == p
  {
  }
}
