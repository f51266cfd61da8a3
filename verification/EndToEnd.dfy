/** The test client, the gateway's relay and the target echo server, connected by two streams
    that deliver in order (section 3.4 of RFC 9293), as one step machine. Any process may make
    its next move at any time; its moves are those of its machine in `Processes`, and what it
    receives is what the process at the other end has sent. */
module EndToEnd {
  import opened Kernel
  import opened Options
  import opened Processes
  import EchoTest

  datatype World = World(message: seq<byte>, count: nat, client: Client, proxy: Proxy, target: Target)

  datatype Who = TheClient | TheProxy | TheTarget

  datatype Step = Step(who: Who, act: Act)

  function ProcessOf(w: World, who: Who): Process {
    match who
    case TheClient => AClient(w.message, w.count, w.client)
    case TheProxy => AProxy(w.proxy)
    case TheTarget => ATarget(w.target)
  }

  /** What was sent and not yet received. */
  function InFlight(sent: seq<byte>, received: seq<byte>): seq<byte> {
    if |received| <= |sent| then sent[|received|..] else []
  }

  /** What the next `recv` of a process can return a piece of. */
  function Arriving(w: World, who: Who): seq<byte> {
    match who
    case TheClient => InFlight(w.proxy.downOut, w.client.received)
    case TheProxy =>
      if w.proxy.at.ReceivingUp? then InFlight(w.client.sent, w.proxy.upIn)
      else InFlight(w.target.sent, w.proxy.downIn)
    case TheTarget => InFlight(w.proxy.upOut, w.target.received)
  }

  predicate Enabled(w: World, step: Step) {
    && Can(ProcessOf(w, step.who), step.act)
    && (step.act.Received? ==> step.act.data <= Arriving(w, step.who))
  }

  function Apply(w: World, step: Step): World
    requires Enabled(w, step)
  {
    match step.who
    case TheClient => w.(client := ClientDo(w.message, w.count, w.client, step.act))
    case TheProxy => w.(proxy := ProxyDo(w.proxy, step.act))
    case TheTarget => w.(target := TargetDo(w.target, step.act))
  }

  function Start(message: seq<byte>, count: nat): World {
    World(message, count,
          Client([], [], 0, EchoTest.Begins(0, count)),
          Proxy([], [], [], [], AtPoll),
          Target([], [], Waiting))
  }

  ghost predicate Run(w: World, steps: seq<Step>, v: World)
    decreases |steps|
  {
    if steps == [] then w == v else Enabled(w, steps[0]) && Run(Apply(w, steps[0]), steps[1..], v)
  }

  // ---------- the invariant ----------

  /** Where the client is in its test determines what it has sent, and as long as it is not
      waiting, what it has received. */
  ghost predicate ClientOk(w: World) {
    var c := w.client;
    match c.at
    case Sending(off) =>
      && off <= |w.message|
      && c.sent == Repeat(w.message, c.round) + w.message[..off]
      && c.received == Repeat(w.message, c.round)
    case Receiving(response) =>
      && |response| <= |w.message|
      && c.sent == Repeat(w.message, c.round + 1)
      && c.received == Repeat(w.message, c.round) + response
    case Passed => c.round == w.count && c.sent == c.received == Repeat(w.message, w.count)
    case Failed => true
    case Mismatch => false
  }

  /** A stage keeps its streams: what it received is what it sent, then what it holds. */
  ghost predicate Passes(received: seq<byte>, sent: seq<byte>, holding: seq<byte>) {
    received == sent + holding && |holding| <= IO_BUF_SIZE
  }

  function HeldUp(at: ProxyAt): seq<byte> {
    if at.SendingUp? && at.done <= |at.buf| then at.buf[at.done..] else []
  }

  function HeldDown(at: ProxyAt): seq<byte> {
    if at.SendingDown? && at.done <= |at.buf| then at.buf[at.done..] else []
  }

  function HeldByTarget(at: TargetAt): seq<byte> {
    if at.Echoing? && at.done <= |at.buf| then at.buf[at.done..] else []
  }

  ghost predicate Lost(received: seq<byte>, sent: seq<byte>) {
    exists holding :: Passes(received, sent, holding)
  }

  ghost predicate ProxyOk(p: Proxy) {
    if p.at == Closed then Lost(p.upIn, p.upOut) && Lost(p.downIn, p.downOut)
    else Passes(p.upIn, p.upOut, HeldUp(p.at)) && Passes(p.downIn, p.downOut, HeldDown(p.at))
  }

  ghost predicate TargetOk(t: Target) {
    if t.at == Gone then Lost(t.received, t.sent) else Passes(t.received, t.sent, HeldByTarget(t.at))
  }

  /** Each reader has a prefix of what the writer at the other end of its stream wrote. */
  ghost predicate Delivered(w: World) {
    && w.proxy.upIn <= w.client.sent && w.target.received <= w.proxy.upOut
    && w.proxy.downIn <= w.target.sent && w.client.received <= w.proxy.downOut
  }

  ghost predicate Inv(w: World) {
    ClientOk(w) && ProxyOk(w.proxy) && TargetOk(w.target) && Delivered(w)
  }

  /** The client has received a prefix of what it sent: the streams and stages in between
      are composed. */
  lemma ReceivedIsPrefixOfSent(w: World)
    requires ProxyOk(w.proxy) && TargetOk(w.target) && Delivered(w)
    ensures w.client.received <= w.client.sent
  {
    StageIsPrefix(w.proxy.upIn, w.proxy.upOut);
    StageIsPrefix(w.proxy.downIn, w.proxy.downOut);
    StageIsPrefix(w.target.received, w.target.sent);
    assert w.client.received <= w.proxy.downOut <= w.proxy.downIn;
    assert w.client.received <= w.target.sent <= w.target.received;
    assert w.client.received <= w.proxy.upOut <= w.proxy.upIn;
  }

  lemma StageIsPrefix(received: seq<byte>, sent: seq<byte>)
    requires Lost(received, sent)
    ensures sent <= received
  {
  }

  // ---------- every step keeps it ----------

  /** A partial send moves bytes from what is held to what is sent. */
  lemma SentFromHeld(received: seq<byte>, sent: seq<byte>, buf: seq<byte>, done: nat, n: nat)
    requires done + n <= |buf| && Passes(received, sent, buf[done..])
    ensures Passes(received, sent + buf[done..done + n], buf[done + n..])
  {
    assert buf[done..] == buf[done..done + n] + buf[done + n..];
  }

  /** A stage that ends or fills its buffer anew. */
  lemma Refilled(received: seq<byte>, sent: seq<byte>, data: seq<byte>)
    requires Passes(received, sent, []) && |data| <= IO_BUF_SIZE
    ensures Passes(received + data, sent, data[0..])
  {
  }

  lemma MoveKeepsProxy(p: Proxy, act: Act)
    requires ProxyCan(p, act) && ProxyOk(p)
    ensures ProxyOk(ProxyDo(p, act))
  {
    match act
    case Received(data) =>
      if p.at.ReceivingUp? { Refilled(p.upIn, p.upOut, data); } else { Refilled(p.downIn, p.downOut, data); }
    case Sent(n) =>
      if p.at.SendingUp? { SentFromHeld(p.upIn, p.upOut, p.at.buf, p.at.done, n); }
      else { SentFromHeld(p.downIn, p.downOut, p.at.buf, p.at.done, n); }
    case _ =>
  }

  lemma MoveKeepsTarget(t: Target, act: Act)
    requires TargetCan(t, act) && TargetOk(t)
    ensures TargetOk(TargetDo(t, act))
  {
    match act
    case Received(data) => Refilled(t.received, t.sent, data);
    case Sent(n) => SentFromHeld(t.received, t.sent, t.at.buf, t.at.done, n);
    case _ =>
  }

  /** Reading in order keeps what was read a prefix of what was written. */
  lemma NextIsPrefix(sent: seq<byte>, received: seq<byte>, data: seq<byte>)
    requires received <= sent && data <= InFlight(sent, received)
    ensures received + data <= sent
  {
    assert sent == received + InFlight(sent, received);
  }

  lemma StepKeepsDelivered(w: World, step: Step)
    requires Enabled(w, step) && Delivered(w)
    ensures Delivered(Apply(w, step))
  {
    var c, p, t := w.client, w.proxy, w.target;
    var v := Apply(w, step);
    assert c.sent <= v.client.sent && p.upOut <= v.proxy.upOut;
    assert p.downOut <= v.proxy.downOut && t.sent <= v.target.sent;
    if step.act.Received? {
      match step.who
      case TheClient => NextIsPrefix(p.downOut, c.received, step.act.data);
      case TheProxy =>
        if p.at.ReceivingUp? {
          NextIsPrefix(c.sent, p.upIn, step.act.data);
        } else {
          NextIsPrefix(t.sent, p.downIn, step.act.data);
        }
      case TheTarget => NextIsPrefix(p.upOut, t.received, step.act.data);
    }
  }

  /** The response of a round can only be the message. */
  lemma ResponseIsMessage(w: World)
    requires Inv(w) && w.client.at.Receiving? && |w.client.at.response| == |w.message|
    ensures w.client.at.response == w.message
  {
    ReceivedIsPrefixOfSent(w);
    var before := Repeat(w.message, w.client.round);
    assert w.client.sent == before + w.message && w.client.received == before + w.client.at.response;
    assert w.client.received[|before|..] == w.client.at.response && w.client.sent[|before|..] == w.message;
  }

  lemma StepKeepsClient(w: World, step: Step)
    requires Enabled(w, step) && Inv(w)
    ensures ClientOk(Apply(w, step))
  {
    hide ProxyOk, TargetOk, ProxyDo, TargetDo;
    var c := w.client;
    if step.who == TheClient {
      match step.act
      case Sent(n) =>
        assert w.message[..c.at.off] + w.message[c.at.off..c.at.off + n] == w.message[..c.at.off + n];
      case Turned =>
        if c.at.Receiving? {
          ResponseIsMessage(w);
          assert w.message[..0] == [];
        } else {
          assert w.message[..c.at.off] == w.message;
        }
      case _ =>
    }
  }

  lemma StepKeepsInv(w: World, step: Step)
    requires Enabled(w, step) && Inv(w)
    ensures Inv(Apply(w, step))
  {
    hide ClientOk, ProxyOk, TargetOk, Delivered, ClientDo, ProxyDo, TargetDo;
    StepKeepsDelivered(w, step);
    StepKeepsClient(w, step);
    if step.who == TheProxy { MoveKeepsProxy(w.proxy, step.act); }
    if step.who == TheTarget { MoveKeepsTarget(w.target, step.act); }
  }

  lemma {:induction false} RunKeepsInv(w: World, steps: seq<Step>, v: World)
    requires Inv(w) && Run(w, steps, v)
    ensures Inv(v) && v.message == w.message && v.count == w.count
    decreases |steps|
  {
    hide Inv, Enabled, ClientDo, ProxyDo, TargetDo;
    if steps != [] {
      StepKeepsInv(w, steps[0]);
      RunKeepsInv(Apply(w, steps[0]), steps[1..], v);
    }
  }

  /** End-to-end echo. Under any schedule and any split of reads and writes, what the client
      has received is a prefix of what it has sent; it may fail to get an answer, but it
      never sees a wrong one; and when it passes, every round was echoed in full. */
  lemma EchoThroughProxy(message: seq<byte>, count: nat, steps: seq<Step>, w: World)
    requires Run(Start(message, count), steps, w)
    ensures w.client.received <= w.client.sent
    ensures w.client.at != Mismatch
    ensures w.client.at == Passed ==> w.client.received == w.client.sent == Repeat(message, count)
  {
    assert Inv(Start(message, count)) by { assert message[..0] == []; }
    RunKeepsInv(Start(message, count), steps, w);
    ReceivedIsPrefixOfSent(w);
  }

  /** At most one buffer is missing at each stage, at any time. */
  lemma StagesLoseAtMostABuffer(message: seq<byte>, count: nat, steps: seq<Step>, w: World)
    requires Run(Start(message, count), steps, w)
    ensures w.proxy.upOut <= w.proxy.upIn && |w.proxy.upIn| <= |w.proxy.upOut| + IO_BUF_SIZE
    ensures w.proxy.downOut <= w.proxy.downIn && |w.proxy.downIn| <= |w.proxy.downOut| + IO_BUF_SIZE
    ensures w.target.sent <= w.target.received && |w.target.received| <= |w.target.sent| + IO_BUF_SIZE
    ensures w.proxy.at == AtPoll ==> w.proxy.upOut == w.proxy.upIn && w.proxy.downOut == w.proxy.downIn
  {
    assert Inv(Start(message, count)) by { assert message[..0] == []; }
    RunKeepsInv(Start(message, count), steps, w);
  }

  // ---------- the programs in this world ----------

  /** The moves one process makes in a run. */
  function ActsOf(steps: seq<Step>, who: Who): seq<Act> {
    if steps == [] then [] else (if steps[0].who == who then [steps[0].act] else []) + ActsOf(steps[1..], who)
  }

  /** In every run each process makes a run of its own machine. */
  lemma {:induction false} RunOfEach(w: World, steps: seq<Step>, v: World, who: Who)
    requires Run(w, steps, v)
    ensures After(ProcessOf(w, who), ActsOf(steps, who)) == Some(ProcessOf(v, who))
    decreases |steps|
  {
    hide After, Can, ClientDo, ProxyDo, TargetDo;
    if steps == [] {
      NoActs(ProcessOf(w, who));
    } else {
      var next := Apply(w, steps[0]);
      RunOfEach(next, steps[1..], v, who);
      if steps[0].who == who {
        var act := steps[0].act;
        NoActs(ProcessOf(w, who));
        OneMoreAct(ProcessOf(w, who), [], ProcessOf(w, who), act);
        assert [] + [act] == [act];
        MoreActs(ProcessOf(w, who), [act], ProcessOf(next, who), ActsOf(steps[1..], who));
      } else {
        assert [] + ActsOf(steps[1..], who) == ActsOf(steps[1..], who);
      }
    }
  }

  /** The test program in this world. `EchoTest.Rounds` reports the moves it made, and where
      they take its machine; if they are the client's moves in some run, then its verdict is
      not a wrong response, and what it has received is a prefix of what it has sent. */
  lemma TestNeverReportsMismatch(message: seq<byte>, count: nat, steps: seq<Step>, w: World,
                                 acts: seq<Act>, verdict: EchoTest.Verdict, sent: seq<byte>,
                                 received: seq<byte>, round: nat)
    requires Run(Start(message, count), steps, w) && ActsOf(steps, TheClient) == acts
    requires After(AClient(message, count, Client([], [], 0, EchoTest.Begins(0, count))), acts)
          == Some(AClient(message, count, Client(sent, received, round, EchoTest.EndOf(verdict))))
    ensures verdict != EchoTest.WrongResponse && received <= sent
  {
    RunOfEach(Start(message, count), steps, w, TheClient);
    EchoThroughProxy(message, count, steps, w);
  }
}
