/** The test can always be completed: as long as no process gives up and `poll` tells the truth,
    client, relay and target never block each other, and from every state they can reach some
    schedule takes the client to its end. */
module EchoCompletes {
  import opened Kernel
  import opened Processes
  import opened EndToEnd

  // ---------- honest runs ----------

  /** What waits for the relay at its two sockets. */
  function WaitingUp(w: World): seq<byte> {
    InFlight(w.client.sent, w.proxy.upIn)
  }

  function WaitingDown(w: World): seq<byte> {
    InFlight(w.target.sent, w.proxy.downIn)
  }

  /** `poll` was interrupted, or it reports input exactly where bytes wait, and nothing else. */
  predicate Truthful(w: World, a: PollAnswer) {
    match a
    case PollFailed(interrupted) => interrupted
    case Events(client, upstream) =>
      && !client.closed && !upstream.closed
      && (client.input <==> WaitingUp(w) != []) && (upstream.input <==> WaitingDown(w) != [])
  }

  /** A step with which nobody gives up. */
  predicate Honest(w: World, step: Step) {
    && Enabled(w, step) && step.act != Ended
    && (step.act.Polled? ==> Truthful(w, step.act.answer))
  }

  ghost predicate HonestRun(w: World, steps: seq<Step>, v: World)
    decreases |steps|
  {
    if steps == [] then w == v else Honest(w, steps[0]) && HonestRun(Apply(w, steps[0]), steps[1..], v)
  }

  // ---------- what honest runs keep ----------

  /** The relay has not given up, and it receives only where bytes wait. */
  predicate RelayReady(w: World) {
    var up, down := WaitingUp(w), WaitingDown(w);
    match w.proxy.at
    case AtPoll => true
    case ReceivingUp(a) => up != [] && KeepsGoing(a) && (a.Events? && a.upstream.input ==> down != [])
    case SendingUp(buf, done, a) => done <= |buf| && KeepsGoing(a) && (a.Events? && a.upstream.input ==> down != [])
    case ReceivingDown(a) => down != [] && KeepsGoing(a)
    case SendingDown(buf, done, a) => done <= |buf| && KeepsGoing(a)
    case Checking(a) => KeepsGoing(a)
    case Closed => false
  }

  predicate TargetReady(t: Target) {
    t.at == Waiting || (t.at.Echoing? && t.at.done <= |t.at.buf|)
  }

  predicate ClientReady(w: World) {
    w.client.at == Passed || ((w.client.at.Sending? || w.client.at.Receiving?) && w.client.round < w.count)
  }

  ghost predicate Ready(w: World) {
    Inv(w) && RelayReady(w) && TargetReady(w.target) && ClientReady(w)
  }

  lemma WaitingGrows(sent: seq<byte>, more: seq<byte>, received: seq<byte>)
    requires InFlight(sent, received) != []
    ensures InFlight(sent + more, received) != []
  {
  }

  lemma ClientStepKeepsReady(w: World, act: Act)
    requires Ready(w) && Honest(w, Step(TheClient, act))
    ensures RelayReady(Apply(w, Step(TheClient, act))) && ClientReady(Apply(w, Step(TheClient, act)))
  {
    hide Inv;
    var v := Apply(w, Step(TheClient, act));
    if act.Sent? && WaitingUp(w) != [] {
      WaitingGrows(w.client.sent, w.message[w.client.at.off..w.client.at.off + act.n], w.proxy.upIn);
    }
    if act == Turned && w.client.at.Receiving? {
      assert Inv(v) by { StepKeepsInv(w, Step(TheClient, act)); }
      NoMismatch(v);
    }
  }

  lemma NoMismatch(w: World)
    requires Inv(w)
    ensures w.client.at != Mismatch
  {
  }

  lemma RelayStepKeepsReady(w: World, act: Act)
    requires Ready(w) && Honest(w, Step(TheProxy, act))
    ensures RelayReady(Apply(w, Step(TheProxy, act)))
  {
    hide Inv;
  }

  lemma TargetStepKeepsReady(w: World, act: Act)
    requires Ready(w) && Honest(w, Step(TheTarget, act))
    ensures RelayReady(Apply(w, Step(TheTarget, act))) && TargetReady(TargetDo(w.target, act))
  {
    hide Inv;
    if act.Sent? && WaitingDown(w) != [] {
      WaitingGrows(w.target.sent, w.target.at.buf[w.target.at.done..w.target.at.done + act.n], w.proxy.downIn);
    }
  }

  lemma HonestStepKeepsReady(w: World, step: Step)
    requires Ready(w) && Honest(w, step)
    ensures Ready(Apply(w, step))
  {
    StepKeepsInv(w, step);
    hide Inv, RelayReady;
    match step.who
    case TheClient => ClientStepKeepsReady(w, step.act);
    case TheProxy => RelayStepKeepsReady(w, step.act);
    case TheTarget => TargetStepKeepsReady(w, step.act);
  }

  lemma {:induction false} HonestRunKeepsReady(w: World, steps: seq<Step>, v: World)
    requires Ready(w) && HonestRun(w, steps, v)
    ensures Ready(v) && v.message == w.message && v.count == w.count
    decreases |steps|
  {
    hide Ready, Enabled, Truthful, ClientDo, ProxyDo, TargetDo;
    if steps != [] {
      HonestStepKeepsReady(w, steps[0]);
      HonestRunKeepsReady(Apply(w, steps[0]), steps[1..], v);
    }
  }

  // ---------- how far the test is from its end ----------

  /** Bytes that have passed each of the eight ends of the streams. */
  function Passages(w: World): nat {
    |w.client.sent| + |w.proxy.upIn| + |w.proxy.upOut| + |w.target.received|
    + |w.target.sent| + |w.proxy.downIn| + |w.proxy.downOut| + |w.client.received|
  }

  function AllPassages(w: World): nat {
    8 * |Repeat(w.message, w.count)|
  }

  function BytesLeft(w: World): nat {
    if Passages(w) <= AllPassages(w) then AllPassages(w) - Passages(w) else 0
  }

  function TurnsLeft(w: World): nat {
    (if w.client.round <= w.count then 2 * (w.count - w.client.round) else 0) + if w.client.at.Sending? then 1 else 0
  }

  function Rank(w: World): nat {
    (match w.proxy.at
     case SendingUp(_, _, _) => 6
     case SendingDown(_, _, _) => 5
     case Checking(_) => 4
     case AtPoll => 3
     case ReceivingUp(_) => 2
     case ReceivingDown(_) => 1
     case Closed => 0)
    + if w.target.at.Echoing? then 1 else 0
  }

  lemma {:induction false} RepeatGrows(message: seq<byte>, i: nat, n: nat)
    requires i <= n
    ensures |Repeat(message, i)| <= |Repeat(message, n)|
  {
    if i < n { RepeatGrows(message, i, n - 1); }
  }

  /** Nothing passes more often than the client sends it. */
  lemma PassagesBounded(w: World)
    requires Ready(w)
    ensures Passages(w) <= AllPassages(w)
  {
    ReceivedIsPrefixOfSent(w);
    StageIsPrefix(w.proxy.upIn, w.proxy.upOut);
    StageIsPrefix(w.proxy.downIn, w.proxy.downOut);
    StageIsPrefix(w.target.received, w.target.sent);
    if w.client.at != Passed { RepeatGrows(w.message, w.client.round + 1, w.count); }
    assert |w.client.sent| <= |Repeat(w.message, w.count)|;
  }

  /** A step that brings the end nearer. */
  predicate Nearer(w: World, v: World) {
    || BytesLeft(v) < BytesLeft(w)
    || (BytesLeft(v) == BytesLeft(w) && TurnsLeft(v) < TurnsLeft(w))
    || (BytesLeft(v) == BytesLeft(w) && TurnsLeft(v) == TurnsLeft(w) && Rank(v) < Rank(w))
  }

  lemma MorePassages(w: World, step: Step)
    requires Ready(w) && Honest(w, step) && Passages(Apply(w, step)) > Passages(w)
    ensures Nearer(w, Apply(w, step))
  {
    HonestStepKeepsReady(w, step);
    PassagesBounded(w);
    PassagesBounded(Apply(w, step));
  }

  // ---------- there is always such a step ----------

  function Least(a: nat, b: nat): nat {
    if a < b then a else b
  }

  /** The client has something to do. */
  predicate ClientCanMove(w: World) {
    || w.client.at.Sending?
    || (w.client.at.Receiving? && (|w.client.at.response| == |w.message| || Arriving(w, TheClient) != []))
  }

  lemma ClientMoves(w: World) returns (step: Step)
    requires Ready(w) && ClientCanMove(w)
    ensures Honest(w, step) && Nearer(w, Apply(w, step))
  {
    var c := w.client;
    if c.at.Sending? && c.at.off < |w.message| {
      step := Step(TheClient, Sent(|w.message| - c.at.off));
      MorePassages(w, step);
    } else if c.at.Sending? || |c.at.response| == |w.message| {
      step := Step(TheClient, Turned);
      if c.at.Receiving? { ResponseIsMessage(w); }
    } else {
      var data := Arriving(w, TheClient);
      step := Step(TheClient, Received(data[..Least(|data|, |w.message| - |c.at.response|)]));
      MorePassages(w, step);
    }
  }

  predicate TargetCanMove(w: World) {
    w.target.at.Echoing? || (w.target.at == Waiting && Arriving(w, TheTarget) != [])
  }

  lemma TargetMoves(w: World) returns (step: Step)
    requires Ready(w) && TargetCanMove(w)
    ensures Honest(w, step) && Nearer(w, Apply(w, step))
  {
    var t := w.target;
    if t.at == Waiting {
      var data := Arriving(w, TheTarget);
      step := Step(TheTarget, Received(data[..Least(|data|, IO_BUF_SIZE)]));
      MorePassages(w, step);
    } else if t.at.done < |t.at.buf| {
      step := Step(TheTarget, Sent(|t.at.buf| - t.at.done));
      MorePassages(w, step);
    } else {
      step := Step(TheTarget, Turned);
    }
  }

  predicate RelayCanMove(w: World) {
    w.proxy.at != AtPoll || WaitingUp(w) != [] || WaitingDown(w) != []
  }

  lemma RelayMoves(w: World) returns (step: Step)
    requires Ready(w) && RelayCanMove(w)
    ensures Honest(w, step) && Nearer(w, Apply(w, step))
  {
    var p := w.proxy;
    if p.at == AtPoll {
      var up, down := Processes.Ready(WaitingUp(w) != [], false), Processes.Ready(WaitingDown(w) != [], false);
      step := Step(TheProxy, Polled(Events(up, down)));
    } else if p.at.ReceivingUp? || p.at.ReceivingDown? {
      var data := Arriving(w, TheProxy);
      step := Step(TheProxy, Received(data[..Least(|data|, IO_BUF_SIZE)]));
      MorePassages(w, step);
    } else if (p.at.SendingUp? || p.at.SendingDown?) && p.at.done < |p.at.buf| {
      step := Step(TheProxy, Sent(|p.at.buf| - p.at.done));
      MorePassages(w, step);
    } else {
      step := Step(TheProxy, Turned);
    }
  }

  lemma NothingInFlight(sent: seq<byte>, received: seq<byte>)
    requires received <= sent && InFlight(sent, received) == []
    ensures received == sent
  {
  }

  /** When nothing is on its way, everything sent has come back, so the response is complete. */
  lemma NothingOnItsWay(w: World)
    requires Inv(w) && w.client.at.Receiving? && w.target.at == Waiting && w.proxy.at == AtPoll
    requires WaitingUp(w) == WaitingDown(w) == Arriving(w, TheTarget) == Arriving(w, TheClient) == []
    ensures |w.client.at.response| == |w.message|
  {
    NothingInFlight(w.client.sent, w.proxy.upIn);
    NothingInFlight(w.proxy.upOut, w.target.received);
    NothingInFlight(w.target.sent, w.proxy.downIn);
    NothingInFlight(w.proxy.downOut, w.client.received);
    assert w.client.received == w.client.sent;
    var before := Repeat(w.message, w.client.round);
    assert |before + w.message| == |before + w.client.at.response|;
  }

  lemma SomebodyCanMove(w: World)
    requires Ready(w) && w.client.at != Passed
    ensures ClientCanMove(w) || TargetCanMove(w) || RelayCanMove(w)
  {
    hide Inv;
    if && w.client.at.Receiving? && w.target.at == Waiting && w.proxy.at == AtPoll
       && WaitingUp(w) == WaitingDown(w) == Arriving(w, TheTarget) == Arriving(w, TheClient) == [] {
      NothingOnItsWay(w);
    }
  }

  lemma NextStep(w: World) returns (step: Step)
    requires Ready(w) && w.client.at != Passed
    ensures Honest(w, step) && Nearer(w, Apply(w, step))
  {
    hide Ready, ClientCanMove, TargetCanMove, RelayCanMove, Honest, Nearer;
    SomebodyCanMove(w);
    if ClientCanMove(w) {
      step := ClientMoves(w);
    } else if TargetCanMove(w) {
      step := TargetMoves(w);
    } else {
      step := RelayMoves(w);
    }
  }

  /** From every such state some schedule takes the client to its end. */
  lemma {:induction false} Completion(w: World) returns (steps: seq<Step>, v: World)
    requires Ready(w)
    ensures HonestRun(w, steps, v) && v.client.at == Passed
    decreases BytesLeft(w), TurnsLeft(w), Rank(w)
  {
    hide Ready, Enabled, Truthful, BytesLeft, TurnsLeft, Rank, ClientDo, ProxyDo, TargetDo;
    if w.client.at == Passed {
      steps, v := [], w;
    } else {
      var step := NextStep(w);
      HonestStepKeepsReady(w, step);
      var rest;
      rest, v := Completion(Apply(w, step));
      steps := [step] + rest;
      assert steps[1..] == rest;
    }
  }

  /** The echo through the proxy never gets stuck. Whatever schedule and whatever split of reads
      and writes have brought the three processes where they are, if none has given up and
      `poll` has told the truth, they can go on the same way until the client has passed, with
      every round echoed in full. */
  lemma TestCanAlwaysPass(message: seq<byte>, count: nat, steps: seq<Step>, w: World)
    returns (more: seq<Step>, v: World)
    requires HonestRun(Start(message, count), steps, w)
    ensures HonestRun(w, more, v) && v.client.at == Passed
    ensures v.client.received == v.client.sent == Repeat(message, count)
  {
    assert Ready(Start(message, count)) by { assert message[..0] == []; }
    HonestRunKeepsReady(Start(message, count), steps, w);
    more, v := Completion(w);
    HonestRunKeepsReady(w, more, v);
  }
}
