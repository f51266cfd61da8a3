/** The live configuration as its callers may think of it: one value, and calls that take effect
    all at once. Every run of `ConfigStore`, locks, heap and word-by-word copies included, is a
    run of this machine. */
module AtomicStore {
  import opened ConfigStore
  import opened Options

  /** Where a call is. A load or reload first prepares a configuration; every call then takes
      effect at one moment, which decides what it will return. */
  datatype Call =
    | Returned(last: Result)
    | Preparing(kind: Kind)
    | Prepared(kind: Kind, words: Words)
    | Freeing
    | Looking
    | Decided(result: Result)

  datatype Atomic = Atomic(config: Option<Words>, calls: seq<Call>)

  datatype Act =
    | Invoke(kind: Kind) | InvokeFree | InvokeSnapshot
    | GiveUp                                  // no memory, or the file is not accepted
    | Ready(words: Words)                     // the file is accepted as `words`
    | TakeEffect
    | Return

  predicate CanAct(x: Atomic, t: nat, act: Act) {
    t < |x.calls| &&
    var c := x.calls[t];
    match act
    case Invoke(_) => c.Returned?
    case InvokeFree => c.Returned?
    case InvokeSnapshot => c.Returned?
    case GiveUp => c.Returned? || c.Preparing?
    case Ready(_) => c.Preparing?
    case TakeEffect => c.Prepared? || c == Freeing || c == Looking
    case Return => c.Decided?
  }

  /** The configuration after a call has taken effect, and what the call will return. */
  function Effect(config: Option<Words>, c: Call): (Option<Words>, Result)
    requires c.Prepared? || c == Freeing || c == Looking
  {
    match c
    case Prepared(Load, words) => if config == None then (Some(words), Success) else (config, Error)
    case Prepared(Reload, words) => (Some(words), Success)
    case Freeing => (None, Success)
    case Looking => (config, if config == None then Error else Snapshot(config.value))
  }

  function DoAct(x: Atomic, t: nat, act: Act): Atomic
    requires CanAct(x, t, act)
  {
    match act
    case Invoke(kind) => x.(calls := x.calls[t := Preparing(kind)])
    case InvokeFree => x.(calls := x.calls[t := Freeing])
    case InvokeSnapshot => x.(calls := x.calls[t := Looking])
    case GiveUp => x.(calls := x.calls[t := Returned(Error)])
    case Ready(words) => x.(calls := x.calls[t := Prepared(x.calls[t].kind, words)])
    case TakeEffect =>
      var (config, result) := Effect(x.config, x.calls[t]);
      Atomic(config, x.calls[t := Decided(result)])
    case Return => x.(calls := x.calls[t := Returned(x.calls[t].result)])
  }

  ghost predicate AtomicRun(x: Atomic, acts: seq<(nat, Act)>, y: Atomic)
    decreases |acts|
  {
    if acts == [] then x == y
    else CanAct(x, acts[0].0, acts[0].1) && AtomicRun(DoAct(x, acts[0].0, acts[0].1), acts[1..], y)
  }

  // ---------- what a store shows of itself ----------

  function WordsAt(s: Store, obj: nat): Words {
    if obj in s.heap then s.heap[obj] else []
  }

  function CallOf(s: Store, a: At): Call {
    match a
    case Idle(last) => Returned(last)
    case Filling(kind, _) => Preparing(kind)
    case Parsed(kind, own) => Prepared(kind, WordsAt(s, own))
    case Writing(kind, own) => Prepared(kind, WordsAt(s, own))
    case Rejected(_) => Decided(Error)
    case Stored(_) => Decided(Success)
    case Releasing(_, done) => Decided(if done then Success else Error)
    case Clearing => Freeing
    case Cleared => Decided(Success)
    case Unset => Decided(Success)
    case Reading => Looking
    case Copying(from, _) => Decided(Snapshot(WordsAt(s, from)))
    case Copied(words) => Decided(Snapshot(words))
    case NothingToCopy => Decided(Error)
  }

  function Shown(s: Store): Atomic {
    Atomic(Visible(s), seq(|s.threads|, t requires 0 <= t < |s.threads| => CallOf(s, s.threads[t])))
  }

  /** What a step is to the callers, if anything. */
  function ActOf(a: At, step: Step): Option<Act> {
    match step
    case Begin(kind, _) => Some(Invoke(kind))
    case BeginFree => Some(InvokeFree)
    case BeginSnapshot => Some(InvokeSnapshot)
    case Fail => Some(GiveUp)
    case Accept(words) => Some(Ready(words))
    case CopyWord(_) => None
    case Go =>
      if a.Writing? || a == Clearing || a == Reading then Some(TakeEffect)
      else if a.Releasing? || a == Unset || a.Copied? || a == NothingToCopy then Some(Return)
      else None
  }

  // ---------- every step is an act or shows nothing ----------

  /** What the other threads have prepared or are copying stays as it is. */
  lemma OthersAreLeftAlone(s: Store, t: nat, step: Step, u: nat)
    requires Enabled(s, t, step) && Locks(s) && Ownership(s) && Copies(s) && u < |s.threads| && u != t
    ensures CallOf(Apply(s, t, step), s.threads[u]) == CallOf(s, s.threads[u])
  {
    var a := s.threads[u];
    assert Owned(a) != None ==> Owned(a) != Owned(s.threads[t]) && Owned(a).value in s.live;
    assert a.Copying? ==> u in s.readers;
  }

  /** The thread's own call goes as the simple machine's does. */
  ghost predicate Advances(s: Store, t: nat, step: Step)
    requires Enabled(s, t, step)
  {
    var v := Apply(s, t, step);
    var c, d := CallOf(s, s.threads[t]), CallOf(v, v.threads[t]);
    match ActOf(s.threads[t], step)
    case None => d == c && Visible(v) == Visible(s)
    case Some(act) =>
      && CanAct(Shown(s), t, act)
      && Visible(v) == DoAct(Shown(s), t, act).config && d == DoAct(Shown(s), t, act).calls[t]
  }

  lemma BeginningAdvances(s: Store, t: nat, step: Step)
    requires Enabled(s, t, step) && CurrentLive(s) && (step.Begin? || step == BeginFree || step == BeginSnapshot)
    ensures Advances(s, t, step)
  {
    assert Shown(s).calls[t] == CallOf(s, s.threads[t]);
  }

  lemma PreparingAdvances(s: Store, t: nat, step: Step)
    requires Enabled(s, t, step) && OwnedLive(s) && CurrentLive(s) && (step == Fail || step.Accept?)
    ensures Advances(s, t, step)
  {
    assert Shown(s).calls[t] == CallOf(s, s.threads[t]);
  }

  lemma CopyingAdvances(s: Store, t: nat, step: Step)
    requires Enabled(s, t, step) && step.CopyWord?
    ensures Advances(s, t, step)
  {
  }

  lemma WriterAdvances(s: Store, t: nat)
    requires Enabled(s, t, Go) && Locks(s) && Ownership(s) && Contents(s) && !ReadLocked(s.threads[t])
    ensures Advances(s, t, Go)
  {
    assert Shown(s).calls[t] == CallOf(s, s.threads[t]);
    assert WriteLocked(s.threads[t]) <==> s.writer == Some(t);
  }

  /** A copy that is complete is the current configuration. */
  lemma CopyIsComplete(s: Store, t: nat)
    requires Enabled(s, t, Go) && Locks(s) && Contents(s) && Copies(s) && s.threads[t].Copying?
    ensures s.threads[t].from in s.heap
    ensures Apply(s, t, Go) == Move(s, t, Copied(s.heap[s.threads[t].from]))
  {
    assert t in s.readers;
    var from, out := s.threads[t].from, s.threads[t].out;
    assert |s.heap[from]| == s.size;
    assert seq(s.size, i requires 0 <= i < s.size => out[i]) == s.heap[from];
  }

  lemma ReaderAdvances(s: Store, t: nat)
    requires Enabled(s, t, Go) && Locks(s) && CurrentLive(s) && Contents(s) && Copies(s) && ReadLocked(s.threads[t])
    ensures Advances(s, t, Go)
  {
    assert Shown(s).calls[t] == CallOf(s, s.threads[t]);
    if s.threads[t].Copying? {
      CopyIsComplete(s, t);
      hide Apply;
    }
    assert t in s.readers;
  }

  lemma OwnCallAdvances(s: Store, t: nat, step: Step)
    requires Enabled(s, t, step) && Inv(s)
    ensures Advances(s, t, step)
  {
    hide Advances;
    if step.Begin? || step == BeginFree || step == BeginSnapshot {
      BeginningAdvances(s, t, step);
    } else if step == Fail || step.Accept? {
      PreparingAdvances(s, t, step);
    } else if step.CopyWord? {
      CopyingAdvances(s, t, step);
    } else if ReadLocked(s.threads[t]) {
      ReaderAdvances(s, t);
    } else {
      WriterAdvances(s, t);
    }
  }

  /** The steps of the store are acts of the simple machine, or show nothing. */
  lemma StepIsAct(s: Store, t: nat, step: Step)
    requires Enabled(s, t, step) && Inv(s)
    ensures match ActOf(s.threads[t], step)
            case None => Shown(Apply(s, t, step)) == Shown(s)
            case Some(act) => CanAct(Shown(s), t, act) && Shown(Apply(s, t, step)) == DoAct(Shown(s), t, act)
  {
    var v := Apply(s, t, step);
    OnlyOneThreadMoves(s, t, step);
    OwnCallAdvances(s, t, step);
    forall u: nat | u < |s.threads| && u != t ensures Shown(v).calls[u] == Shown(s).calls[u] {
      OthersAreLeftAlone(s, t, step, u);
    }
    hide Apply, Enabled, Inv, CallOf, Visible;
  }

  /** The acts of a run. */
  function ActsOf(s: Store, steps: seq<(nat, Step)>): seq<(nat, Act)>
    decreases |steps|
  {
    if steps == [] || !Enabled(s, steps[0].0, steps[0].1) then []
    else
      (match ActOf(s.threads[steps[0].0], steps[0].1)
       case None => []
       case Some(act) => [(steps[0].0, act)])
      + ActsOf(Apply(s, steps[0].0, steps[0].1), steps[1..])
  }

  /** Every run of the store, however its threads interleave, is a run of the simple machine, in
      which each load, reload, free and snapshot takes effect at one moment between its call and
      its return, and returns what that moment decided. */
  lemma {:induction false} RunIsAtomic(s: Store, steps: seq<(nat, Step)>, v: Store)
    requires Inv(s) && Run(s, steps, v)
    ensures AtomicRun(Shown(s), ActsOf(s, steps), Shown(v))
    decreases |steps|
  {
    hide Inv, Apply, Shown, ActOf, CanAct, DoAct;
    if steps != [] {
      var (t, step) := steps[0];
      StepIsAct(s, t, step);
      StepKeepsInv(s, t, step);
      RunIsAtomic(Apply(s, t, step), steps[1..], v);
      var acts := ActsOf(Apply(s, t, step), steps[1..]);
      match ActOf(s.threads[t], step)
      case None => assert [] + acts == acts;
      case Some(act) => assert ([(t, act)] + acts)[1..] == acts;
    }
  }

  /** From the start: no configuration, no call made. */
  lemma StoreIsAtomic(size: nat, threads: nat, steps: seq<(nat, Step)>, v: Store)
    requires Run(Start(size, threads), steps, v)
    ensures AtomicRun(Atomic(None, seq(threads, _ => Returned(Nothing))), ActsOf(Start(size, threads), steps), Shown(v))
  {
    StartHasInv(size, threads);
    RunIsAtomic(Start(size, threads), steps, v);
    assert Shown(Start(size, threads)) == Atomic(None, seq(threads, _ => Returned(Nothing)));
  }

  /** In the code's terms: a reload that holds the lock, or a load that finds no configuration,
      makes its own configuration the visible one and will succeed; a load that finds one will
      fail and changes nothing. */
  lemma WriterTakesEffect(s: Store, t: nat)
    requires Reachable(s) && t < |s.threads| && s.threads[t].Writing?
    ensures var a, v := s.threads[t], Apply(s, t, Go);
            && a.own in s.heap && s.heap[a.own] in s.accepted
            && if a.kind == Reload || s.current == None
               then Visible(v) == Some(s.heap[a.own]) && CallOf(v, v.threads[t]) == Decided(Success)
               else Visible(v) == Visible(s) != None && CallOf(v, v.threads[t]) == Decided(Error)
  {
    ReachableHasInv(s);
    assert s.writer == Some(t);
  }

  /** A snapshot that reads while a configuration is current will return it, and will fail only
      if there is none. */
  lemma SnapshotTakesEffect(s: Store, t: nat)
    requires Reachable(s) && t < |s.threads| && s.threads[t] == Reading
    ensures var v := Apply(s, t, Go);
            && Visible(v) == Visible(s) && (Visible(s) == None <==> s.current == None)
            && CallOf(v, v.threads[t]) == Decided(if Visible(s) == None then Error else Snapshot(Visible(s).value))
  {
    ReachableHasInv(s);
    assert t in s.readers;
  }

  /** What a call will return is decided once, and is what it returns. */
  lemma DecidedIsReturned(s: Store, t: nat, step: Step, u: nat)
    requires Reachable(s) && Enabled(s, t, step) && u < |s.threads| && CallOf(s, s.threads[u]).Decided?
    ensures var c, v := CallOf(s, s.threads[u]), Apply(s, t, step);
            CallOf(v, v.threads[u]) == c || (t == u && v.threads[u] == Idle(c.result))
  {
    ReachableHasInv(s);
    OnlyOneThreadMoves(s, t, step);
    if u == t {
      OwnCallAdvances(s, t, step);
      assert Shown(s).calls[t] == CallOf(s, s.threads[t]);
    } else {
      OthersAreLeftAlone(s, t, step, u);
    }
    hide Apply, Inv, Visible;
  }

  // ---------- every call can be made ----------

  /** Nobody but `t` is inside a call. */
  predicate Alone(s: Store, t: nat) {
    t < |s.threads| && forall u | 0 <= u < |s.threads| && u != t :: s.threads[u].Idle?
  }

  /** The configuration and the result once the call is over. */
  function Outcome(config: Option<Words>, c: Call): (Option<Words>, Result) {
    match c
    case Returned(last) => (config, last)
    case Preparing(_) => (config, Error)
    case Decided(result) => (config, result)
    case _ => Effect(config, c)
  }

  lemma NextOfCall(s: Store, t: nat) returns (step: Step)
    requires Reachable(s) && Alone(s, t) && !s.threads[t].Idle? && !s.threads[t].Filling?
    ensures Enabled(s, t, step) && (step == Go || (step.CopyWord? && step.i !in s.threads[t].out))
  {
    ReachableHasInv(s);
    step := Go;
    var a := s.threads[t];
    if a.Parsed? {
      assert s.writer != None ==> WriteLocked(s.threads[s.writer.value]);
      assert forall u | u in s.readers :: ReadLocked(s.threads[u]);
      assert s.readers == {};
    } else {
      step := HolderOrReleaser(s, t);
    }
  }

  lemma HolderOrReleaser(s: Store, t: nat) returns (step: Step)
    requires Inv(s) && t < |s.threads|
    requires !s.threads[t].Idle? && !s.threads[t].Filling? && !s.threads[t].Parsed?
    ensures Enabled(s, t, step) && (step == Go || (step.CopyWord? && step.i !in s.threads[t].out))
  {
    step := Go;
    if !s.threads[t].Releasing? { step := HolderCanMove(s, t); }
  }

  /** A call left to itself comes to its end, as its effect says. */
  lemma {:induction false} CallRuns(s: Store, t: nat) returns (steps: seq<(nat, Step)>, v: Store)
    requires Reachable(s) && Alone(s, t) && !s.threads[t].Filling?
    ensures Run(s, steps, v) && Alone(v, t) && |v.threads| == |s.threads| && v.size == s.size
    ensures var o := Outcome(Visible(s), CallOf(s, s.threads[t])); Visible(v) == o.0 && v.threads[t] == Idle(o.1)
    decreases StepsLeft(s, s.threads[t])
  {
    if s.threads[t].Idle? {
      steps, v := [], s;
    } else {
      var step := NextOfCall(s, t);
      OneStepOfCall(s, t, step);
      var rest;
      hide Apply, Enabled, Alone, Reachable, Visible, CallOf, StepsLeft, Outcome;
      rest, v := CallRuns(Apply(s, t, step), t);
      steps := [(t, step)] + rest;
      assert steps[1..] == rest;
    }
  }

  lemma StaysAlone(s: Store, t: nat, step: Step)
    requires Alone(s, t) && Enabled(s, t, step)
    ensures var v := Apply(s, t, step); Alone(v, t) && |v.threads| == |s.threads| && v.size == s.size
  {
    OnlyOneThreadMoves(s, t, step);
    hide Apply, Enabled;
  }

  /** A step of a call does not change what the call will come to. */
  lemma SameOutcome(s: Store, t: nat, step: Step)
    requires Inv(s) && Enabled(s, t, step) && (step == Go || step.CopyWord?)
    ensures var v := Apply(s, t, step);
            && t < |v.threads|
            && Outcome(Visible(v), CallOf(v, v.threads[t])) == Outcome(Visible(s), CallOf(s, s.threads[t]))
  {
    OwnCallAdvances(s, t, step);
    OnlyOneThreadMoves(s, t, step);
    assert Shown(s).calls[t] == CallOf(s, s.threads[t]);
    hide Inv, Apply, Enabled, CallOf, Visible;
  }

  lemma OneStepOfCall(s: Store, t: nat, step: Step)
    requires Reachable(s) && Alone(s, t) && !s.threads[t].Idle? && !s.threads[t].Filling?
    requires Enabled(s, t, step) && (step == Go || (step.CopyWord? && step.i !in s.threads[t].out))
    ensures var v := Apply(s, t, step);
            && Reachable(v) && Alone(v, t) && !v.threads[t].Filling? && |v.threads| == |s.threads| && v.size == s.size
            && StepsLeft(v, v.threads[t]) < StepsLeft(s, s.threads[t])
            && Outcome(Visible(v), CallOf(v, v.threads[t])) == Outcome(Visible(s), CallOf(s, s.threads[t]))
  {
    CallsComeToAnEnd(s, t, step, t);
    hide Inv, Reachable, Apply, Enabled, CallOf, Visible, StepsLeft, Outcome;
    ReachableStep(s, t, step);
    ReachableHasInv(s);
    StaysAlone(s, t, step);
    SameOutcome(s, t, step);
    NeverBackToFilling(s, t, step);
  }

  lemma NeverBackToFilling(s: Store, t: nat, step: Step)
    requires Enabled(s, t, step) && (step == Go || step.CopyWord?)
    ensures !Apply(s, t, step).threads[t].Filling?
  {
  }

  /** The first steps of a call, up to where it is left to itself. */
  lemma CallBegins(s: Store, t: nat, step: Step)
    requires Reachable(s) && Alone(s, t) && Enabled(s, t, step) && !step.CopyWord? && !step.Fail?
    requires s.threads[t].Idle? || s.threads[t].Filling?
    ensures var v := Apply(s, t, step);
            && Reachable(v) && Alone(v, t) && Visible(v) == Visible(s) && v.size == s.size
            && Some(CallOf(v, v.threads[t])) ==
               match step
               case Begin(kind, _) => Some(Preparing(kind))
               case Accept(words) => Some(Prepared(s.threads[t].kind, words))
               case BeginFree => Some(Freeing)
               case BeginSnapshot => Some(Looking)
               case _ => None
  {
    ReachableStep(s, t, step);
    ReachableHasInv(s);
    OnlyOneThreadMoves(s, t, step);
    OwnCallAdvances(s, t, step);
    assert Shown(s).calls[t] == CallOf(s, s.threads[t]);
    hide Inv, Reachable;
  }

  lemma QuietLock(s: Store)
    requires Reachable(s) && forall u | 0 <= u < |s.threads| :: s.threads[u].Idle?
    ensures s.writer == None && s.readers == {}
  {
    ReachableHasInv(s);
    assert s.writer != None ==> WriteLocked(s.threads[s.writer.value]);
    assert forall u | u in s.readers :: ReadLocked(s.threads[u]);
  }

  /** In a quiet store each call can be made, with any configuration the parser may accept, and
      ends as its effect says: so a reload does replace the configuration, and a snapshot does
      return it. */
  lemma EveryCallCanBeMade(s: Store, t: nat, c: Call, obj: nat) returns (steps: seq<(nat, Step)>, v: Store)
    requires Reachable(s) && Alone(s, t) && s.threads[t].Idle? && obj !in s.live
    requires c == Freeing || c == Looking || (c.Prepared? && |c.words| == s.size)
    ensures Run(s, steps, v) && Alone(v, t)
    ensures Visible(v) == Effect(Visible(s), c).0 && v.threads[t] == Idle(Effect(Visible(s), c).1)
  {
    QuietLock(s);
    if c.Prepared? {
      var begin, accept := Begin(c.kind, obj), Accept(c.words);
      CallBegins(s, t, begin);
      var filling := Apply(s, t, begin);
      CallBegins(filling, t, accept);
      steps, v := CallRuns(Apply(filling, t, accept), t);
      OneStepBefore(filling, t, accept, steps, v);
      OneStepBefore(s, t, begin, [(t, accept)] + steps, v);
      steps := [(t, begin)] + ([(t, accept)] + steps);
    } else {
      var begin := if c == Freeing then BeginFree else BeginSnapshot;
      CallBegins(s, t, begin);
      steps, v := CallRuns(Apply(s, t, begin), t);
      OneStepBefore(s, t, begin, steps, v);
      steps := [(t, begin)] + steps;
    }
  }

  lemma OneStepBefore(s: Store, t: nat, step: Step, rest: seq<(nat, Step)>, v: Store)
    requires Enabled(s, t, step) && Run(Apply(s, t, step), rest, v)
    ensures Run(s, [(t, step)] + rest, v)
  {
    hide Apply, Enabled;
    assert ([(t, step)] + rest)[1..] == rest;
  }
}
