/** The live configuration behind its reader/writer lock, as a step machine: any number of
    threads load, reload, snapshot and free it. A step is one lock operation, one call of
    malloc, free or the parser, one assignment of the global pointer, or the copy of one word
    of the structure; steps of different threads interleave in any order. */
module ConfigStore {
  import opened Options

  /** A configuration structure, word by word. */
  type Words = seq<int>

  /** How a call returned. */
  datatype Result = Nothing | Success | Error | Snapshot(words: Words)

  datatype Kind = Load | Reload

  datatype At =
    | Idle(last: Result)
    | Filling(kind: Kind, own: nat)           // malloc succeeded, the parser runs
    | Parsed(kind: Kind, own: nat)            // before the write lock
    | Writing(kind: Kind, own: nat)           // inside the write lock
    | Rejected(own: nat)                      // load found a configuration; still locked
    | Stored(previous: Option<nat>)                // pointer assigned; still locked
    | Releasing(previous: Option<nat>, done: bool)    // unlocked, about to free
    | Clearing                                // free_config inside the write lock
    | Cleared                                 // it has freed the object, pointer still set
    | Unset                                   // pointer null, still locked
    | Reading                                 // get_config_snapshot inside the read lock
    | Copying(from: nat, out: map<nat, int>)  // copying word by word
    | Copied(words: Words)                    // copy done, still locked
    | NothingToCopy                           // no configuration, still locked

  datatype Store = Store(
    size: nat,                    // words in the structure
    heap: map<nat, Words>,        // contents of the objects allocated so far
    live: set<nat>,               // allocated and not freed
    current: Option<nat>,         // g_config
    writer: Option<nat>,          // thread that holds the write lock
    readers: set<nat>,            // threads that hold the read lock
    threads: seq<At>,
    accepted: set<Words>)         // what the parser accepted so far

  datatype Step =
    | Begin(kind: Kind, obj: nat)             // malloc returns `obj`
    | Fail                                    // malloc or the parser fails
    | Accept(words: Words)                    // the parser accepts
    | BeginFree | BeginSnapshot
    | CopyWord(i: nat)
    | Go                                      // the only thing the thread can do next

  predicate WriteLocked(a: At) {
    a.Writing? || a.Rejected? || a.Stored? || a.Clearing? || a.Cleared? || a.Unset?
  }

  predicate ReadLocked(a: At) {
    a.Reading? || a.Copying? || a.Copied? || a.NothingToCopy?
  }

  /** The object a thread alone is responsible for. */
  function Owned(a: At): Option<nat> {
    match a
    case Filling(_, own) => Some(own)
    case Parsed(_, own) => Some(own)
    case Writing(_, own) => Some(own)
    case Rejected(own) => Some(own)
    case Stored(previous) => previous
    case Releasing(previous, _) => previous
    case _ => None
  }

  predicate Enabled(s: Store, t: nat, step: Step) {
    t < |s.threads| &&
    var a := s.threads[t];
    match step
    case Begin(_, obj) => a.Idle? && obj !in s.live
    case Fail => a.Filling? || a.Idle?
    case Accept(words) => a.Filling? && |words| == s.size
    case BeginFree => a.Idle? && s.writer == None && s.readers == {}
    case BeginSnapshot => a.Idle? && s.writer == None
    case CopyWord(i) => a.Copying? && i < s.size && a.from in s.heap && i < |s.heap[a.from]|
    case Go =>
      (match a
       case Idle(_) => false
       case Filling(_, _) => false
       case Parsed(_, _) => s.writer == None && s.readers == {}
       case Copying(_, out) => forall i | 0 <= i < s.size :: i in out
       case _ => true)
  }

  function Free(live: set<nat>, obj: Option<nat>): set<nat> {
    if obj == None then live else live - {obj.value}
  }

  function Move(s: Store, t: nat, a: At): Store
    requires t < |s.threads|
  {
    s.(threads := s.threads[t := a])
  }

  function Apply(s: Store, t: nat, step: Step): Store
    requires Enabled(s, t, step)
  {
    var a := s.threads[t];
    match step
    case Begin(kind, obj) => Move(s.(live := s.live + {obj}, heap := s.heap[obj := []]), t, Filling(kind, obj))
    case Fail => Move(s.(live := Free(s.live, Owned(a))), t, Idle(Error))
    case Accept(words) =>
      Move(s.(heap := s.heap[a.own := words], accepted := s.accepted + {words}), t, Parsed(a.kind, a.own))
    case BeginFree => Move(s.(writer := Some(t)), t, Clearing)
    case BeginSnapshot => Move(s.(readers := s.readers + {t}), t, Reading)
    case CopyWord(i) => Move(s, t, Copying(a.from, a.out[i := s.heap[a.from][i]]))
    case Go =>
      match a
      case Parsed(kind, own) => Move(s.(writer := Some(t)), t, Writing(kind, own))
      case Writing(kind, own) =>
        if kind == Load && s.current != None then Move(s, t, Rejected(own))
        else Move(s.(current := Some(own)), t, Stored(s.current))
      case Rejected(own) => Move(s.(writer := None), t, Releasing(Some(own), false))
      case Stored(previous) => Move(s.(writer := None), t, Releasing(previous, true))
      case Releasing(previous, done) =>
        Move(s.(live := Free(s.live, previous)), t, Idle(if done then Success else Error))
      case Clearing => Move(s.(live := Free(s.live, s.current)), t, Cleared)
      case Cleared => Move(s.(current := None), t, Unset)
      case Unset => Move(s.(writer := None), t, Idle(Success))
      case Reading => Move(s, t, if s.current == None then NothingToCopy else Copying(s.current.value, map[]))
      case Copying(_, out) => Move(s, t, Copied(seq(s.size, i requires 0 <= i < s.size => out[i])))
      case Copied(words) => Move(s.(readers := s.readers - {t}), t, Idle(Snapshot(words)))
      case NothingToCopy => Move(s.(readers := s.readers - {t}), t, Idle(Error))
  }

  function Start(size: nat, threads: nat): Store {
    Store(size, map[], {}, None, None, {}, seq(threads, _ => Idle(Nothing)), {})
  }

  ghost predicate Run(s: Store, steps: seq<(nat, Step)>, v: Store)
    decreases |steps|
  {
    if steps == [] then s == v
    else Enabled(s, steps[0].0, steps[0].1) && Run(Apply(s, steps[0].0, steps[0].1), steps[1..], v)
  }

  // ---------- the invariant ----------

  /** The lock's state matches what the threads believe, and writers exclude everybody. */
  ghost predicate Locks(s: Store) {
    && (forall t | 0 <= t < |s.threads| :: WriteLocked(s.threads[t]) <==> s.writer == Some(t))
    && (forall t: nat :: t in s.readers <==> t < |s.threads| && ReadLocked(s.threads[t]))
    && (s.writer != None ==> s.readers == {})
    && (s.writer != None ==> s.writer.value < |s.threads|)
  }

  /** `free_config` has freed the object and not yet cleared the pointer. */
  predicate Dangling(s: Store) {
    s.writer != None && s.writer.value < |s.threads| && s.threads[s.writer.value] == Cleared
  }

  /** Each owned object is live and is not the current one; but while the pointer dangles,
      malloc may already have given its object away again. */
  ghost predicate OwnedLive(s: Store) {
    forall t | 0 <= t < |s.threads| && Owned(s.threads[t]) != None ::
      Owned(s.threads[t]).value in s.live && (Dangling(s) || Owned(s.threads[t]) != s.current)
  }

  /** It has one owner. */
  ghost predicate OneOwner(s: Store) {
    forall t, u | 0 <= t < u < |s.threads| && Owned(s.threads[t]) != None :: Owned(s.threads[t]) != Owned(s.threads[u])
  }

  ghost predicate CurrentLive(s: Store) {
    s.current != None && !Dangling(s) ==> s.current.value in s.live
  }

  ghost predicate Ownership(s: Store) {
    OwnedLive(s) && OneOwner(s) && CurrentLive(s)
  }

  ghost predicate OwnedBySomeone(s: Store, obj: nat) {
    exists t | 0 <= t < |s.threads| :: Owned(s.threads[t]) == Some(obj)
  }

  /** Nothing leaks: a live object is the current one or somebody's own. */
  ghost predicate NoLeak(s: Store) {
    forall obj | obj in s.live :: (s.current == Some(obj) && !Dangling(s)) || OwnedBySomeone(s, obj)
  }

  ghost predicate Whole(s: Store, words: Words) {
    words in s.accepted && |words| == s.size
  }

  /** Contents: what is or can become current was accepted by the parser as a whole. */
  ghost predicate Contents(s: Store) {
    && (forall t | 0 <= t < |s.threads| && (s.threads[t].Parsed? || s.threads[t].Writing?) ::
          s.threads[t].own in s.heap && Whole(s, s.heap[s.threads[t].own]))
    && (s.current != None && !Dangling(s) ==> s.current.value in s.heap && Whole(s, s.heap[s.current.value]))
  }

  /** Readers copy from the current object, and have copied right so far. */
  ghost predicate Copies(s: Store) {
    && (forall t | 0 <= t < |s.threads| && s.threads[t].Copying? ::
          s.current == Some(s.threads[t].from) && s.threads[t].from in s.heap
          && forall i | i in s.threads[t].out ::
               i < |s.heap[s.threads[t].from]| && s.threads[t].out[i] == s.heap[s.threads[t].from][i])
    && (forall t | 0 <= t < |s.threads| && s.threads[t].Copied? ::
          s.current != None && s.current.value in s.heap && s.threads[t].words == s.heap[s.current.value])
  }

  /** Every snapshot returned is one whole configuration. */
  ghost predicate Snapshots(s: Store) {
    forall t | 0 <= t < |s.threads| && s.threads[t].Idle? && s.threads[t].last.Snapshot? ::
      Whole(s, s.threads[t].last.words)
  }

  ghost predicate Inv(s: Store) {
    Locks(s) && Ownership(s) && NoLeak(s) && Contents(s) && Copies(s) && Snapshots(s)
  }

  // ---------- every step keeps it ----------

  lemma StepKeepsLocks(s: Store, t: nat, step: Step)
    requires Enabled(s, t, step) && Locks(s)
    ensures Locks(Apply(s, t, step))
  {
    var v := Apply(s, t, step);
    assert forall u | 0 <= u < |s.threads| && u != t :: v.threads[u] == s.threads[u];
  }

  lemma StepKeepsOwnedLive(s: Store, t: nat, step: Step)
    requires Enabled(s, t, step) && Locks(s) && Ownership(s)
    ensures OwnedLive(Apply(s, t, step))
  {
    var v := Apply(s, t, step);
    assert forall u | 0 <= u < |s.threads| && u != t :: v.threads[u] == s.threads[u];
    assert Owned(s.threads[t]) != None ==> Owned(s.threads[t]).value in s.live;
  }

  /** What a thread comes to own was its own before, was just allocated, or was current. */
  lemma SourcesOfOwnership(s: Store, t: nat, step: Step)
    requires Enabled(s, t, step) && Locks(s)
    ensures var o := Owned(Apply(s, t, step).threads[t]);
            o == None || o == Owned(s.threads[t]) || o.value !in s.live || (o == s.current && !Dangling(s))
    ensures CurrentLive(s) && OwnedLive(s) ==> CurrentLive(Apply(s, t, step))
  {
    assert WriteLocked(s.threads[t]) ==> s.writer == Some(t);
  }

  lemma StepKeepsOneOwner(s: Store, t: nat, step: Step)
    requires Enabled(s, t, step) && Locks(s) && Ownership(s)
    ensures OneOwner(Apply(s, t, step)) && CurrentLive(Apply(s, t, step))
  {
    SourcesOfOwnership(s, t, step);
    var v := Apply(s, t, step);
    OnlyOneThreadMoves(s, t, step);
    hide Apply, Enabled, Owned, Locks, Dangling;
    forall a, b | 0 <= a < b < |v.threads| && Owned(v.threads[a]) != None
      ensures Owned(v.threads[a]) != Owned(v.threads[b])
    {
      if a != t && b != t { assert Owned(s.threads[a]) != Owned(s.threads[b]); }
    }
  }

  lemma OnlyOneThreadMoves(s: Store, t: nat, step: Step)
    requires Enabled(s, t, step)
    ensures Apply(s, t, step).threads == s.threads[t := Apply(s, t, step).threads[t]]
    ensures Apply(s, t, step).size == s.size
  {
  }

  lemma StepKeepsNoLeak(s: Store, t: nat, step: Step)
    requires Enabled(s, t, step) && Locks(s) && Ownership(s) && NoLeak(s)
    ensures NoLeak(Apply(s, t, step))
  {
    var v := Apply(s, t, step);
    assert WriteLocked(s.threads[t]) ==> s.writer == Some(t);
    forall obj | obj in v.live && !(v.current == Some(obj) && !Dangling(v)) ensures OwnedBySomeone(v, obj) {
      if Owned(v.threads[t]) == Some(obj) {
      } else {
        var u :| 0 <= u < |s.threads| && Owned(s.threads[u]) == Some(obj);
        assert u != t ==> Owned(v.threads[u]) == Some(obj);
      }
    }
  }

  lemma StepKeepsContents(s: Store, t: nat, step: Step)
    requires Enabled(s, t, step) && Locks(s) && Ownership(s) && Contents(s)
    ensures Contents(Apply(s, t, step))
  {
    var v := Apply(s, t, step);
    assert forall u | 0 <= u < |s.threads| && u != t :: v.threads[u] == s.threads[u];
    forall u | 0 <= u < |s.threads| && (v.threads[u].Parsed? || v.threads[u].Writing?)
      ensures v.threads[u].own in v.heap && Whole(v, v.heap[v.threads[u].own])
    {
      if u != t { assert Owned(s.threads[u]) == Some(s.threads[u].own); }
    }
  }

  lemma StepKeepsCopies(s: Store, t: nat, step: Step)
    requires Enabled(s, t, step) && Locks(s) && Ownership(s) && Contents(s) && Copies(s)
    ensures Copies(Apply(s, t, step))
  {
    var v := Apply(s, t, step);
    assert ReadLocked(s.threads[t]) ==> t in s.readers;
    assert forall u | 0 <= u < |s.threads| && u != t :: v.threads[u] == s.threads[u];
  }

  lemma StepKeepsSnapshots(s: Store, t: nat, step: Step)
    requires Enabled(s, t, step) && Locks(s) && Contents(s) && Copies(s) && Snapshots(s)
    ensures Snapshots(Apply(s, t, step))
  {
    OnlyOneThreadMoves(s, t, step);
    var v := Apply(s, t, step);
    if s.threads[t].Copied? {
      assert t in s.readers;
      assert Whole(s, s.threads[t].words);
    }
    forall u | 0 <= u < |v.threads| && v.threads[u].Idle? && v.threads[u].last.Snapshot?
      ensures Whole(v, v.threads[u].last.words)
    {
      if u != t {
        assert v.threads[u] == s.threads[u];
        assert Whole(s, s.threads[u].last.words);
      } else {
        assert s.threads[t] == Copied(v.threads[t].last.words);
      }
    }
  }

  lemma StepKeepsInv(s: Store, t: nat, step: Step)
    requires Enabled(s, t, step) && Inv(s)
    ensures Inv(Apply(s, t, step))
  {
    hide Apply, Enabled, Locks, OwnedLive, OneOwner, CurrentLive, NoLeak, Contents, Copies, Snapshots;
    StepKeepsLocks(s, t, step);
    StepKeepsOwnedLive(s, t, step);
    StepKeepsOneOwner(s, t, step);
    StepKeepsNoLeak(s, t, step);
    StepKeepsContents(s, t, step);
    StepKeepsCopies(s, t, step);
    StepKeepsSnapshots(s, t, step);
  }

  lemma {:induction false} RunKeepsInv(s: Store, steps: seq<(nat, Step)>, v: Store)
    requires Inv(s) && Run(s, steps, v)
    ensures Inv(v) && v.size == s.size
    decreases |steps|
  {
    hide Inv, Apply, Enabled;
    if steps != [] {
      StepKeepsInv(s, steps[0].0, steps[0].1);
      OnlyOneThreadMoves(s, steps[0].0, steps[0].1);
      RunKeepsInv(Apply(s, steps[0].0, steps[0].1), steps[1..], v);
    }
  }

  lemma StartHasInv(size: nat, threads: nat)
    ensures Inv(Start(size, threads))
  {
  }

  // ---------- the theorems, over all runs ----------

  ghost predicate Reachable(s: Store) {
    exists size: nat, threads: nat, steps :: Run(Start(size, threads), steps, s)
  }

  lemma ReachableHasInv(s: Store)
    requires Reachable(s)
    ensures Inv(s)
  {
    hide Inv;
    var size: nat, threads: nat, steps :| Run(Start(size, threads), steps, s);
    StartHasInv(size, threads);
    RunKeepsInv(Start(size, threads), steps, s);
  }

  lemma {:induction false} OneMoreStep(s: Store, steps: seq<(nat, Step)>, v: Store, t: nat, step: Step)
    requires Run(s, steps, v) && Enabled(v, t, step)
    ensures Run(s, steps + [(t, step)], Apply(v, t, step))
    decreases |steps|
  {
    hide Apply, Enabled;
    var more := steps + [(t, step)];
    if steps == [] {
      assert more[1..] == [];
    } else {
      OneMoreStep(Apply(s, steps[0].0, steps[0].1), steps[1..], v, t, step);
      assert more[1..] == steps[1..] + [(t, step)] && more[0] == steps[0];
    }
  }

  lemma ReachableStep(s: Store, t: nat, step: Step)
    requires Reachable(s) && Enabled(s, t, step)
    ensures Reachable(Apply(s, t, step))
  {
    var size: nat, threads: nat, steps :| Run(Start(size, threads), steps, s);
    hide Apply, Enabled, Run;
    OneMoreStep(Start(size, threads), steps, s, t, step);
  }

  /** A snapshot that returns is one whole configuration the parser accepted, and the one that
      was current when its copy ended; the configuration cannot have changed since the copy
      began, because nothing that changes it is possible while a reader is inside. */
  lemma SnapshotIsWholeAndCurrent(s: Store, t: nat)
    requires Reachable(s) && t < |s.threads| && s.threads[t].Copied?
    ensures s.current != None && s.current.value in s.live && s.current.value in s.heap
    ensures s.threads[t].words == s.heap[s.current.value] && s.threads[t].words in s.accepted
  {
    ReachableHasInv(s);
    assert t in s.readers;
  }

  lemma ReturnedSnapshotsAreWhole(s: Store, t: nat)
    requires Reachable(s) && t < |s.threads| && s.threads[t].Idle? && s.threads[t].last.Snapshot?
    ensures s.threads[t].last.words in s.accepted
  {
    ReachableHasInv(s);
  }

  /** While a thread is inside the read lock, no step of any thread changes which object is
      current, its contents, or that it is live. */
  lemma ReadersSeeNoChange(s: Store, reader: nat, t: nat, step: Step)
    requires Reachable(s) && reader < |s.threads| && ReadLocked(s.threads[reader]) && Enabled(s, t, step)
    ensures var v := Apply(s, t, step);
            && v.current == s.current
            && (s.current != None ==> s.current.value in s.live && s.current.value in v.live)
            && (s.current != None ==> s.current.value in s.heap && s.current.value in v.heap)
            && (s.current != None ==> v.heap[s.current.value] == s.heap[s.current.value])
  {
    ReachableHasInv(s);
    assert reader in s.readers;
    assert WriteLocked(s.threads[t]) ==> s.writer == Some(t);
    assert Owned(s.threads[t]) != None ==> Owned(s.threads[t]) != s.current;
  }

  /** No copy reads, and no call frees, an object that is not allocated; and an object no one
      is responsible for does not exist. */
  lemma NoUseAfterFreeNoLeak(s: Store, t: nat)
    requires Reachable(s) && t < |s.threads|
    ensures s.threads[t].Copying? ==> s.threads[t].from in s.live
    ensures Owned(s.threads[t]) != None ==> Owned(s.threads[t]).value in s.live
    ensures s.threads[t] == Clearing && s.current != None ==> s.current.value in s.live
    ensures forall obj | obj in s.live :: s.current == Some(obj) || OwnedBySomeone(s, obj)
  {
    ReachableHasInv(s);
    if s.threads[t].Copying? { assert t in s.readers; }
  }

  /** The configuration readers can see. */
  function Visible(s: Store): Option<Words> {
    if s.current != None && !Dangling(s) && s.current.value in s.heap then Some(s.heap[s.current.value]) else None
  }

  /** Only a successful load or reload, with a configuration accepted as a whole, and
      free_config change what readers can see; so a failed reload changes nothing. */
  lemma OnlySuccessChangesTheConfiguration(s: Store, t: nat, step: Step)
    requires Reachable(s) && Enabled(s, t, step) && Visible(Apply(s, t, step)) != Visible(s)
    ensures step == Go && (s.threads[t] == Clearing || s.threads[t].Writing?)
    ensures s.threads[t] == Clearing ==> Visible(Apply(s, t, step)) == None
    ensures s.threads[t].Writing? ==> s.threads[t].own in s.heap && s.heap[s.threads[t].own] in s.accepted
    ensures s.threads[t].Writing? ==> Visible(Apply(s, t, step)) == Some(s.heap[s.threads[t].own])
    ensures s.threads[t].Writing? && s.threads[t].kind == Load ==> s.current == None
  {
    ReachableHasInv(s);
    assert WriteLocked(s.threads[t]) ==> s.writer == Some(t);
  }

  // ---------- no deadlock ----------

  /** What a thread can do next that holds the lock. */
  lemma HolderCanMove(s: Store, t: nat) returns (step: Step)
    requires Inv(s) && t < |s.threads| && (WriteLocked(s.threads[t]) || ReadLocked(s.threads[t]))
    ensures Enabled(s, t, step) && (step == Go || (step.CopyWord? && step.i !in s.threads[t].out))
  {
    step := Go;
    var a := s.threads[t];
    if a.Copying? && !Enabled(s, t, Go) {
      var i :| 0 <= i < s.size && i !in a.out;
      step := CopyWord(i);
      assert t in s.readers;
    }
  }

  /** The lock never deadlocks: while some thread is inside a call, some thread inside a call
      can take its next step. */
  lemma SomeCallCanMove(s: Store, t: nat) returns (u: nat, step: Step)
    requires Reachable(s) && t < |s.threads| && !s.threads[t].Idle?
    ensures u < |s.threads| && !s.threads[u].Idle? && Enabled(s, u, step)
  {
    ReachableHasInv(s);
    u, step := t, Go;
    var a := s.threads[t];
    if a.Filling? {
      step := Fail;
    } else if a.Parsed? {
      if s.writer != None {
        u := s.writer.value;
        step := HolderCanMove(s, u);
      } else if s.readers != {} {
        u :| u in s.readers;
        step := HolderCanMove(s, u);
      }
    } else if WriteLocked(a) || ReadLocked(a) {
      step := HolderCanMove(s, t);
    }
  }

  /** How many steps a call still has before it, at most, but for copying words again. */
  function StepsLeft(s: Store, a: At): nat {
    match a
    case Idle(_) => 0
    case Filling(_, _) => 5
    case Parsed(_, _) => 4
    case Writing(_, _) => 3
    case Rejected(_) => 2
    case Stored(_) => 2
    case Releasing(_, _) => 1
    case Clearing => 3
    case Cleared => 2
    case Unset => 1
    case Reading => s.size + 3
    case Copying(_, out) => Missing(out, s.size) + 2
    case Copied(_) => 1
    case NothingToCopy => 1
  }

  /** Words below `n` that are not copied yet. */
  function Missing(out: map<nat, int>, n: nat): nat {
    if n == 0 then 0 else Missing(out, n - 1) + if n - 1 in out then 0 else 1
  }

  lemma {:induction false} MissingBound(out: map<nat, int>, n: nat)
    ensures Missing(out, n) <= n
  {
    if n > 0 { MissingBound(out, n - 1); }
  }

  lemma {:induction false} OneWordMore(out: map<nat, int>, n: nat, i: nat, word: int)
    ensures Missing(out[i := word], n) == Missing(out, n) - if i < n && i !in out then 1 else 0
  {
    if n > 0 { OneWordMore(out, n - 1, i, word); }
  }

  /** Every step inside a call, but copying a word again, brings that call nearer to its end and
      no other further from it. */
  lemma CallsComeToAnEnd(s: Store, t: nat, step: Step, u: nat)
    requires Enabled(s, t, step) && !s.threads[t].Idle? && u < |s.threads|
    requires step.CopyWord? ==> step.i !in s.threads[t].out
    ensures var v := Apply(s, t, step);
            if u == t then StepsLeft(v, v.threads[u]) < StepsLeft(s, s.threads[u])
            else StepsLeft(v, v.threads[u]) == StepsLeft(s, s.threads[u])
  {
    OnlyOneThreadMoves(s, t, step);
    if u == t {
      if step.CopyWord? { OneWordMore(s.threads[t].out, s.size, step.i, s.heap[s.threads[t].from][step.i]); }
      if s.threads[t].Reading? { MissingBound(map[], s.size); }
    }
  }
}
