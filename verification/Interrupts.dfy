/** The SIGINT protocol: signal handlers count and nudge a self-pipe, a drain thread cancels the
    armed query, and arm and disarm run between queries. Every atomic access is one step. */
module Interrupts {
  import opened Wrappers

  /** Where the drain thread is; observed is the count it loaded after its last read. */
  datatype Drain =
    | Reading | Loading | Locking(observed: nat) | Deciding(observed: nat) | Publishing(observed: nat)

  /** Who holds the mutex. Snapshotted is arm after its load of the count. */
  datatype Mutex = Free | ArmHolds | Snapshotted | DisarmHolds | DrainHolds

  /** signalSeq counts SIGINTs of the process, so it starts at startSeq, the count left by earlier
      handlers, while the processed count of a new handler starts at zero. unwritten counts handlers between their bump and their write.
      Sources are numbered as arm creates them; cancelled and snapshots are their history. */
  datatype State = State(
    startSeq: nat,
    signalSeq: nat,
    unwritten: nat,
    pipe: nat,
    mutex: Mutex,
    source: Option<nat>,
    armSignalSeq: nat,
    lastProcessedSignalSeq: nat,
    drain: Drain,
    nextSource: nat,
    cancelled: set<nat>,
    snapshots: map<nat, nat>)

  datatype Step =
    | Bump | Write | Read(bytes: nat) | Load | DrainLock | Decide | Publish
    | ArmLock | ArmSnapshot | ArmEmplace | DisarmLock | DisarmReset

  const BUFFER := 64

  function Initial(signalSeq: nat): State {
    State(signalSeq, signalSeq, 0, 0, Free, None, 0, 0, Reading, 0, {}, map[])
  }

  predicate Enabled(s: State, step: Step) {
    match step
    case Bump => true
    case Write => s.unwritten > 0
    case Read(n) => s.drain.Reading? && 1 <= n <= s.pipe && n <= BUFFER
    case Load => s.drain.Loading?
    case DrainLock => s.drain.Locking? && s.mutex.Free?
    case Decide => s.drain.Deciding?
    case Publish => s.drain.Publishing?
    case ArmLock => s.mutex.Free?
    case ArmSnapshot => s.mutex.ArmHolds?
    case ArmEmplace => s.mutex.Snapshotted?
    case DisarmLock => s.mutex.Free?
    case DisarmReset => s.mutex.DisarmHolds?
  }

  /** A write to a full pipe is dropped. */
  function Apply(capacity: nat, s: State, step: Step): State
    requires Enabled(s, step)
  {
    match step
    case Bump => s.(signalSeq := s.signalSeq + 1, unwritten := s.unwritten + 1)
    case Write => s.(unwritten := s.unwritten - 1, pipe := if s.pipe < capacity then s.pipe + 1 else s.pipe)
    case Read(n) => s.(pipe := s.pipe - n, drain := Loading)
    case Load => s.(drain := Locking(s.signalSeq))
    case DrainLock => s.(mutex := DrainHolds, drain := Deciding(s.drain.observed))
    case Decide =>
      var cancels := s.source.Some? && s.drain.observed > s.armSignalSeq;
      s.(cancelled := if cancels then s.cancelled + {s.source.value} else s.cancelled,
         drain := Publishing(s.drain.observed))
    case Publish => s.(lastProcessedSignalSeq := s.drain.observed, mutex := Free, drain := Reading)
    case ArmLock => s.(mutex := ArmHolds)
    case ArmSnapshot => s.(armSignalSeq := s.signalSeq, mutex := Snapshotted)
    case ArmEmplace =>
      s.(source := Some(s.nextSource), snapshots := s.snapshots[s.nextSource := s.armSignalSeq],
         nextSource := s.nextSource + 1, mutex := Free)
    case DisarmLock => s.(mutex := DisarmHolds)
    case DisarmReset => s.(source := None, mutex := Free)
  }

  /** A run: any interleaving of the steps of any number of handlers and callers. */
  ghost predicate IsRun(capacity: nat, states: seq<State>, steps: seq<Step>) {
    && |states| == |steps| + 1
    && (exists n: nat :: states[0] == Initial(n))
    && Follows(capacity, states, steps)
  }

  ghost predicate Follows(capacity: nat, states: seq<State>, steps: seq<Step>) {
    && |states| == |steps| + 1
    && forall i :: 0 <= i < |steps| ==>
         Enabled(states[i], steps[i]) && states[i + 1] == Apply(capacity, states[i], steps[i])
  }

  // ----- The invariant.

  /** A wakeup that will make the drain thread look at the count again. */
  predicate Wakeup(s: State) {
    s.unwritten > 0 || s.pipe > 0 || s.drain.Loading?
  }

  /** The drain thread has loaded a count it has not published. */
  predicate Holding(d: Drain) {
    d.Locking? || d.Deciding? || d.Publishing?
  }

  ghost predicate Inv(s: State) {
    Counts(s) && Sources(s) && Delivery(s)
  }

  /** Counts only move forward, and one not yet seen has a wakeup pending. */
  ghost predicate Counts(s: State) {
    && (s.mutex.DrainHolds? <==> s.drain.Deciding? || s.drain.Publishing?)
    && s.startSeq <= s.signalSeq && s.lastProcessedSignalSeq <= s.signalSeq
    && (Holding(s.drain) ==> s.lastProcessedSignalSeq <= s.drain.observed <= s.signalSeq)
    && (s.signalSeq == s.startSeq ==> !Wakeup(s) && !Holding(s.drain) && s.lastProcessedSignalSeq == 0)
    && (Holding(s.drain) && s.drain.observed < s.signalSeq ==> Wakeup(s))
    && (!Holding(s.drain) && s.startSeq < s.signalSeq && s.lastProcessedSignalSeq < s.signalSeq ==> Wakeup(s))
  }

  /** The sources created so far have snapshots; those cancelled were signalled since. */
  ghost predicate Sources(s: State) {
    && (forall k: nat :: k in s.snapshots <==> k < s.nextSource)
    && (forall k: nat :: k in s.snapshots ==> s.snapshots[k] <= s.signalSeq)
    && (s.source.Some? ==> s.source.value < s.nextSource)
    && (s.source.Some? && !s.mutex.Snapshotted? ==> s.armSignalSeq == s.snapshots[s.source.value])
    && (forall k: nat :: k in s.cancelled ==> k in s.snapshots && s.snapshots[k] < s.signalSeq)
    && (s.mutex.Snapshotted? ==> s.armSignalSeq <= s.signalSeq)
  }

  /** A signal after a snapshot will be looked at, or has cancelled the armed source. */
  ghost predicate Delivery(s: State)
    requires Sources(s)
  {
    && (s.mutex.Snapshotted? ==> s.armSignalSeq <= s.signalSeq && (s.armSignalSeq < s.signalSeq ==> Noticed(s, s.armSignalSeq)))
    && (s.source.Some? && s.snapshots[s.source.value] < s.signalSeq && s.source.value !in s.cancelled ==>
          Noticed(s, s.snapshots[s.source.value]))
  }

  /** A decision is still to come on a count past the snapshot. */
  predicate Noticed(s: State, snapshot: nat) {
    Wakeup(s) || ((s.drain.Locking? || s.drain.Deciding?) && s.drain.observed > snapshot)
  }

  lemma {:induction false} InitialInv(signalSeq: nat)
    ensures Inv(Initial(signalSeq))
  {
  }

  lemma {:induction false} StepCounts(capacity: nat, s: State, step: Step)
    requires capacity >= 1 && Counts(s) && Enabled(s, step)
    ensures Counts(Apply(capacity, s, step))
    ensures s.lastProcessedSignalSeq <= Apply(capacity, s, step).lastProcessedSignalSeq
  {
  }

  lemma {:induction false} StepSources(capacity: nat, s: State, step: Step)
    requires Counts(s) && Sources(s) && Enabled(s, step)
    ensures Sources(Apply(capacity, s, step))
  {
    match step
    case Decide => DecideSources(s);
    case _ =>
  }

  lemma {:induction false} DecideSources(s: State)
    requires Counts(s) && Sources(s) && s.drain.Deciding?
    ensures Sources(Apply(1, s, Decide))
  {
  }

  lemma {:induction false} HandlerDelivery(capacity: nat, s: State, step: Step)
    requires capacity >= 1 && Inv(s) && Enabled(s, step) && (step.Bump? || step.Write?)
    requires Sources(Apply(capacity, s, step))
    ensures Delivery(Apply(capacity, s, step))
  {
  }

  lemma {:induction false} DrainDelivery(capacity: nat, s: State, step: Step)
    requires Inv(s) && Enabled(s, step)
    requires step.Read? || step.Load? || step.DrainLock? || step.Decide? || step.Publish?
    requires Sources(Apply(capacity, s, step))
    ensures Delivery(Apply(capacity, s, step))
  {
  }

  lemma {:induction false} CallDelivery(capacity: nat, s: State, step: Step)
    requires Inv(s) && Enabled(s, step)
    requires step.ArmLock? || step.ArmSnapshot? || step.ArmEmplace? || step.DisarmLock? || step.DisarmReset?
    requires Sources(Apply(capacity, s, step))
    ensures Delivery(Apply(capacity, s, step))
  {
  }

  lemma {:induction false} StepInv(capacity: nat, s: State, step: Step)
    requires capacity >= 1 && Inv(s) && Enabled(s, step)
    ensures Inv(Apply(capacity, s, step))
  {
    StepCounts(capacity, s, step);
    StepSources(capacity, s, step);
    match step
    case Bump => HandlerDelivery(capacity, s, step);
    case Write => HandlerDelivery(capacity, s, step);
    case Read(_) => DrainDelivery(capacity, s, step);
    case Load => DrainDelivery(capacity, s, step);
    case DrainLock => DrainDelivery(capacity, s, step);
    case Decide => DrainDelivery(capacity, s, step);
    case Publish => DrainDelivery(capacity, s, step);
    case _ => CallDelivery(capacity, s, step);
  }

  /** What is published has been decided: an armed source was cancelled if a count past its snapshot
      was published, or is about to be. */
  ghost predicate Decided(s: State)
    requires Sources(s)
  {
    && (s.mutex.Snapshotted? ==> s.lastProcessedSignalSeq <= s.armSignalSeq)
    && (s.source.Some? ==>
          (s.snapshots[s.source.value] < s.lastProcessedSignalSeq
           || (s.drain.Publishing? && s.snapshots[s.source.value] < s.drain.observed)) ==>
            s.source.value in s.cancelled)
  }

  lemma {:induction false} StepDecided(capacity: nat, s: State, step: Step)
    requires capacity >= 1 && Inv(s) && Decided(s) && Enabled(s, step) && Sources(Apply(capacity, s, step))
    ensures Decided(Apply(capacity, s, step))
  {
  }

  /** In every run, once a count past the snapshot of an armed source is published as processed, the
      source is cancelled: who waits for the count can rely on the cancellation. */
  lemma {:induction false} ProcessedIsDecided(capacity: nat, states: seq<State>, steps: seq<Step>, i: nat)
    requires capacity >= 1 && IsRun(capacity, states, steps) && i < |states|
    ensures var s := states[i];
            s.source.Some? ==> s.source.value in s.snapshots
                               && (s.snapshots[s.source.value] < s.lastProcessedSignalSeq ==> s.source.value in s.cancelled)
  {
    RunDecided(capacity, states, steps, i);
  }

  lemma {:induction false} RunDecided(capacity: nat, states: seq<State>, steps: seq<Step>, i: nat)
    requires capacity >= 1 && IsRun(capacity, states, steps) && i < |states|
    ensures Inv(states[i]) && Decided(states[i])
  {
    if i > 0 {
      RunDecided(capacity, states, steps, i - 1);
      StepInv(capacity, states[i - 1], steps[i - 1]);
      StepDecided(capacity, states[i - 1], steps[i - 1]);
    }
  }

  lemma {:induction false} RunInv(capacity: nat, states: seq<State>, steps: seq<Step>, i: nat)
    requires capacity >= 1 && IsRun(capacity, states, steps) && i < |states|
    ensures Inv(states[i])
  {
    if i > 0 {
      RunInv(capacity, states, steps, i - 1);
      StepInv(capacity, states[i - 1], steps[i - 1]);
    }
  }

  // ----- No interrupt is lost.

  /** Nothing is under way: no handler before its write, an empty pipe, the drain thread blocked. */
  predicate Quiet(s: State) {
    s.unwritten == 0 && s.pipe == 0 && s.drain.Reading?
  }

  /** The count a handler has processed when nothing is under way. It is the signal count once a
      signal came; a handler created after earlier ones took signals reports zero until then. */
  function Processed(s: State): nat {
    if s.signalSeq == s.startSeq then 0 else s.signalSeq
  }

  /** The armed source is cancelled if a signal was counted since its snapshot. */
  ghost predicate ArmedDelivered(s: State) {
    s.source.Some? && s.source.value in s.snapshots && s.snapshots[s.source.value] < s.signalSeq ==>
      s.source.value in s.cancelled
  }

  /** In every run, whenever nothing is under way, every signal has been processed, and an armed
      source signalled since its snapshot is cancelled. */
  lemma {:induction false} NoInterruptLost(capacity: nat, states: seq<State>, steps: seq<Step>, i: nat)
    requires capacity >= 1 && IsRun(capacity, states, steps) && i < |states| && Quiet(states[i])
    ensures states[i].lastProcessedSignalSeq == Processed(states[i])
    ensures states[i].lastProcessedSignalSeq == states[i].signalSeq <==>
              states[i].startSeq == 0 || states[i].startSeq < states[i].signalSeq
    ensures states[i].source.Some? ==> states[i].source.value in states[i].snapshots
    ensures ArmedDelivered(states[i])
  {
    RunInv(capacity, states, steps, i);
  }

  /** The steps the process takes by itself, without new signals or calls. */
  predicate Internal(step: Step) {
    !step.Bump? && !step.ArmLock? && !step.DisarmLock?
  }

  function DrainRank(d: Drain): nat {
    match d
    case Reading => 0
    case Loading => 4
    case Locking(_) => 3
    case Deciding(_) => 2
    case Publishing(_) => 1
  }

  function MutexRank(m: Mutex): nat {
    match m
    case ArmHolds => 2
    case Snapshotted => 1
    case DisarmHolds => 1
    case _ => 0
  }

  function Work(s: State): nat {
    8 * s.unwritten + 6 * s.pipe + DrainRank(s.drain) + MutexRank(s.mutex)
  }

  /** Every internal step uses up work, so no run of internal steps goes on forever. */
  lemma {:induction false} InternalStepsEnd(capacity: nat, s: State, step: Step)
    requires Enabled(s, step) && Internal(step)
    ensures Work(Apply(capacity, s, step)) < Work(s)
  {
  }

  function NextInternal(s: State): (step: Step) {
    match s.mutex
    case ArmHolds => ArmSnapshot
    case Snapshotted => ArmEmplace
    case DisarmHolds => DisarmReset
    case _ =>
      match s.drain
      case Reading => if s.pipe > 0 then Read(1) else Write
      case Loading => Load
      case Locking(_) => DrainLock
      case Deciding(_) => Decide
      case Publishing(_) => Publish
  }

  /** The protocol cannot get stuck: an internal step is enabled until nothing is under way. */
  lemma {:induction false} NeverStuck(s: State)
    requires Inv(s) && (!Quiet(s) || MutexRank(s.mutex) > 0)
    ensures Enabled(s, NextInternal(s)) && Internal(NextInternal(s))
  {
  }

  ghost predicate Settles(capacity: nat, s: State, states: seq<State>, steps: seq<Step>) {
    && Follows(capacity, states, steps) && states[0] == s
    && (forall i :: 0 <= i < |steps| ==> Internal(steps[i]))
    && Quiet(states[|steps|]) && MutexRank(states[|steps|].mutex) == 0
  }

  /** From every reachable state, without further signals the protocol comes to rest, and then
      the armed source, if signalled since its snapshot, is cancelled. */
  lemma {:induction false} AlwaysDelivers(capacity: nat, s: State) returns (states: seq<State>, steps: seq<Step>)
    requires capacity >= 1 && Inv(s)
    ensures Settles(capacity, s, states, steps) && |steps| <= Work(s)
    ensures var t := states[|steps|];
            Inv(t) && t.signalSeq == s.signalSeq && t.lastProcessedSignalSeq == Processed(t) && ArmedDelivered(t)
    decreases Work(s)
  {
    if Quiet(s) && MutexRank(s.mutex) == 0 {
      states, steps := [s], [];
    } else {
      NeverStuck(s);
      var step := NextInternal(s);
      StepInv(capacity, s, step);
      InternalStepsEnd(capacity, s, step);
      var rest, more := AlwaysDelivers(capacity, Apply(capacity, s, step));
      states, steps := [s] + rest, [step] + more;
    }
  }

  // ----- No stale cancellation.

  /** A snapshot a source was armed with was taken by the arm call that created it. */
  lemma {:induction false} SnapshotTaken(
      capacity: nat, states: seq<State>, steps: seq<Step>, i: nat, k: nat) returns (a: nat)
    requires capacity >= 1 && IsRun(capacity, states, steps) && i < |states| && k in states[i].snapshots
    ensures a < i && steps[a] == ArmSnapshot && states[a].nextSource == k
    ensures states[a].signalSeq == states[i].snapshots[k]
  {
    RunInv(capacity, states, steps, i - 1);
    var s, step := states[i - 1], steps[i - 1];
    SnapshotStep(capacity, s, step, k);
    if k in s.snapshots {
      a := SnapshotTaken(capacity, states, steps, i - 1, k);
    } else {
      a := PendingSnapshot(capacity, states, steps, i - 1);
    }
  }

  lemma {:induction false} SnapshotStep(capacity: nat, s: State, step: Step, k: nat)
    requires Sources(s) && Enabled(s, step) && k in Apply(capacity, s, step).snapshots
    ensures k in s.snapshots ==> Apply(capacity, s, step).snapshots[k] == s.snapshots[k]
    ensures k !in s.snapshots ==> s.mutex.Snapshotted? && k == s.nextSource && Apply(capacity, s, step).snapshots[k] == s.armSignalSeq
  {
  }

  lemma {:induction false} PendingSnapshot(
      capacity: nat, states: seq<State>, steps: seq<Step>, i: nat) returns (a: nat)
    requires capacity >= 1 && IsRun(capacity, states, steps) && i < |states| && states[i].mutex.Snapshotted?
    ensures a < i && steps[a] == ArmSnapshot && states[a].nextSource == states[i].nextSource
    ensures states[a].signalSeq == states[i].armSignalSeq
  {
    RunInv(capacity, states, steps, i - 1);
    if states[i - 1].mutex.Snapshotted? {
      a := PendingSnapshot(capacity, states, steps, i - 1);
    } else {
      a := i - 1;
    }
  }

  lemma {:induction false} CountedBetween(
      capacity: nat, states: seq<State>, steps: seq<Step>, a: nat, i: nat) returns (b: nat)
    requires IsRun(capacity, states, steps) && a <= i < |states| && states[a].signalSeq < states[i].signalSeq
    ensures a <= b < i && steps[b] == Bump
  {
    if steps[i - 1] == Bump {
      b := i - 1;
    } else {
      b := CountedBetween(capacity, states, steps, a, i - 1);
    }
  }

  /** A source is cancelled only between the arm call that created it and the next disarm or arm
      call, and only if a SIGINT was counted after the snapshot that arm call took. */
  lemma {:induction false} NoStaleCancellation(
      capacity: nat, states: seq<State>, steps: seq<Step>, i: nat, k: nat) returns (a: nat, e: nat, b: nat)
    requires capacity >= 1 && IsRun(capacity, states, steps) && i < |steps|
    requires k in states[i + 1].cancelled && k !in states[i].cancelled
    ensures steps[i] == Decide && states[i].source == Some(k)
    ensures a < e < i && steps[a] == ArmSnapshot && steps[e] == ArmEmplace && states[a].nextSource == states[e].nextSource == k
    ensures forall j :: e < j < i ==> steps[j] != DisarmReset && steps[j] != ArmEmplace
    ensures a < b < i && steps[b] == Bump
  {
    RunInv(capacity, states, steps, i);
    a := SnapshotTaken(capacity, states, steps, i, k);
    b := CountedBetween(capacity, states, steps, a, i);
    e := ArmedSince(capacity, states, steps, i, k);
    if e < a { SourcesGrow(capacity, states, steps, e + 1, a); }
  }

  /** An armed source was created by the last of all arm and disarm calls. */
  lemma {:induction false} ArmedSince(
      capacity: nat, states: seq<State>, steps: seq<Step>, i: nat, k: nat) returns (e: nat)
    requires IsRun(capacity, states, steps) && i < |states| && states[i].source == Some(k)
    ensures e < i && steps[e] == ArmEmplace && states[e].nextSource == k
    ensures forall j :: e < j < i ==> steps[j] != DisarmReset && steps[j] != ArmEmplace
  {
    if steps[i - 1] == ArmEmplace {
      e := i - 1;
    } else {
      SourceKept(capacity, states[i - 1], steps[i - 1]);
      e := ArmedSince(capacity, states, steps, i - 1, k);
    }
  }

  lemma {:induction false} SourceKept(capacity: nat, s: State, step: Step)
    requires Enabled(s, step) && step != ArmEmplace && Apply(capacity, s, step).source.Some?
    ensures step != DisarmReset && s.source == Apply(capacity, s, step).source
  {
  }

  lemma {:induction false} SourcesGrow(capacity: nat, states: seq<State>, steps: seq<Step>, i: nat, j: nat)
    requires IsRun(capacity, states, steps) && i <= j < |states|
    ensures states[i].nextSource <= states[j].nextSource
  {
    if i < j { SourcesGrow(capacity, states, steps, i, j - 1); }
  }

  /** The processed sequence never decreases. */
  lemma {:induction false} ProcessedNeverDecreases(
      capacity: nat, states: seq<State>, steps: seq<Step>, i: nat, j: nat)
    requires capacity >= 1 && IsRun(capacity, states, steps) && i <= j < |states|
    ensures states[i].lastProcessedSignalSeq <= states[j].lastProcessedSignalSeq
  {
    if i < j {
      ProcessedNeverDecreases(capacity, states, steps, i, j - 1);
      RunInv(capacity, states, steps, j - 1);
      StepCounts(capacity, states[j - 1], steps[j - 1]);
    }
  }

  /** The handler's own methods, each run without interruption: a fixed sequence of the steps. */
  class QueryInterruptHandler {
    const capacity: nat
    const startSeq: nat
    var signalSeq: nat
    var unwritten: nat
    var pipe: nat
    var source: Option<nat>
    var armSignalSeq: nat
    var lastProcessedSignalSeq: nat
    var nextSource: nat
    var cancelled: set<nat>
    var snapshots: map<nat, nat>

    /** The protocol state between two methods: the mutex is free and the drain thread blocked. */
    ghost function View(): State
      reads this
    {
      State(startSeq, signalSeq, unwritten, pipe, Free, source, armSignalSeq, lastProcessedSignalSeq, Reading,
        nextSource, cancelled, snapshots)
    }

    constructor (capacity: nat, signalSeq: nat)
      ensures this.capacity == capacity && View() == Initial(signalSeq)
    {
      this.capacity, this.startSeq, this.signalSeq := capacity, signalSeq, signalSeq;
      unwritten, pipe, source, armSignalSeq, lastProcessedSignalSeq := 0, 0, None, 0, 0;
      nextSource, cancelled, snapshots := 0, {}, map[];
    }

    /** The signal handler: bump before the wakeup; a write to a full pipe is ignored. */
    method HandleSignal()
      modifies this
      ensures View() == Apply(capacity, Apply(capacity, old(View()), Bump), Write)
    {
      signalSeq := signalSeq + 1;
      if pipe < capacity { pipe := pipe + 1; }
    }

    /** Creates a fresh source, over a snapshot of the signal count. */
    method Arm() returns (token: nat)
      modifies this
      ensures View() ==
              Apply(capacity, Apply(capacity, Apply(capacity, old(View()), ArmLock), ArmSnapshot), ArmEmplace)
      ensures source == Some(token) && token == old(nextSource)
    {
      armSignalSeq := signalSeq;
      source := Some(nextSource);
      snapshots := snapshots[nextSource := armSignalSeq];
      token := nextSource;
      nextSource := nextSource + 1;
    }

    method Disarm()
      modifies this
      ensures View() == Apply(capacity, Apply(capacity, old(View()), DisarmLock), DisarmReset)
      ensures source == None && cancelled == old(cancelled)
    {
      source := None;
    }

    /** One turn of the drain loop: one load of the count decides and is published. */
    method DrainOnce()
      requires pipe > 0
      modifies this
      ensures exists n: nat :: 1 <= n <= BUFFER && n <= old(pipe) && View() == Drained(capacity, old(View()), n)
    {
      ghost var before := View();
      var bytes := if pipe < BUFFER then pipe else BUFFER;
      pipe := pipe - bytes;
      var observedSeq := signalSeq;
      if source.Some? && observedSeq > armSignalSeq { cancelled := cancelled + {source.value}; }
      lastProcessedSignalSeq := observedSeq;
      assert View() == Drained(capacity, before, bytes);
    }
  }

  /** The steps of one turn of the drain loop. */
  ghost function Drained(capacity: nat, s: State, n: nat): State
    requires Enabled(s, Read(n)) && s.mutex.Free?
  {
    var read := Apply(capacity, s, Read(n));
    var loaded := Apply(capacity, read, Load);
    var locked := Apply(capacity, loaded, DrainLock);
    var decided := Apply(capacity, locked, Decide);
    Apply(capacity, decided, Publish)
  }
}
