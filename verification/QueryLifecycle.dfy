/** A query from its first chunk to its completion callback: the telemetry finalizer, the
    generator that streams a query's chunks, and their materialization. */
module QueryLifecycle {
  import opened Wrappers

  datatype RowBatch = RowBatch(ty: string, rows: seq<string>)

  datatype Chunk = Message(text: string) | Batch(batch: RowBatch) | EmptyType(ty: string)

  /** What the body of a query can throw. */
  datatype Failure =
    | OperationCancelled
    | VeloxError(message: string)
    | PrestoError(message: string)
    | StandardException(message: string)
    | NonStandard

  function MessageOf(f: Failure): string
    requires !f.OperationCancelled?
  {
    if f.NonStandard? then "Non-standard exception" else f.message
  }

  /** What the completion callback is told. */
  datatype Completion = Completion(numOutputRows: int, cancelled: bool, error: Option<string>)

  function RowsOf(c: Chunk): nat {
    if c.Batch? then |c.batch.rows| else 0
  }

  function TotalRows(chunks: seq<Chunk>): nat {
    if chunks == [] then 0 else TotalRows(chunks[..|chunks| - 1]) + RowsOf(chunks[|chunks| - 1])
  }

  // ----- The finalizer.

  /** completions: the calls of the completion callback so far, none of which throws further. */
  datatype Finalizer = Finalizer(
    numOutputRows: int, finalized: bool, cancelled: bool, error: Option<string>, completions: seq<Completion>)

  const Fresh := Finalizer(0, false, false, None, [])

  function Finalize(f: Finalizer): Finalizer {
    f.(finalized := true, completions := f.completions + [Completion(f.numOutputRows, f.cancelled, f.error)])
  }

  function Cancel(f: Finalizer): Finalizer {
    if f.finalized then f else Finalize(f.(cancelled := true))
  }

  function FailWith(f: Finalizer, message: string): Finalizer {
    Finalize(f.(error := Some(message)))
  }

  class QueryFinalizer {
    var numOutputRows: int
    var finalized: bool
    var cancelled: bool
    var error: Option<string>
    var completions: seq<Completion>

    function View(): Finalizer
      reads this
    {
      Finalizer(numOutputRows, finalized, cancelled, error, completions)
    }

    constructor ()
      ensures View() == Fresh
    {
      numOutputRows, finalized, cancelled, error, completions := 0, false, false, None, [];
    }

    method AddOutputRows(rows: nat)
      modifies this`numOutputRows
      ensures numOutputRows == old(numOutputRows) + rows
    {
      numOutputRows := numOutputRows + rows;
    }

    method Complete()
      modifies this`finalized, this`completions
      ensures View() == Finalize(old(View()))
    {
      finalized := true;
      completions := completions + [Completion(numOutputRows, cancelled, error)];
    }

    method Succeed()
      modifies this`finalized, this`completions
      ensures View() == Finalize(old(View()))
    {
      Complete();
    }

    method CancelUnfinished()
      modifies this`finalized, this`completions, this`cancelled
      ensures View() == Cancel(old(View()))
    {
      if finalized { return; }
      cancelled := true;
      Complete();
    }

    method FailQuery(f: Failure)
      requires !f.OperationCancelled?
      modifies this`finalized, this`completions, this`error
      ensures View() == FailWith(old(View()), MessageOf(f))
    {
      error := Some(MessageOf(f));
      Complete();
    }
  }

  // ----- The generator as steps, interleaved with its consumer.

  /** How the generator ended. Rejected: before there was a finalizer. Discarded: before it was
      first resumed. */
  datatype Ending = Succeeded | Threw(failure: Failure) | CleanedUp | Rejected | Discarded

  datatype Phase = Unstarted | Running | Suspended | Ended(ending: Ending)

  datatype State = State(phase: Phase, finalizer: Finalizer, delivered: seq<Chunk>)

  const Created := State(Unstarted, Fresh, [])

  /** Begin: the first resumption; installs the finalizer unless the connector context cannot be
      made or the start callback throws something that is no std::exception. */
  datatype Action =
    | Begin(contextMade: bool, startThrowsNonStandard: bool)
    | Yield(chunk: Chunk)
    | Throw(failure: Failure)
    | Return
    | Resume
    | CleanUp

  /** The exit of the scope that owns the finalizer. */
  function Leave(s: State, f: Finalizer, ending: Ending): State {
    s.(phase := Ended(ending), finalizer := Cancel(f))
  }

  function Step(s: State, a: Action): Option<State> {
    match (s.phase, a)
    case (Unstarted, Begin(contextMade, startThrowsNonStandard)) =>
      Some(s.(phase := if !contextMade || startThrowsNonStandard then Ended(Rejected) else Running))
    case (Unstarted, CleanUp) => Some(s.(phase := Ended(Discarded)))
    case (Running, Yield(c)) =>
      Some(State(Suspended, s.finalizer.(numOutputRows := s.finalizer.numOutputRows + RowsOf(c)), s.delivered + [c]))
    case (Running, Throw(f)) =>
      if f.OperationCancelled? then Some(Leave(s, Cancel(s.finalizer), Threw(f)))
      else Some(Leave(s, FailWith(s.finalizer, MessageOf(f)), Threw(f)))
    case (Running, Return) => Some(Leave(s, Finalize(s.finalizer), Succeeded))
    case (Suspended, Resume) => Some(s.(phase := Running))
    case (Suspended, CleanUp) => Some(Leave(s, s.finalizer, CleanedUp))
    case _ => None
  }

  ghost predicate Installed(s: State) {
    s.phase.Running? || s.phase.Suspended? || (s.phase.Ended? && !s.phase.ending.Rejected? && !s.phase.ending.Discarded?)
  }

  /** What the callback must have been told. */
  ghost function Expected(ending: Ending, rows: nat): Completion {
    Completion(rows, ending.CleanedUp? || ending == Threw(OperationCancelled),
      if ending.Threw? && !ending.failure.OperationCancelled? then Some(MessageOf(ending.failure)) else None)
  }

  ghost predicate Inv(s: State) {
    && s.finalizer.numOutputRows == TotalRows(s.delivered)
    && (if s.phase.Ended? && Installed(s) then
          s.finalizer.finalized && s.finalizer.completions == [Expected(s.phase.ending, TotalRows(s.delivered))]
        else
          s.finalizer == Fresh.(numOutputRows := s.finalizer.numOutputRows))
    && (!Installed(s) ==> s.delivered == [])
  }

  lemma {:induction false} StepInv(s: State, a: Action)
    requires Inv(s) && Step(s, a).Some?
    ensures Inv(Step(s, a).value)
  {
    if a.Yield? { assert (s.delivered + [a.chunk])[..|s.delivered|] == s.delivered; }
  }

  ghost predicate Reachable(s: State, steps: nat)
    decreases steps
  {
    if steps == 0 then s == Created
    else exists p, a :: Reachable(p, steps - 1) && Step(p, a) == Some(s)
  }

  lemma {:induction false} ReachableInv(s: State, steps: nat)
    requires Reachable(s, steps)
    ensures Inv(s)
    decreases steps
  {
    if steps > 0 {
      var p, a :| Reachable(p, steps - 1) && Step(p, a) == Some(s);
      ReachableInv(p, steps - 1);
      StepInv(p, a);
    }
  }

  /** Whichever way and whenever a query that installed its finalizer ends, the callback fired
      exactly once, with the rows of the delivered batches; it says cancelled exactly for a
      cancellation or an early stop, and has an error exactly for another failure. Until the
      end, and for a query that never installed one, it has not fired. */
  lemma {:induction false} CompletedExactlyOnce(s: State, steps: nat)
    requires Reachable(s, steps)
    ensures |s.finalizer.completions| == if s.phase.Ended? && Installed(s) then 1 else 0
    ensures s.phase.Ended? && Installed(s) ==>
              var c := s.finalizer.completions[0];
              && c.numOutputRows == TotalRows(s.delivered)
              && (c.cancelled <==> s.phase.ending == CleanedUp || s.phase.ending == Threw(OperationCancelled))
              && (c.error.Some? <==> s.phase.ending.Threw? && s.phase.ending != Threw(OperationCancelled))
              && !(c.cancelled && c.error.Some?)
              && (c.error.Some? ==>
                    match s.phase.ending.failure
                    case VeloxError(message) => c.error.value == message
                    case PrestoError(message) => c.error.value == message
                    case StandardException(message) => c.error.value == message
                    case NonStandard => c.error.value == "Non-standard exception"
                    case OperationCancelled => false)
  {
    ReachableInv(s, steps);
  }

  /** A query that has started and not ended can always be cleaned up or go on: no step leaves
      it stuck. */
  lemma {:induction false} NeverStuck(s: State)
    ensures !s.phase.Ended? <==> exists a :: Step(s, a).Some?
  {
    match s.phase
    case Unstarted => assert Step(s, CleanUp).Some?;
    case Running => assert Step(s, Return).Some?;
    case Suspended => assert Step(s, Resume).Some?;
    case Ended(_) =>
  }

  // ----- The generator run against a consumer that asks a number of times, then cleans up.

  /** prepare: what parsing or the permission check throws. chunks, end: what running the
      statement yields, and then throws. */
  method CoRun(contextMade: bool, startThrowsNonStandard: bool, prepare: Option<Failure>, chunks: seq<Chunk>, end: Option<Failure>, demand: nat)
    returns (delivered: seq<Chunk>, completions: seq<Completion>)
    ensures delivered == if demand == 0 || !contextMade || startThrowsNonStandard || prepare.Some? then []
                         else if demand <= |chunks| then chunks[..demand] else chunks
    ensures completions ==
            if demand == 0 || !contextMade || startThrowsNonStandard then []
            else [Expected(
                    if prepare.Some? then Threw(prepare.value)
                    else if demand <= |chunks| then CleanedUp
                    else if end.Some? then Threw(end.value)
                    else Succeeded,
                    TotalRows(delivered))]
  {
    delivered, completions := [], [];
    if demand == 0 || !contextMade || startThrowsNonStandard { return; }
    var finalizer := new QueryFinalizer();
    if prepare.Some? {
      CatchFailure(finalizer, prepare.value);
    } else {
      delivered := Deliver(finalizer, chunks, demand);
      if demand > |chunks| {
        if end.Some? { CatchFailure(finalizer, end.value); } else { finalizer.Succeed(); }
      }
    }
    finalizer.CancelUnfinished();
    completions := finalizer.completions;
  }

  /** Hands chunks over until there are no more or none is asked for. */
  method Deliver(finalizer: QueryFinalizer, chunks: seq<Chunk>, demand: nat) returns (delivered: seq<Chunk>)
    requires finalizer.View() == Fresh
    modifies finalizer
    ensures delivered == if demand <= |chunks| then chunks[..demand] else chunks
    ensures finalizer.View() == Fresh.(numOutputRows := TotalRows(delivered))
  {
    delivered := [];
    var i := 0;
    while i < |chunks| && i < demand
      invariant i <= |chunks| && i <= demand && delivered == chunks[..i]
      invariant finalizer.View() == Fresh.(numOutputRows := TotalRows(delivered))
    {
      if chunks[i].Batch? { finalizer.AddOutputRows(|chunks[i].batch.rows|); }
      assert (delivered + [chunks[i]])[..i] == delivered;
      delivered := delivered + [chunks[i]];
      i := i + 1;
    }
    assert chunks[..|chunks|] == chunks;
  }

  method CatchFailure(finalizer: QueryFinalizer, f: Failure)
    modifies finalizer
    ensures finalizer.View() ==
            if f.OperationCancelled? then Cancel(old(finalizer.View())) else FailWith(old(finalizer.View()), MessageOf(f))
  {
    if f.OperationCancelled? { finalizer.CancelUnfinished(); } else { finalizer.FailQuery(f); }
  }

  // ----- Plan statements, and a stream turned into one result.

  /** The chunks of a statement with a plan. Only a SELECT has a type for an empty result. */
  method PlanStatement(batches: seq<RowBatch>, selectType: Option<string>) returns (chunks: seq<Chunk>)
    ensures chunks == PlanChunks(batches, selectType)
  {
    chunks := [];
    for i := 0 to |batches|
      invariant chunks == BatchChunks(batches[..i])
    {
      chunks := chunks + [Batch(batches[i])];
    }
    assert batches[..|batches|] == batches;
    if batches == [] && selectType.Some? { chunks := chunks + [EmptyType(selectType.value)]; }
  }

  function BatchChunks(batches: seq<RowBatch>): seq<Chunk> {
    seq(|batches|, i requires 0 <= i < |batches| => Batch(batches[i]))
  }

  function PlanChunks(batches: seq<RowBatch>, selectType: Option<string>): seq<Chunk> {
    if batches == [] && selectType.Some? then [EmptyType(selectType.value)] else BatchChunks(batches)
  }

  /** CheckFailed: the check that a result type is set. */
  datatype SqlResult = Text(text: string) | Rows(batches: seq<RowBatch>) | Empty(ty: string) | CheckFailed

  function BatchesOf(chunks: seq<Chunk>): seq<RowBatch> {
    if chunks == [] then []
    else
      var n := |chunks| - 1;
      BatchesOf(chunks[..n]) + if chunks[n].Batch? then [chunks[n].batch] else []
  }

  predicate LastMessage(chunks: seq<Chunk>, i: nat) {
    i < |chunks| && chunks[i].Message? && forall j :: i < j < |chunks| ==> !chunks[j].Message?
  }

  /** The last message wins; else all batches, in order; else the last type. */
  ghost predicate Materialized(chunks: seq<Chunk>, r: SqlResult) {
    match r
    case Text(text) => exists i: nat :: LastMessage(chunks, i) && chunks[i] == Message(text)
    case Rows(batches) =>
      (forall i :: 0 <= i < |chunks| ==> !chunks[i].Message?) && batches == BatchesOf(chunks) && batches != []
    case Empty(ty) =>
      && (forall i :: 0 <= i < |chunks| ==> chunks[i].EmptyType?)
      && chunks != [] && chunks[|chunks| - 1] == EmptyType(ty)
    case CheckFailed => chunks == []
  }

  method MaterializeResult(chunks: seq<Chunk>) returns (r: SqlResult)
    ensures Materialized(chunks, r)
  {
    var message: Option<string>, ty: Option<string>, results: seq<RowBatch> := None, None, [];
    ghost var lastMessage: nat := 0;
    for i := 0 to |chunks|
      invariant message.Some? ==>
        LastMessage(chunks[..i], lastMessage) && chunks[lastMessage] == Message(message.value)
      invariant message.None? ==> forall j :: 0 <= j < i ==> !chunks[j].Message?
      invariant results == BatchesOf(chunks[..i])
      invariant results == [] ==> forall j :: 0 <= j < i ==> !chunks[j].Batch?
      invariant message.None? && results == [] && i > 0 ==> ty.Some? && chunks[i - 1] == EmptyType(ty.value)
      invariant i == 0 ==> ty.None?
    {
      assert chunks[..i + 1][..i] == chunks[..i];
      match chunks[i]
      case Message(text) => message, lastMessage := Some(text), i;
      case Batch(batch) => results := results + [batch];
      case EmptyType(t) => ty := Some(t);
    }
    assert chunks[..|chunks|] == chunks;
    if message.Some? { return Text(message.value); }
    if results != [] { return Rows(results); }
    if ty.None? { return CheckFailed; }
    return Empty(ty.value);
  }

  /** The result a stream materializes to is unique. */
  lemma {:induction false} MaterializedOnce(chunks: seq<Chunk>, r: SqlResult, q: SqlResult)
    requires Materialized(chunks, r) && Materialized(chunks, q)
    ensures r == q
  {
    if r.Empty? || q.Empty? { NoBatches(chunks); }
    if r.Text? && q.Text? {
      var i: nat :| LastMessage(chunks, i) && chunks[i] == Message(r.text);
      var j: nat :| LastMessage(chunks, j) && chunks[j] == Message(q.text);
      assert i == j;
    }
  }

  lemma {:induction false} NoBatches(chunks: seq<Chunk>)
    requires forall i :: 0 <= i < |chunks| ==> !chunks[i].Batch?
    ensures BatchesOf(chunks) == []
  {
    if chunks != [] { NoBatches(chunks[..|chunks| - 1]); }
  }

  lemma {:induction false} BatchChunksKeepBatches(batches: seq<RowBatch>)
    ensures BatchesOf(BatchChunks(batches)) == batches
  {
    if batches != [] {
      var n := |batches| - 1;
      BatchChunksKeepBatches(batches[..n]);
      assert BatchChunks(batches)[..n] == BatchChunks(batches[..n]);
      assert batches == batches[..n] + [batches[n]];
    }
  }

  /** A statement with a plan materializes to exactly its batches; without any, a SELECT to its
      type. Any other statement then fails the check, after its completion said it succeeded. */
  lemma {:induction false} PlanMaterializes(batches: seq<RowBatch>, selectType: Option<string>, r: SqlResult)
    requires Materialized(PlanChunks(batches, selectType), r)
    ensures r == if batches != [] then Rows(batches) else if selectType.Some? then Empty(selectType.value) else CheckFailed
  {
    BatchChunksKeepBatches(batches);
    var chunks := PlanChunks(batches, selectType);
    assert batches != [] ==> chunks[0].Batch?;
    assert forall i :: 0 <= i < |chunks| ==> !chunks[i].Message?;
  }

  function RowsIn(batches: seq<RowBatch>): nat {
    if batches == [] then 0 else RowsIn(batches[..|batches| - 1]) + |batches[|batches| - 1].rows|
  }

  /** The reported row count is that of the materialized batches. */
  lemma {:induction false} RowsConserved(chunks: seq<Chunk>)
    ensures TotalRows(chunks) == RowsIn(BatchesOf(chunks))
  {
    if chunks != [] {
      var n := |chunks| - 1;
      RowsConserved(chunks[..n]);
      assert BatchesOf(chunks[..n]) + [] == BatchesOf(chunks[..n]);
      if chunks[n].Batch? { assert BatchesOf(chunks)[..|BatchesOf(chunks)| - 1] == BatchesOf(chunks[..n]); }
    }
  }
}
