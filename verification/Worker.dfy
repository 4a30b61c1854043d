// How a worker drives the two stores with what it holds.
module Workers {
  import opened Prelude
  import opened Retry
  import opened Runs
  import opened Cells
  import opened Queue
  import opened Memories
  import opened System
  import opened RunStores
  import opened MemoryStores

  // What an execution or a store call raised: a timeout, or anything else.
  datatype Cause = Timeout | Error(retryable: bool)

  // How the execution of a claimed run ends once its embedding configuration has been validated. A
  // raising success is caught like a raising execution, whether or not its transaction committed; a
  // cancellation, by lease loss or shutdown, calls nobody.
  datatype Ending =
    | Predicted(outcome: Outcome)
    | PredictedThenRaised(outcome: Outcome, committed: bool, cause: Cause)
    | Aborted(cause: Cause)
    | Cancelled

  function GiveUpFor(cause: Cause): Call {
    match cause
    case Timeout => GiveUp(RunTimeout, true)
    case Error(retryable) => GiveUp(ExecutionFailed, retryable)
  }

  // The calls that reach the tables, in order. A configuration of another space fails the run for good
  // before anything is recalled.
  function CallsFor(run: ClaimedRun, space: Space, execution: Ending): (calls: seq<Call>)
    ensures forall c :: c in calls ==> c.GiveUp? || (c.Finish? && Compatible(run.modelConfig, space))
  {
    if !Compatible(run.modelConfig, space) then [GiveUp(ExecutionFailed, false)]
    else
      match execution
      case Predicted(outcome) => [Finish(outcome)]
      case PredictedThenRaised(outcome, committed, cause) =>
        if committed then [Finish(outcome), GiveUpFor(cause)] else [GiveUpFor(cause)]
      case Aborted(cause) => [GiveUpFor(cause)]
      case Cancelled => []
  }

  // The tables after a worker made some calls about what it holds.
  function AfterCalls(q: Tables, w: WorkerId, hand: Hand, calls: seq<Call>, now: int): Tables
    requires !hand.Idle? && forall c :: c in calls ==> Fits(hand, c)
  {
    if calls == [] then q
    else
      On(AfterCalls(q, w, hand, calls[..|calls| - 1], now), Target(hand), ActionOf(w, hand, calls[|calls| - 1]), now)
  }

  lemma AfterOneOrTwo(q: Tables, w: WorkerId, hand: Hand, first: Call, second: Call, now: int)
    requires !hand.Idle? && Fits(hand, first) && Fits(hand, second)
    ensures AfterCalls(q, w, hand, [first], now) == On(q, Target(hand), ActionOf(w, hand, first), now)
    ensures AfterCalls(q, w, hand, [first, second], now)
            == On(On(q, Target(hand), ActionOf(w, hand, first), now), Target(hand), ActionOf(w, hand, second), now)
  {
    assert [first][..0] == [] && [first, second][..1] == [first];
  }

  method ProcessClaim(store: RunStore, run: ClaimedRun, space: Space, execution: Ending, now: int)
    requires store.Valid() && space.dim > 0
    modifies store
    ensures store.Valid()
    ensures var calls := CallsFor(run, space, execution);
            store.Db() == AfterCalls(old(store.Db()), run.workerId, Executing(run, now), calls, now)
    // A run that is no longer this worker's stays as it is, and a cancelled execution says nothing.
    ensures !old(store.Leased(run)) ==> store.Db() == old(store.Db())
    ensures Compatible(run.modelConfig, space) && execution.Cancelled? ==> store.Db() == old(store.Db())
    // A committed success, raised afterwards or not, holds what was predicted, with its event and summary.
    ensures old(store.Leased(run)) && Compatible(run.modelConfig, space)
            && (execution.Predicted? || (execution.PredictedThenRaised? && execution.committed)) ==>
              && run.id in store.runs && store.runs[run.id].status == Succeeded && store.runs[run.id].outcome.Some?
              && store.runs[run.id].outcome.value.answer == execution.outcome.answer
              && store.runs[run.id].outcome.value.evidence == execution.outcome.evidence
              && store.runs[run.id].outcome.value.usage == execution.outcome.usage
              && store.runs[run.id].outcome.value.recalled == execution.outcome.recalled
              && (store.runs[run.id].spec.includeTrajectory ==>
                    store.runs[run.id].outcome.value.trajectory == execution.outcome.trajectory)
              && run.id in store.outbox
              && (run.id !in old(store.outbox) ==>
                    store.outbox[run.id].content
                    == execution.outcome.answer[..Min(|execution.outcome.answer|, 12000)])
              && store.events[run.id] == Append(old(store.events)[run.id], SucceededEvent(run.attempts), now)
    // A failure without a committed success leaves its error, and the run is queued again exactly if the
    // cause allows it and attempts are left. A foreign configuration fails it for good.
    ensures old(store.Leased(run)) && Compatible(run.modelConfig, space)
            && 1 <= run.attempts <= run.maxAttempts
            && (execution.Aborted? || (execution.PredictedThenRaised? && !execution.committed)) ==>
              && run.id in store.runs
              && store.runs[run.id].error == Some(if execution.cause.Timeout? then RunTimeout else ExecutionFailed)
              && store.runs[run.id].status
                 == if run.attempts < run.maxAttempts && (execution.cause.Timeout? || execution.cause.retryable)
                    then Queued else Failed
    ensures old(store.Leased(run)) && !Compatible(run.modelConfig, space)
            && 1 <= run.attempts <= run.maxAttempts ==>
              && run.id in store.runs && store.runs[run.id].status == Failed
              && store.runs[run.id].error == Some(ExecutionFailed)
  {
    ghost var q, hand := store.Db(), Executing(run, now);
    if !Compatible(run.modelConfig, space) {
      AfterOneOrTwo(q, run.workerId, hand, GiveUp(ExecutionFailed, false), Beat, now);
      var r := store.Fail(run, ExecutionFailed, false, now);
      return;
    }
    match execution
    case Predicted(outcome) =>
      AfterOneOrTwo(q, run.workerId, hand, Finish(outcome), Beat, now);
      RecordSuccess(store, run, outcome, now);
    case PredictedThenRaised(outcome, committed, cause) =>
      var first := if committed then Finish(outcome) else GiveUpFor(cause);
      AfterOneOrTwo(q, run.workerId, hand, first, GiveUpFor(cause), now);
      if committed {
        RecordSuccess(store, run, outcome, now);
      }
      RecordFailure(store, run, cause, now);
    case Aborted(cause) =>
      AfterOneOrTwo(q, run.workerId, hand, GiveUpFor(cause), Beat, now);
      RecordFailure(store, run, cause, now);
    case Cancelled =>
  }

  method RecordSuccess(store: RunStore, run: ClaimedRun, outcome: Outcome, now: int)
    requires store.Valid()
    modifies store
    ensures store.Valid()
    ensures store.Db() == On(old(store.Db()), run.id, ActionOf(run.workerId, Executing(run, now), Finish(outcome)), now)
    ensures if old(store.Leased(run)) && SpaceOk(run.modelConfig)
            then
              && run.id in store.runs && store.runs[run.id].status == Succeeded && store.runs[run.id].outcome.Some?
              && store.runs[run.id].outcome.value.answer == outcome.answer
              && store.runs[run.id].outcome.value.evidence == outcome.evidence
              && store.runs[run.id].outcome.value.usage == outcome.usage
              && store.runs[run.id].outcome.value.recalled == outcome.recalled
              && (store.runs[run.id].spec.includeTrajectory ==>
                    store.runs[run.id].outcome.value.trajectory == outcome.trajectory)
              && run.id in store.outbox
              && (run.id !in old(store.outbox) ==>
                    store.outbox[run.id].content == outcome.answer[..Min(|outcome.answer|, 12000)])
              && store.events[run.id] == Append(old(store.events)[run.id], SucceededEvent(run.attempts), now)
            else store.Db() == old(store.Db())
  {
    var summary := outcome.answer[..Min(|outcome.answer|, 12000)];
    var persisted := store.Succeed(run, outcome, summary, SummaryMetadata(run.id, outcome.recalled), now);
  }

  method RecordFailure(store: RunStore, run: ClaimedRun, cause: Cause, now: int)
    requires store.Valid()
    modifies store
    ensures store.Valid()
    ensures var a := ActionOf(run.workerId, Executing(run, now), GiveUpFor(cause));
            store.Db() == On(old(store.Db()), run.id, a, now)
    ensures if old(store.Leased(run)) && 1 <= run.attempts <= run.maxAttempts
            then
              && run.id in store.runs
              && store.runs[run.id].error == Some(if cause.Timeout? then RunTimeout else ExecutionFailed)
              && store.runs[run.id].status
                 == if run.attempts < run.maxAttempts && (cause.Timeout? || cause.retryable) then Queued else Failed
            else store.Db() == old(store.Db())
  {
    match cause
    case Timeout => var r := store.Fail(run, RunTimeout, true, now);
    case Error(retryable) => var r := store.Fail(run, ExecutionFailed, retryable, now);
  }

  // How a call of a store ends: as it should, by raising without effect, or by raising although it
  // committed.
  datatype Fault = NoFault | RolledBack | ReplyLost

  predicate Matching(item: SummaryItem, space: Space) {
    Space(item.embeddingModel, item.embeddingDim) == space
  }

  predicate Written(item: SummaryItem, space: Space, vectors: seq<seq<real>>, writing: Fault) {
    Matching(item, space) && !writing.RolledBack? && Embedding(vectors, space.dim).Ok?
  }

  // The calls about a held summary: a foreign one is put back untouched; any other is completed only
  // after a write that answered, and put back if the write or the completion raises.
  function Settlement(item: SummaryItem, space: Space, vectors: seq<seq<real>>, writing: Fault, completing: Fault)
    : (calls: seq<Call>)
    ensures forall c :: c in calls ==> c.Retry? || (c.Complete? && Written(item, space, vectors, writing))
  {
    if !Matching(item, space) then [Retry(EmbeddingConfigurationMismatch)]
    else if !writing.NoFault? || Embedding(vectors, space.dim).Err? then [Retry(SummaryDeliveryFailed)]
    else
      match completing
      case NoFault => [Complete]
      case RolledBack => [Retry(SummaryDeliveryFailed)]
      case ReplyLost => [Complete, Retry(SummaryDeliveryFailed)]
  }

  method DeliverSummary(store: RunStore, memory: MemoryStore, item: SummaryItem, id: MemoryId,
                        vectors: seq<seq<real>>, writing: Fault, completing: Fault, now: int)
    requires store.Valid() && id !in memory.items && UniqueSources(memory.items) && item.attempts >= 1
    modifies store, memory
    ensures store.Valid() && UniqueSources(memory.items)
    ensures memory.items == if Written(item, memory.space, vectors, writing)
                            then Upsert(old(memory.items), id, SummaryMemory(item, memory.space, now))
                            else old(memory.items)
    ensures store.Db() == AfterCalls(old(store.Db()), item.workerId, Delivering(item, true),
                                     Settlement(item, memory.space, vectors, writing, completing), now)
    // A summary that is no longer this worker's stays as it is.
    ensures !old(store.InHand(item)) ==> store.Db() == old(store.Db())
    // Written with an answer, and completed, answer or not: it is done. Otherwise it is put back for the
    // delay of its attempt, with the reason.
    ensures var own := item.embeddingModel == memory.space.model && item.embeddingDim == memory.space.dim;
            var written := own && writing.NoFault? && |vectors| == 1 && |vectors[0]| == memory.space.dim;
            old(store.InHand(item)) && written && !completing.RolledBack? ==>
              && item.runId in store.outbox && store.outbox[item.runId].completedAt == Some(now)
              && store.outbox[item.runId].lastError == None
    ensures var own := item.embeddingModel == memory.space.model && item.embeddingDim == memory.space.dim;
            var written := own && writing.NoFault? && |vectors| == 1 && |vectors[0]| == memory.space.dim;
            old(store.InHand(item)) && !(written && !completing.RolledBack?) ==>
              && item.runId in store.outbox && store.outbox[item.runId].completedAt == None
              && store.outbox[item.runId].claimedBy == None
              && store.outbox[item.runId].availableAt == now + IdealDelay(item.attempts, 900)
              && store.outbox[item.runId].lastError
                 == Some(if own then SummaryDeliveryFailed else EmbeddingConfigurationMismatch)
    // The memory it adds, unless the run has one already.
    ensures item.embeddingModel == memory.space.model && item.embeddingDim == memory.space.dim
            && !writing.RolledBack? && |vectors| == 1 && |vectors[0]| == memory.space.dim ==>
              exists i :: i in memory.items && memory.items[i].sourceRun == Some(item.runId)
                          && (memory.items[i].tenant, memory.items[i].subject, memory.items[i].namespace)
                             == (item.tenant, item.subject, item.namespace)
                          && (i !in old(memory.items) ==>
                                && memory.items[i].kind == RunSummary && memory.items[i].content == item.content
                                && memory.items[i].metadata == item.metadata && memory.items[i].importance == 0.55
                                && memory.items[i].space == memory.space && memory.items[i].expiresAt == None)
  {
    if Space(item.embeddingModel, item.embeddingDim) != memory.space {
      ghost var hand := Delivering(item, true);
      AfterOneOrTwo(store.Db(), item.workerId, hand, Retry(EmbeddingConfigurationMismatch), Complete, now);
      var retried := store.RetrySummary(item, EmbeddingConfigurationMismatch, now);
      return;
    }
    var written := WriteUnlessFaulty(memory, item, id, vectors, writing, now);
    CompleteOrPutBack(store, item, written, completing, now);
  }

  // A summary whose write answered is completed; it is put back if the write or the completion raised.
  method CompleteOrPutBack(store: RunStore, item: SummaryItem, written: bool, completing: Fault, now: int)
    requires store.Valid() && item.attempts >= 1
    modifies store
    ensures store.Valid()
    ensures var calls := if !written || completing.RolledBack? then [Retry(SummaryDeliveryFailed)]
                         else if completing.NoFault? then [Complete] else [Complete, Retry(SummaryDeliveryFailed)];
            store.Db() == AfterCalls(old(store.Db()), item.workerId, Delivering(item, true), calls, now)
    ensures !old(store.InHand(item)) ==> store.Db() == old(store.Db())
    ensures old(store.InHand(item)) && written && !completing.RolledBack? ==>
              && item.runId in store.outbox && store.outbox[item.runId].completedAt == Some(now)
              && store.outbox[item.runId].lastError == None
    ensures old(store.InHand(item)) && !(written && !completing.RolledBack?) ==>
              && item.runId in store.outbox && store.outbox[item.runId].completedAt == None
              && store.outbox[item.runId].claimedBy == None
              && store.outbox[item.runId].availableAt == now + IdealDelay(item.attempts, 900)
              && store.outbox[item.runId].lastError == Some(SummaryDeliveryFailed)
  {
    ghost var q, hand := store.Db(), Delivering(item, true);
    AfterOneOrTwo(q, item.workerId, hand, Retry(SummaryDeliveryFailed), Complete, now);
    AfterOneOrTwo(q, item.workerId, hand, Complete, Retry(SummaryDeliveryFailed), now);
    var answered := written;
    if answered && !completing.RolledBack? {
      var completed := store.CompleteSummary(item, now);
      answered := completing.NoFault?;
    } else {
      answered := false;
    }
    if !answered {
      var retried := store.RetrySummary(item, SummaryDeliveryFailed, now);
    }
  }

  // The write of a summary, and whether it answered.
  method WriteUnlessFaulty(memory: MemoryStore, item: SummaryItem, id: MemoryId, vectors: seq<seq<real>>,
                           writing: Fault, now: int)
    returns (answered: bool)
    requires id !in memory.items && UniqueSources(memory.items) && Matching(item, memory.space)
    modifies memory
    ensures UniqueSources(memory.items)
    ensures answered <==> writing.NoFault? && Embedding(vectors, memory.space.dim).Ok?
    ensures memory.items == if Written(item, memory.space, vectors, writing)
                            then Upsert(old(memory.items), id, SummaryMemory(item, memory.space, now))
                            else old(memory.items)
    ensures !writing.RolledBack? && |vectors| == 1 && |vectors[0]| == memory.space.dim ==>
              exists i :: i in memory.items && memory.items[i].sourceRun == Some(item.runId)
                          && (memory.items[i].tenant, memory.items[i].subject, memory.items[i].namespace)
                             == (item.tenant, item.subject, item.namespace)
                          && (i !in old(memory.items) ==>
                                && memory.items[i].kind == RunSummary && memory.items[i].content == item.content
                                && memory.items[i].metadata == item.metadata && memory.items[i].importance == 0.55
                                && memory.items[i].space == memory.space && memory.items[i].expiresAt == None)
  {
    if writing.RolledBack? {
      return false;
    }
    var m := SummaryMemory(item, memory.space, now);
    UpsertKeepsUnique(memory.items, id, m);
    var written := memory.Write(id, m, vectors);
    return written.Ok? && writing.NoFault?;
  }
}
