// One run as the tables hold it: its row, its event log and its outbox item, and what each
// statement group of the store does to them.
module Cells {
  import opened Prelude
  import opened Retry
  import opened Runs

  datatype EventKind =
    | QueuedEvent(attempt: int)
    | StartedEvent(attempt: int, worker: WorkerId)
    | RetryEvent(attempt: int, delay: int)
    | StaleEvent(attempt: int)
    | SucceededEvent(attempt: int)
    | FailedEvent(attempt: int)
    | QuarantinedEvent            // event type "failed" with only an error in its payload
    | LeaseLostEvent(attempt: int, worker: WorkerId)

  datatype Event = Event(sequence: int, kind: EventKind, createdAt: int)

  datatype Cell = Cell(row: Row, log: seq<Event>, item: Option<Item>)

  datatype Action =
    | Start(worker: WorkerId)
    | Quarantine(worker: WorkerId)
    | Heartbeat(token: ClaimedRun)
    | Succeed(token: ClaimedRun, outcome: Outcome, content: string, metadata: Json)
    | Fail(token: ClaimedRun, error: ErrorCode, retryable: bool)
    | Recover(staleSeconds: int)
    | LoseLease(token: ClaimedRun)
    | ClaimItem(worker: WorkerId, staleSeconds: int)
    | RejectItem(worker: WorkerId)
    | CompleteItem(summary: SummaryItem)
    | RetryItem(summary: SummaryItem, error: ErrorCode)

  // ---- event log -------------------------------------------------------------------------------

  function MaxSequence(log: seq<Event>): int {
    if log == [] then 0
    else
      var m := MaxSequence(log[..|log| - 1]);
      if log[|log| - 1].sequence > m then log[|log| - 1].sequence else m
  }

  function Append(log: seq<Event>, kind: EventKind, now: int): seq<Event> {
    log + [Event(MaxSequence(log) + 1, kind, now)]
  }

  // Sequence numbers are exactly 1, 2, ..., n.
  ghost predicate Numbered(log: seq<Event>) {
    forall i :: 0 <= i < |log| ==> log[i].sequence == i + 1
  }

  lemma {:induction false} NumberedMax(log: seq<Event>)
    requires Numbered(log)
    ensures MaxSequence(log) == |log|
  {
    if log != [] {
      NumberedMax(log[..|log| - 1]);
    }
  }

  lemma AppendNumbered(log: seq<Event>, kind: EventKind, now: int)
    requires Numbered(log)
    ensures Numbered(Append(log, kind, now))
  {
    NumberedMax(log);
  }

  // What a log says about its run; Broken is a log no run can have.
  datatype Phase = Absent | At(status: RunStatus, attempts: int) | Broken

  function Advance(p: Phase, kind: EventKind): Phase {
    match kind
    case LeaseLostEvent(_, _) => if p.Absent? then Broken else p
    case QueuedEvent(a) => if p.Absent? && a == 0 then At(Queued, 0) else Broken
    case StartedEvent(a, _) => if p.At? && p.status == Queued && a == p.attempts + 1 then At(Running, a) else Broken
    case RetryEvent(a, _) => if p == At(Running, a) then At(Queued, a) else Broken
    case StaleEvent(a) => if p == At(Running, a) then At(Queued, a) else Broken
    case SucceededEvent(a) => if p == At(Running, a) then At(Succeeded, a) else Broken
    case FailedEvent(a) => if p == At(Running, a) then At(Failed, a) else Broken
    case QuarantinedEvent => if p.At? && p.status == Queued then At(Failed, p.attempts + 1) else Broken
  }

  function Replay(log: seq<Event>): Phase {
    if log == [] then Absent else Advance(Replay(log[..|log| - 1]), log[|log| - 1].kind)
  }

  lemma ReplayAppend(log: seq<Event>, kind: EventKind, now: int)
    ensures Replay(Append(log, kind, now)) == Advance(Replay(log), kind)
  {
    assert Append(log, kind, now)[..|log|] == log;
  }

  // The times at which attempts were started.
  function StartTimes(log: seq<Event>): seq<int> {
    if log == [] then []
    else
      var front := StartTimes(log[..|log| - 1]);
      if log[|log| - 1].kind.StartedEvent? then front + [log[|log| - 1].createdAt] else front
  }

  lemma StartTimesAppend(log: seq<Event>, kind: EventKind, now: int)
    ensures StartTimes(Append(log, kind, now)) ==
            if kind.StartedEvent? then StartTimes(log) + [now] else StartTimes(log)
  {
    assert Append(log, kind, now)[..|log|] == log;
  }

  // Each start waits out the delay of the attempt before it.
  ghost predicate Spaced(times: seq<int>) {
    forall i :: 1 <= i < |times| ==> times[i] >= times[i - 1] + Delay(i)
  }

  // ---- statements ------------------------------------------------------------------------------

  predicate Eligible(row: Row, now: int) {
    row.status == Queued && row.availableAt <= now && row.attempts < row.spec.maxAttempts
  }

  // The fence of every completion statement: status and worker, not the attempt number.
  predicate Holds(row: Row, worker: WorkerId) {
    row.status == Running && row.workerId == Some(worker)
  }

  // COALESCE(worker_heartbeat_at, updated_at, ...); updated_at is NOT NULL.
  function StaleAt(row: Row): int {
    if row.heartbeatAt.Some? then row.heartbeatAt.value else row.updatedAt
  }

  predicate Stale(row: Row, now: int, staleSeconds: int) {
    row.status == Running && StaleAt(row) < now - staleSeconds
  }

  predicate ItemEligible(item: Item, now: int, staleSeconds: int) {
    item.completedAt.None? && item.availableAt <= now
    && (item.claimedAt.None? || item.claimedAt.value < now - staleSeconds)
  }

  predicate ItemHeld(item: Item, worker: WorkerId) {
    item.completedAt.None? && item.claimedBy == Some(worker)
  }

  function NewRow(spec: RunSpec, now: int): Row {
    Row(spec, Queued, 0, now, now, now, None, None, None, None, None, None)
  }

  function Enqueued(spec: RunSpec, now: int): Cell {
    Cell(NewRow(spec, now), Append([], QueuedEvent(0), now), None)
  }

  function Claimed(row: Row, worker: WorkerId, now: int): Row {
    row.(status := Running, attempts := row.attempts + 1, workerId := Some(worker), heartbeatAt := Some(now),
         startedAt := if row.startedAt.Some? then row.startedAt else Some(now), updatedAt := now)
  }

  // A row after the lease ended without success: by fail, by recovery or by quarantine.
  function Released(row: Row, status: RunStatus, delay: int, error: ErrorCode, now: int): Row {
    row.(status := status, error := Some(error),
         availableAt := if status == Queued then now + delay else row.availableAt,
         completedAt := if status == Failed then Some(now) else None,
         updatedAt := now, workerId := None, heartbeatAt := None)
  }

  function Completed(row: Row, outcome: Outcome, now: int): Row {
    row.(status := Succeeded,
         outcome := Some(outcome.(trajectory := if row.spec.includeTrajectory then outcome.trajectory else None)),
         error := None, completedAt := Some(now), updatedAt := now, workerId := None, heartbeatAt := None)
  }

  function FreshItem(token: ClaimedRun, content: string, metadata: Json, now: int): Item
    requires SpaceOk(token.modelConfig)
  {
    var space := SpaceOf(token.modelConfig);
    Item(token.tenant, token.subject, token.namespace, space.model, space.dim, content, metadata,
         0, now, now, now, None, None, None, None)
  }

  // INSERT ... ON CONFLICT (run_id) DO UPDATE ... WHERE completed_at IS NULL.
  function UpsertItem(item: Option<Item>, excluded: Item): Item {
    match item
    case None => excluded
    case Some(present) =>
      if present.completedAt.Some? then present
      else present.(content := excluded.content, metadata := excluded.metadata,
                    embeddingModel := excluded.embeddingModel, embeddingDim := excluded.embeddingDim,
                    updatedAt := excluded.updatedAt)
  }

  // Whether the action's SQL guard lets it touch the run.
  predicate Guard(c: Cell, a: Action, now: int) {
    match a
    case Start(_) => Eligible(c.row, now)
    case Quarantine(_) => Eligible(c.row, now)
    case Heartbeat(t) => Holds(c.row, t.workerId)
    case Succeed(t, _, _, _) => Holds(c.row, t.workerId) && SpaceOk(t.modelConfig)
    case Fail(t, _, retryable) => Holds(c.row, t.workerId) && FailureStatus(t.attempts, t.maxAttempts, retryable).Ok?
    case Recover(s) => Stale(c.row, now, s) && FailureStatus(c.row.attempts, c.row.spec.maxAttempts, true).Ok?
    case LoseLease(_) => true
    case ClaimItem(_, s) => c.item.Some? && ItemEligible(c.item.value, now, s)
    case RejectItem(w) => c.item.Some? && ItemHeld(c.item.value, w)
    case CompleteItem(s) => c.item.Some? && ItemHeld(c.item.value, s.workerId)
    case RetryItem(s, _) => c.item.Some? && ItemHeld(c.item.value, s.workerId) && s.attempts >= 1
  }

  // The run row after a guarded action. `seen` is the row as an earlier SELECT of the same
  // transaction read it: recovery decides on the attempt counters it read then.
  function RowAfter(row: Row, seen: Row, a: Action, now: int): Row {
    match a
    case Start(w) => Claimed(row, w, now)
    case Quarantine(w) => Released(Claimed(row, w, now), Failed, 0, InvalidPersistedConfiguration, now)
    case Heartbeat(_) => row.(heartbeatAt := Some(now), updatedAt := now)
    case Succeed(_, outcome, _, _) => Completed(row, outcome, now)
    case Fail(t, error, retryable) =>
      (match FailureStatus(t.attempts, t.maxAttempts, retryable)
       case Err(_) => row
       case Ok(next) => Released(row, next, Delay(t.attempts), error, now))
    case Recover(_) =>
      (match FailureStatus(seen.attempts, seen.spec.maxAttempts, true)
       case Err(_) => row
       case Ok(next) => Released(row, next, Delay(seen.attempts), WorkerHeartbeatExpired, now))
    case _ => row
  }

  function EventOf(seen: Row, a: Action): Option<EventKind> {
    match a
    case Start(w) => Some(StartedEvent(seen.attempts + 1, w))
    case Quarantine(_) => Some(QuarantinedEvent)
    case Succeed(t, _, _, _) => Some(SucceededEvent(t.attempts))
    case Fail(t, _, retryable) =>
      (match FailureStatus(t.attempts, t.maxAttempts, retryable)
       case Err(_) => None
       case Ok(next) =>
         Some(if next == Queued then RetryEvent(t.attempts, Delay(t.attempts)) else FailedEvent(t.attempts)))
    case Recover(_) =>
      (match FailureStatus(seen.attempts, seen.spec.maxAttempts, true)
       case Err(_) => None
       case Ok(next) => Some(if next == Queued then StaleEvent(seen.attempts) else FailedEvent(seen.attempts)))
    case LoseLease(t) => Some(LeaseLostEvent(t.attempts, t.workerId))
    case _ => None
  }

  function ItemAfter(item: Option<Item>, a: Action, now: int): Option<Item> {
    match a
    case Succeed(t, _, content, metadata) =>
      if SpaceOk(t.modelConfig) then Some(UpsertItem(item, FreshItem(t, content, metadata, now))) else item
    case ClaimItem(w, _) =>
      if item.None? then item
      else Some(item.value.(claimedBy := Some(w), claimedAt := Some(now), attempts := item.value.attempts + 1,
                            updatedAt := now))
    case RejectItem(_) =>
      if item.None? then item
      else Some(item.value.(completedAt := Some(now), lastError := Some(InvalidPersistedConfiguration),
                            claimedBy := None, claimedAt := None, updatedAt := now))
    case CompleteItem(_) =>
      if item.None? then item
      else Some(item.value.(completedAt := Some(now), updatedAt := now,
                            claimedBy := None, claimedAt := None, lastError := None))
    case RetryItem(s, error) =>
      if item.None? || s.attempts < 1 then item
      else Some(item.value.(availableAt := now + SummaryRetryDelay(s.attempts).value, claimedBy := None,
                            claimedAt := None, lastError := Some(error), updatedAt := now))
    case _ => item
  }

  // One transaction of the store on one run: nothing if the guard fails, else row, item and event together.
  function Apply(c: Cell, a: Action, now: int): Cell {
    if !Guard(c, a, now) then c
    else
      var event := EventOf(c.row, a);
      Cell(RowAfter(c.row, c.row, a, now),
           if event.Some? then Append(c.log, event.value, now) else c.log,
           ItemAfter(c.item, a, now))
  }

  // ---- the invariant of one run ----------------------------------------------------------------

  ghost predicate RowShape(row: Row) {
    && 0 <= row.attempts <= row.spec.maxAttempts && row.spec.maxAttempts >= 1
    && (row.status == Queued ==> row.attempts < row.spec.maxAttempts)
    && (row.status == Running ==> row.attempts >= 1)
    && (row.status == Running <==> row.workerId.Some?)
    && (row.status == Running <==> row.heartbeatAt.Some?)
    && (row.status in {Succeeded, Failed} <==> row.completedAt.Some?)
    && (row.status == Succeeded <==> row.outcome.Some?)
    && (row.outcome.Some? && row.outcome.value.trajectory.Some? ==> row.spec.includeTrajectory)
  }

  ghost predicate Timed(row: Row, times: seq<int>) {
    && Spaced(times)
    && (row.status in {Queued, Running} ==> |times| == row.attempts)
    && (row.status == Queued && |times| > 0 ==>
          row.availableAt >= times[|times| - 1] + Delay(|times|))
    && (row.status == Running ==>
          row.heartbeatAt.Some? && |times| > 0 && row.heartbeatAt.value >= times[|times| - 1])
  }

  // The longest prefix of an answer that a summary keeps.
  function SummaryText(answer: string): string {
    answer[..Min(|answer|, 12000)]
  }

  function SummaryMetadata(id: RunId, recalled: seq<MemoryId>): Json {
    var ids := seq(|recalled|, i requires 0 <= i < |recalled| => JInt(recalled[i]));
    JObj(map[RunIdName := JInt(id), SourceMemoryIds := JArr(ids)])
  }

  // The outbox item of a succeeded run repeats the run's scope and recorded vector space, and
  // carries the summary of the stored answer.
  ghost predicate ItemMatches(id: RunId, row: Row, item: Item) {
    && row.outcome.Some?
    && (item.tenant, item.subject, item.namespace) == (row.spec.tenant, row.spec.subject, row.spec.namespace)
    && row.spec.modelConfig.JObj? && ModelOk(row.spec.modelConfig.fields)
    && Space(item.embeddingModel, item.embeddingDim) == SpaceOf(row.spec.modelConfig.fields)
    && item.content == SummaryText(row.outcome.value.answer)
    && item.metadata == SummaryMetadata(id, row.outcome.value.recalled)
    && !IsBlank(item.tenant) && !IsBlank(item.subject) && !IsBlank(item.namespace)
    && item.attempts >= 0
    && (item.claimedBy.Some? <==> item.claimedAt.Some?)
    && (item.claimedBy.Some? ==> item.attempts >= 1 && item.completedAt.None?)
  }

  ghost predicate CellInv(id: RunId, c: Cell) {
    && RowShape(c.row)
    && Numbered(c.log)
    && Replay(c.log) == At(c.row.status, c.row.attempts)
    && Timed(c.row, StartTimes(c.log))
    && (c.item.Some? <==> c.row.status == Succeeded)
    && (c.item.Some? ==> ItemMatches(id, c.row, c.item.value))
  }

  // A token carries its run's request unchanged.
  ghost predicate TokenOf(t: ClaimedRun, id: RunId, row: Row) {
    && t.id == id
    && (t.tenant, t.subject, t.namespace) == (row.spec.tenant, row.spec.subject, row.spec.namespace)
    && !IsBlank(t.tenant) && !IsBlank(t.subject) && !IsBlank(t.namespace)
    && row.spec.modelConfig == JObj(t.modelConfig) && ModelOk(t.modelConfig)
    && t.maxAttempts == row.spec.maxAttempts
    && 1 <= t.attempts <= t.maxAttempts
  }

  // What a worker of the original passes along: an accepted call comes from the current attempt,
  // and was made after that attempt started.
  ghost predicate Current(c: Cell, t: ClaimedRun, now: int) {
    Holds(c.row, t.workerId) ==>
      t.attempts == c.row.attempts && StartTimes(c.log) != [] && now >= StartTimes(c.log)[|StartTimes(c.log)| - 1]
  }

  ghost predicate Disciplined(id: RunId, c: Cell, a: Action, now: int) {
    match a
    case Heartbeat(t) => TokenOf(t, id, c.row) && Current(c, t, now)
    case Succeed(t, outcome, content, metadata) =>
      TokenOf(t, id, c.row) && Current(c, t, now)
      && content == SummaryText(outcome.answer) && metadata == SummaryMetadata(id, outcome.recalled)
    case Fail(t, _, _) => TokenOf(t, id, c.row) && Current(c, t, now)
    case LoseLease(t) => TokenOf(t, id, c.row)
    case Recover(s) => s >= 1
    case CompleteItem(s) => true
    case RetryItem(s, _) => s.attempts >= 1
    case _ => true
  }

  lemma EnqueuedInv(id: RunId, spec: RunSpec, now: int)
    requires spec.maxAttempts >= 1
    ensures CellInv(id, Enqueued(spec, now))
  {
    ReplayAppend([], QueuedEvent(0), now);
    StartTimesAppend([], QueuedEvent(0), now);
  }

  // A guarded action moves row and log alike.
  lemma RowFollowsEvent(id: RunId, c: Cell, a: Action, now: int)
    requires CellInv(id, c) && Disciplined(id, c, a, now) && Guard(c, a, now)
    ensures var d := RowAfter(c.row, c.row, a, now);
            At(d.status, d.attempts) == match EventOf(c.row, a)
                                        case None => At(c.row.status, c.row.attempts)
                                        case Some(kind) => Advance(At(c.row.status, c.row.attempts), kind)
  {
  }

  lemma RowStaysTimed(id: RunId, c: Cell, a: Action, now: int)
    requires CellInv(id, c) && Disciplined(id, c, a, now) && Guard(c, a, now)
    ensures Timed(RowAfter(c.row, c.row, a, now), if a.Start? then StartTimes(c.log) + [now] else StartTimes(c.log))
  {
  }

  lemma EventIsStart(row: Row, a: Action)
    ensures EventOf(row, a).Some? ==> (EventOf(row, a).value.StartedEvent? <==> a.Start?)
    ensures a.Start? ==> EventOf(row, a).Some?
  {
  }

  lemma ApplyTimed(id: RunId, c: Cell, a: Action, now: int)
    requires CellInv(id, c) && Disciplined(id, c, a, now) && Guard(c, a, now)
    ensures Timed(Apply(c, a, now).row, StartTimes(Apply(c, a, now).log))
  {
    RowStaysTimed(id, c, a, now);
    EventIsStart(c.row, a);
    if EventOf(c.row, a).Some? {
      StartTimesAppend(c.log, EventOf(c.row, a).value, now);
    }
  }

  lemma ApplyReplay(id: RunId, c: Cell, a: Action, now: int)
    requires CellInv(id, c) && Disciplined(id, c, a, now) && Guard(c, a, now)
    ensures Replay(Apply(c, a, now).log) == At(Apply(c, a, now).row.status, Apply(c, a, now).row.attempts)
    ensures Numbered(Apply(c, a, now).log)
  {
    RowFollowsEvent(id, c, a, now);
    if EventOf(c.row, a).Some? {
      ReplayAppend(c.log, EventOf(c.row, a).value, now);
      AppendNumbered(c.log, EventOf(c.row, a).value, now);
    }
  }

  lemma ApplyShape(id: RunId, c: Cell, a: Action, now: int)
    requires CellInv(id, c) && Disciplined(id, c, a, now) && Guard(c, a, now)
    ensures RowShape(RowAfter(c.row, c.row, a, now))
  {
  }

  lemma ApplyItem(id: RunId, c: Cell, a: Action, now: int)
    requires CellInv(id, c) && Disciplined(id, c, a, now) && Guard(c, a, now)
    ensures var row, item := RowAfter(c.row, c.row, a, now), ItemAfter(c.item, a, now);
            (item.Some? <==> row.status == Succeeded) && (item.Some? ==> ItemMatches(id, row, item.value))
  {
  }

  lemma ApplyInv(id: RunId, c: Cell, a: Action, now: int)
    requires CellInv(id, c) && Disciplined(id, c, a, now)
    ensures CellInv(id, Apply(c, a, now))
  {
    if Guard(c, a, now) {
      ApplyShape(id, c, a, now);
      ApplyTimed(id, c, a, now);
      ApplyReplay(id, c, a, now);
      ApplyItem(id, c, a, now);
    }
  }
}
