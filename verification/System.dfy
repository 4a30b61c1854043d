// Any number of workers and API processes over one set of tables. Each step is one committed
// transaction with its own clock reading, or an event of one process.
module System {
  import opened Prelude
  import opened Runs
  import opened Cells
  import opened Queue
  import opened Memories
  import opened Fusion

  // What a worker holds: nothing, a claimed run, a claimed summary, or a summary it must reject.
  datatype Hand =
    | Idle
    | Executing(token: ClaimedRun, claimedAt: int)
    | Delivering(item: SummaryItem, written: bool)
    | Rejecting(runId: RunId)

  // A worker's embedding configuration never changes while it runs.
  datatype Worker = Worker(space: Space, hand: Hand)

  // A recall of memories for a run by a worker, and what it returned.
  datatype Recall = Recall(worker: WorkerId, space: Space, runId: RunId, returned: seq<MemoryId>)

  type ApiId = string

  // `apis` holds the embedding configuration of every API process there has been, `writers` which of
  // them wrote a memory.
  datatype State = State(
    q: Tables, mem: MemoryTable, workers: map<WorkerId, Worker>, recalls: seq<Recall>,
    apis: map<ApiId, Space>, writers: map<MemoryId, ApiId>)

  // The calls a worker makes about what it holds.
  datatype Call =
    | Beat
    | Finish(outcome: Outcome)
    | GiveUp(error: ErrorCode, retryable: bool)
    | NoteLeaseLoss
    | Complete
    | Retry(error: ErrorCode)
    | Reject

  datatype Step =
    | Enqueue(id: RunId, spec: RunSpec)
    | Spawn(worker: WorkerId, space: Space)
    | Crash(worker: WorkerId)
    | Drop(worker: WorkerId)
    | Claim(worker: WorkerId, locks: seq<set<RunId>>, maxQuarantined: int,
            retired: seq<RunId>, picked: Option<RunId>, replyLost: bool)
    | RecallMemories(worker: WorkerId, distance: map<MemoryId, real>, relevance: map<MemoryId, real>, plan: Plan)
    | Tell(worker: WorkerId, call: Call)
    | RecoverStale(staleSeconds: int, batchSize: nat, locked: set<RunId>)
    | ClaimSummary(worker: WorkerId, staleSeconds: int, locked: set<RunId>, runId: RunId, replyLost: bool)
    | WriteSummary(worker: WorkerId, memoryId: MemoryId)
    | SpawnApi(api: ApiId, space: Space)
    | WriteMemory(api: ApiId, memoryId: MemoryId, memory: Memory)

  const INITIAL := State(Tables(map[], map[], map[]), map[], map[], [], map[], map[])

  function SetHand(s: State, w: WorkerId, hand: Hand): State
    requires w in s.workers
  {
    s.(workers := s.workers[w := s.workers[w].(hand := hand)])
  }

  function SummaryMemory(item: SummaryItem, space: Space, now: int): Memory {
    Memory(item.tenant, item.subject, item.namespace, RunSummary, item.content, item.metadata, space,
           0.55, 0, None, None, now, now, Some(item.runId))
  }

  // A run's calls come after its claim; success needs a validated embedding configuration, and
  // completion a written summary.
  predicate MayCall(worker: Worker, call: Call, now: int) {
    match call
    case Beat => worker.hand.Executing? && now >= worker.hand.claimedAt
    case Finish(_) =>
      worker.hand.Executing? && now >= worker.hand.claimedAt && Compatible(worker.hand.token.modelConfig, worker.space)
    case GiveUp(_, _) => worker.hand.Executing? && now >= worker.hand.claimedAt
    case NoteLeaseLoss => worker.hand.Executing?
    case Complete => worker.hand.Delivering? && worker.hand.written
    case Retry(_) => worker.hand.Delivering?
    case Reject => worker.hand.Rejecting?
  }

  function Target(hand: Hand): RunId
    requires !hand.Idle?
  {
    match hand
    case Executing(t, _) => t.id
    case Delivering(t, _) => t.runId
    case Rejecting(id) => id
  }

  predicate Fits(hand: Hand, call: Call) {
    match call
    case Complete => hand.Delivering?
    case Retry(_) => hand.Delivering?
    case Reject => hand.Rejecting?
    case _ => hand.Executing?
  }

  function ActionOf(w: WorkerId, hand: Hand, call: Call): Action
    requires Fits(hand, call)
  {
    match call
    case Beat => Heartbeat(hand.token)
    case Finish(outcome) =>
      Succeed(hand.token, outcome, SummaryText(outcome.answer), SummaryMetadata(hand.token.id, outcome.recalled))
    case GiveUp(error, retryable) => Fail(hand.token, error, retryable)
    case NoteLeaseLoss => LoseLease(hand.token)
    case Complete => CompleteItem(hand.item)
    case Retry(error) => RetryItem(hand.item, error)
    case Reject => RejectItem(w)
  }

  function RecallScope(token: ClaimedRun): Scope {
    Scope(token.tenant, token.subject, token.namespace)
  }

  // A run recalls eight memories of its scope with the default weights.
  function RecallQuery(token: ClaimedRun, now: int): Query {
    Query(RecallScope(token), now, 8, 1.0, 0.7)
  }

  // A worker's own calls come after its claim; everything else may carry any clock reading.
  ghost predicate Enabled(s: State, step: Step, now: int) {
    match step
    case Enqueue(id, spec) => id !in s.q.runs && spec.maxAttempts > 0
    case Spawn(w, _) => w !in s.workers
    case Crash(w) => w in s.workers
    case Drop(w) => w in s.workers
    case Claim(w, locks, maxQuarantined, retired, picked, _) =>
      w in s.workers && s.workers[w].hand == Idle && maxQuarantined >= 1
      && ClaimCall(s.q, w, now, locks, maxQuarantined, retired, picked)
    case RecallMemories(w, distance, relevance, plan) =>
      w in s.workers && s.workers[w].hand.Executing?
      && Compatible(s.workers[w].hand.token.modelConfig, s.workers[w].space)
      && Legal(s.mem, RecallQuery(s.workers[w].hand.token, now), distance, relevance, plan)
    case Tell(w, call) => w in s.workers && MayCall(s.workers[w], call, now)
    case RecoverStale(staleSeconds, batchSize, _) => staleSeconds >= 1 && batchSize >= 1
    case ClaimSummary(w, staleSeconds, locked, runId, _) =>
      w in s.workers && s.workers[w].hand == Idle && IsItemCandidate(s.q, now, staleSeconds, locked, runId)
    case WriteSummary(w, memoryId) =>
      w in s.workers && s.workers[w].hand.Delivering? && memoryId !in s.mem
      && Space(s.workers[w].hand.item.embeddingModel, s.workers[w].hand.item.embeddingDim) == s.workers[w].space
    case SpawnApi(api, _) => api !in s.apis
    case WriteMemory(api, memoryId, memory) =>
      api in s.apis && memoryId !in s.mem && memory.sourceRun.None? && memory.space == s.apis[api]
  }

  function Next(s: State, step: Step, now: int): State
    requires Enabled(s, step, now)
  {
    match step
    case Enqueue(id, spec) => s.(q := Put(s.q, id, Enqueued(spec, now)))
    case Spawn(w, space) => s.(workers := s.workers[w := Worker(space, Idle)])
    case Crash(w) => s.(workers := s.workers - {w})
    case Drop(w) => SetHand(s, w, Idle)
    case Claim(w, _, _, retired, picked, replyLost) =>
      var rest := QuarantineAll(s.q, retired, w, now);
      var done := s.(q := AfterClaim(s.q, w, now, retired, picked));
      if picked.Some? && !replyLost
      then SetHand(done, w, Executing(TokenFor(picked.value, rest.runs[picked.value], w, now), now))
      else done
    case RecallMemories(w, distance, relevance, plan) =>
      var token := s.workers[w].hand.token;
      FusedInScope(s.mem, RecallQuery(token, now), distance, relevance, plan);
      var returned := SearchMemories(s.mem, RecallQuery(token, now), plan);
      s.(mem := Touch(s.mem, Elements(returned), now),
         recalls := s.recalls + [Recall(w, s.workers[w].space, token.id, returned)])
    case Tell(w, call) =>
      var hand := s.workers[w].hand;
      s.(q := On(s.q, Target(hand), ActionOf(w, hand, call), now))
    case RecoverStale(staleSeconds, batchSize, locked) =>
      var r := AfterRecovery(s.q, staleSeconds, batchSize, now, locked);
      if r.Ok? then s.(q := r.value) else s
    case ClaimSummary(w, staleSeconds, _, runId, replyLost) =>
      var done := s.(q := ItemTaken(s.q, runId, w, staleSeconds, now));
      if replyLost || runId !in done.q.outbox then done
      else
        var decoded := DecodeSummaryItem(runId, done.q.outbox[runId], w);
        SetHand(done, w, if decoded.Ok? then Delivering(decoded.value, false) else Rejecting(runId))
    case WriteSummary(w, memoryId) =>
      var item := s.workers[w].hand.item;
      SetHand(s.(mem := Upsert(s.mem, memoryId, SummaryMemory(item, s.workers[w].space, now))), w,
          Delivering(item, true))
    case SpawnApi(api, space) => s.(apis := s.apis[api := space])
    case WriteMemory(api, memoryId, memory) =>
      s.(mem := s.mem[memoryId := memory], writers := s.writers[memoryId := api])
  }

  // ---- the steps of one worker, spelled out ------------------------------------------------------

  lemma ClaimNext(s: State, w: WorkerId, locks: seq<set<RunId>>, maxQuarantined: int, retired: seq<RunId>,
                  picked: Option<RunId>, now: int)
    requires w in s.workers && s.workers[w].hand == Idle && maxQuarantined >= 1
    requires ClaimCall(s.q, w, now, locks, maxQuarantined, retired, picked)
    ensures var step := Claim(w, locks, maxQuarantined, retired, picked, false);
            var after := s.(q := AfterClaim(s.q, w, now, retired, picked));
            var rest := QuarantineAll(s.q, retired, w, now);
            && Enabled(s, step, now)
            && Next(s, step, now)
               == if picked.Some? then
                    SetHand(after, w, Executing(TokenFor(picked.value, rest.runs[picked.value], w, now), now))
                  else after
  {
  }

  lemma TellNext(s: State, w: WorkerId, call: Call, now: int)
    requires w in s.workers && MayCall(s.workers[w], call, now)
    ensures Enabled(s, Tell(w, call), now)
    ensures Next(s, Tell(w, call), now)
            == s.(q := On(s.q, Target(s.workers[w].hand), ActionOf(w, s.workers[w].hand, call), now))
  {
  }

  lemma DropNext(s: State, w: WorkerId, now: int)
    requires w in s.workers
    ensures Enabled(s, Drop(w), now) && Next(s, Drop(w), now) == SetHand(s, w, Idle)
  {
  }

  lemma RecoverNext(s: State, staleSeconds: int, batchSize: nat, locked: set<RunId>, now: int)
    requires staleSeconds >= 1 && batchSize >= 1 && AfterRecovery(s.q, staleSeconds, batchSize, now, locked).Ok?
    ensures var step := RecoverStale(staleSeconds, batchSize, locked);
            && Enabled(s, step, now)
            && Next(s, step, now) == s.(q := AfterRecovery(s.q, staleSeconds, batchSize, now, locked).value)
  {
  }

  lemma ClaimItemNext(s: State, w: WorkerId, staleSeconds: int, locked: set<RunId>, id: RunId, now: int)
    requires w in s.workers && s.workers[w].hand == Idle && IsItemCandidate(s.q, now, staleSeconds, locked, id)
    requires id in ItemTaken(s.q, id, w, staleSeconds, now).outbox
    ensures var step, q := ClaimSummary(w, staleSeconds, locked, id, false), ItemTaken(s.q, id, w, staleSeconds, now);
            var decoded := DecodeSummaryItem(id, q.outbox[id], w);
            && Enabled(s, step, now)
            && Next(s, step, now)
               == SetHand(s.(q := q), w, if decoded.Ok? then Delivering(decoded.value, false) else Rejecting(id))
  {
  }

  lemma WriteNext(s: State, w: WorkerId, memoryId: MemoryId, now: int)
    requires w in s.workers && s.workers[w].hand.Delivering? && memoryId !in s.mem
    requires var item := s.workers[w].hand.item; Space(item.embeddingModel, item.embeddingDim) == s.workers[w].space
    ensures var item := s.workers[w].hand.item;
            && Enabled(s, WriteSummary(w, memoryId), now)
            && Next(s, WriteSummary(w, memoryId), now)
               == SetHand(s.(mem := Upsert(s.mem, memoryId, SummaryMemory(item, s.workers[w].space, now))), w,
                          Delivering(item, true))
  {
  }

  lemma ApiWriteNext(s: State, api: ApiId, memoryId: MemoryId, memory: Memory, now: int)
    requires Enabled(s, WriteMemory(api, memoryId, memory), now)
    ensures Next(s, WriteMemory(api, memoryId, memory), now)
            == s.(mem := s.mem[memoryId := memory], writers := s.writers[memoryId := api])
    ensures api in s.apis && memoryId !in s.mem && memory.sourceRun.None? && memory.space == s.apis[api]
  {
  }

  lemma RecallNext(s: State, w: WorkerId, distance: map<MemoryId, real>, relevance: map<MemoryId, real>, plan: Plan,
                   now: int)
    requires w in s.workers && s.workers[w].hand.Executing?
    requires Compatible(s.workers[w].hand.token.modelConfig, s.workers[w].space)
    requires Legal(s.mem, RecallQuery(s.workers[w].hand.token, now), distance, relevance, plan)
    ensures var step, token := RecallMemories(w, distance, relevance, plan), s.workers[w].hand.token;
            && (forall x :: x in plan.arrival ==> x in s.mem)
            && var returned := SearchMemories(s.mem, RecallQuery(token, now), plan);
            && Enabled(s, step, now)
            && Next(s, step, now)
               == s.(mem := Touch(s.mem, Elements(returned), now),
                     recalls := s.recalls + [Recall(w, s.workers[w].space, token.id, returned)])
  {
    FusedInScope(s.mem, RecallQuery(s.workers[w].hand.token, now), distance, relevance, plan);
  }
}
