// What holds over every execution: any number of workers, crashes, lost replies and stale tokens.
module Theorems {
  import opened Prelude
  import opened Retry
  import opened Runs
  import opened Cells
  import opened History
  import opened Queue
  import opened Memories
  import opened System
  import opened Safety

  datatype Trace = Trace(states: seq<State>, steps: seq<Step>, nows: seq<int>)

  ghost predicate Follows(tr: Trace, i: nat)
    requires i < |tr.steps| == |tr.nows| && |tr.states| == |tr.steps| + 1
  {
    Enabled(tr.states[i], tr.steps[i], tr.nows[i]) && tr.states[i + 1] == Next(tr.states[i], tr.steps[i], tr.nows[i])
  }

  ghost predicate Steps(tr: Trace) {
    && |tr.states| == |tr.steps| + 1 && |tr.nows| == |tr.steps|
    && forall i :: 0 <= i < |tr.steps| ==> Follows(tr, i)
  }

  ghost predicate Execution(tr: Trace) {
    Steps(tr) && tr.states[0] == INITIAL
  }

  ghost predicate Reachable(s: State) {
    exists tr :: Execution(tr) && tr.states[|tr.states| - 1] == s
  }

  lemma {:induction false} ExecutionKeepsInv(tr: Trace, i: nat)
    requires Steps(tr) && Inv(tr.states[0]) && i < |tr.states|
    ensures Inv(tr.states[i])
  {
    if i > 0 {
      ExecutionKeepsInv(tr, i - 1);
      assert Follows(tr, i - 1);
      StepKeepsInv(tr.states[i - 1], tr.steps[i - 1], tr.nows[i - 1]);
    }
  }

  lemma ReachableInv(s: State)
    requires Reachable(s)
    ensures Inv(s)
  {
    var tr :| Execution(tr) && tr.states[|tr.states| - 1] == s;
    ExecutionKeepsInv(tr, |tr.states| - 1);
  }

  lemma ReachableCell(s: State, id: RunId)
    requires Reachable(s) && id in s.q.runs
    ensures id in s.q.events && CellInv(id, Get(s.q, id))
  {
    ReachableInv(s);
  }

  // ---- fencing ---------------------------------------------------------------------------------

  // The SQL fence looks at status and worker only, yet for every token in any worker's hand it is
  // exactly a check that the run is in the attempt the token was issued for.
  lemma FenceIsAttemptCheck(s: State, w: WorkerId)
    requires Reachable(s) && w in s.workers && s.workers[w].hand.Executing?
    ensures var t := s.workers[w].hand.token;
            && t.workerId == w && t.id in s.q.runs
            && (Holds(s.q.runs[t.id], t.workerId) <==>
                  s.q.runs[t.id].status == Running && s.q.runs[t.id].attempts == t.attempts)
  {
    ReachableInv(s);
    assert HandInv(s.q, s.mem, w, s.workers[w].hand);
  }

  lemma SummaryFenceIsAttemptCheck(s: State, w: WorkerId)
    requires Reachable(s) && w in s.workers && s.workers[w].hand.Delivering?
    ensures var t := s.workers[w].hand.item;
            && t.workerId == w && t.runId in s.q.outbox
            && (ItemHeld(s.q.outbox[t.runId], t.workerId) <==>
                  s.q.outbox[t.runId].completedAt.None? && s.q.outbox[t.runId].claimedBy.Some?
                  && s.q.outbox[t.runId].attempts == t.attempts)
  {
    ReachableInv(s);
    assert HandInv(s.q, s.mem, w, s.workers[w].hand);
  }

  // Every call a worker makes either changes nothing, or is the note of a lost lease, or comes from
  // the current attempt of the run or summary it is about.
  lemma AcceptedCallIsCurrent(s: State, w: WorkerId, call: Call, now: int)
    requires Reachable(s) && w in s.workers && MayCall(s.workers[w], call, now)
    ensures var hand := s.workers[w].hand;
            || On(s.q, Target(hand), ActionOf(w, hand, call), now) == s.q
            || call.NoteLeaseLoss? || hand.Rejecting?
            || (hand.Executing? && hand.token.id in s.q.runs && s.q.runs[hand.token.id].status == Running
                && s.q.runs[hand.token.id].attempts == hand.token.attempts)
            || (hand.Delivering? && hand.item.runId in s.q.outbox && s.q.outbox[hand.item.runId].completedAt.None?
                && s.q.outbox[hand.item.runId].attempts == hand.item.attempts)
  {
    var hand := s.workers[w].hand;
    OnRefused(s.q, Target(hand), ActionOf(w, hand, call), now);
    if hand.Executing? {
      FenceIsAttemptCheck(s, w);
    } else if hand.Delivering? {
      SummaryFenceIsAttemptCheck(s, w);
    }
  }

  // Without unique identities the fence is unsound: if the worker that reclaims a recovered run
  // carries the same identity, the token of the old attempt passes again.
  lemma SharedIdentityDefeatsFence(id: RunId, c: Cell, t: ClaimedRun, staleSeconds: int, now: int, later: int)
    requires CellInv(id, c) && TokenOf(t, id, c.row) && Holds(c.row, t.workerId) && t.attempts == c.row.attempts
    requires Stale(c.row, now, staleSeconds) && t.attempts < t.maxAttempts && later >= now + Delay(t.attempts)
    ensures var recovered := Apply(c, Recover(staleSeconds), now);
            var reclaimed := Apply(recovered, Start(t.workerId), later);
            && !Guard(recovered, Heartbeat(t), later)
            && Eligible(recovered.row, later) && Guard(reclaimed, Heartbeat(t), later)
            && reclaimed.row.attempts == t.attempts + 1
  {
    var recovered := Apply(c, Recover(staleSeconds), now);
    assert recovered.row.status == Queued && recovered.row.availableAt == now + Delay(t.attempts);
  }

  // ---- log, budget, outbox ----------------------------------------------------------------------

  // Folding a run's log, whatever lease-loss notes it contains, reproduces its status and attempts,
  // and its sequence numbers are 1..n.
  lemma LogReplaysToState(s: State, id: RunId)
    requires Reachable(s) && id in s.q.runs
    ensures id in s.q.events && Numbered(s.q.events[id])
    ensures Replay(s.q.events[id]) == At(s.q.runs[id].status, s.q.runs[id].attempts)
    ensures Lifecycle(s.q.events[id]) + Measure(s.q.runs[id]) + Quarantines(s.q.events[id])
            == 2 * s.q.runs[id].spec.maxAttempts
  {
    ReachableCell(s, id);
    LifecycleBudget(id, Get(s.q, id));
  }

  // A queued run is never stranded by the attempts filter, and recovery never meets counters that
  // make it raise.
  lemma NoLimbo(s: State, id: RunId, now: int)
    requires Reachable(s) && id in s.q.runs
    ensures var row := s.q.runs[id];
            && (row.status == Queued ==> 0 <= row.attempts < row.spec.maxAttempts
                                         && (Eligible(row, now) <==> row.availableAt <= now))
            && (row.status == Running ==> 1 <= row.attempts <= row.spec.maxAttempts && row.workerId.Some?)
            && (row.status !in {Queued, Running} <==> row.completedAt.Some?)
  {
    ReachableCell(s, id);
  }

  lemma QueuedIsClaimable(q: Tables, id: RunId, now: int)
    requires CellsInv(q) && id in q.runs && q.runs[id].status == Queued && now >= q.runs[id].availableAt
    ensures id in Claimable(q, now, {})
  {
    assert CellInv(id, Get(q, id));
  }

  lemma RecoveryOfInv(q: Tables, staleSeconds: int, batchSize: nat, now: int, locked: set<RunId>)
    requires CellsInv(q)
    ensures AfterRecovery(q, staleSeconds, batchSize, now, locked).Ok?
  {
    BatchIsOldest(q, staleSeconds, batchSize, now, locked);
    forall id | id in StaleBatch(q, staleSeconds, batchSize, now, locked)
      ensures CountersOk(q, id)
    {
      assert CellInv(id, Get(q, id));
    }
  }

  lemma RecoveryNeverRaises(s: State, staleSeconds: int, batchSize: nat, now: int, locked: set<RunId>)
    requires Reachable(s)
    ensures AfterRecovery(s.q, staleSeconds, batchSize, now, locked).Ok?
  {
    ReachableInv(s);
    RecoveryOfInv(s.q, staleSeconds, batchSize, now, locked);
  }

  // An outbox item exists exactly for the succeeded runs, and repeats the run's scope, recorded
  // vector space and stored answer.
  lemma OutboxIffSucceeded(s: State, id: RunId)
    requires Reachable(s)
    ensures id in s.q.outbox <==> id in s.q.runs && s.q.runs[id].status == Succeeded
    ensures id in s.q.outbox ==> ItemMatches(id, s.q.runs[id], s.q.outbox[id])
  {
    ReachableInv(s);
    if id in s.q.runs {
      assert CellInv(id, Get(s.q, id));
    }
  }

  // The update branch of the outbox insert is unreachable: a run that can still succeed has no item.
  lemma SuccessIsFirst(s: State, t: ClaimedRun, outcome: Outcome, content: string, metadata: Json, now: int)
    requires Reachable(s) && Allowed(s.q, t.id, Succeed(t, outcome, content, metadata), now)
    ensures t.id !in s.q.outbox
    ensures var done := On(s.q, t.id, Succeed(t, outcome, content, metadata), now);
            t.id in done.outbox && done.outbox[t.id] == FreshItem(t, content, metadata, now)
  {
    ReachableCell(s, t.id);
    assert Get(s.q, t.id).item == None;
  }

  // A run is started at most max_attempts times, as attempts 1, 2, 3, ..., and its k-th retry starts
  // at least the sum of the first k delays after its first start, however the attempts ended.
  lemma StartsAreNumberedAndSpaced(s: State, id: RunId, k: nat)
    requires Reachable(s) && id in s.q.runs && id in s.q.events && k < |StartTimes(s.q.events[id])|
    ensures |StartedAttempts(s.q.events[id])| == |StartTimes(s.q.events[id])| <= s.q.runs[id].spec.maxAttempts
    ensures StartedAttempts(s.q.events[id])[k] == k + 1
    ensures StartTimes(s.q.events[id])[k] - StartTimes(s.q.events[id])[0]
            >= if k <= 9 then Pow2(k) - 1 else 511 + 300 * (k - 9)
  {
    ReachableCell(s, id);
    ClaimedInOrder(id, Get(s.q, id));
    StartedInOrder(s.q.events[id]);
    RetriesAreSpaced(id, Get(s.q, id), k);
  }

  // A trajectory is kept only for runs that asked for one.
  lemma TrajectoryOnlyIfAsked(s: State, id: RunId)
    requires Reachable(s) && id in s.q.runs && s.q.runs[id].outcome.Some?
    ensures s.q.runs[id].outcome.value.trajectory.Some? ==> s.q.runs[id].spec.includeTrajectory
  {
    ReachableCell(s, id);
  }

  // ---- at most once, and when ---------------------------------------------------------------------

  lemma ContentOfAnswer(answer: string)
    ensures SummaryText(answer) <= answer && |SummaryText(answer)| == if |answer| < 12000 then |answer| else 12000
  {
  }

  lemma MetadataOfRun(id: RunId, recalled: seq<MemoryId>)
    ensures var metadata := SummaryMetadata(id, recalled);
            && metadata.JObj? && metadata.fields.Keys == {RunIdName, SourceMemoryIds}
            && metadata.fields[RunIdName] == JInt(id) && metadata.fields[SourceMemoryIds].JArr?
            && |metadata.fields[SourceMemoryIds].items| == |recalled|
            && forall k :: 0 <= k < |recalled| ==> metadata.fields[SourceMemoryIds].items[k] == JInt(recalled[k])
  {
  }

  lemma SummaryOfRow(m: Memory, id: RunId, item: Item, row: Row)
    requires SummaryOf(m, id, item) && ItemMatches(id, row, item)
    ensures row.outcome.Some?
    ensures m.content == SummaryText(row.outcome.value.answer)
    ensures m.metadata == SummaryMetadata(id, row.outcome.value.recalled)
    ensures (m.tenant, m.subject, m.namespace) == (row.spec.tenant, row.spec.subject, row.spec.namespace)
    ensures m.kind == RunSummary && m.importance == 0.55 && m.expiresAt == None
  {
  }

  lemma SummaryIsFromRun(s: State, i: MemoryId, id: RunId)
    requires Reachable(s) && i in s.mem && s.mem[i].sourceRun == Some(id)
    ensures id in s.q.outbox && SummaryOf(s.mem[i], id, s.q.outbox[id])
    ensures id in s.q.runs && s.q.runs[id].status == Succeeded && ItemMatches(id, s.q.runs[id], s.q.outbox[id])
  {
    ReachableInv(s);
    OutboxIffSucceeded(s, id);
  }

  // A summary carries the first 12,000 characters of the answer its run stored, the run's id and the ids
  // of the memories it recalled, in the run's own scope.
  lemma SummaryColumns(s: State, i: MemoryId, id: RunId)
    requires Reachable(s) && i in s.mem && s.mem[i].sourceRun == Some(id)
    ensures id in s.q.runs && s.q.runs[id].status == Succeeded && s.q.runs[id].outcome.Some?
    ensures var answer := s.q.runs[id].outcome.value.answer;
            s.mem[i].content <= answer && |s.mem[i].content| == if |answer| < 12000 then |answer| else 12000
    ensures var metadata, recalled := s.mem[i].metadata, s.q.runs[id].outcome.value.recalled;
            && metadata.JObj? && metadata.fields.Keys == {RunIdName, SourceMemoryIds}
            && metadata.fields[RunIdName] == JInt(id) && metadata.fields[SourceMemoryIds].JArr?
            && |metadata.fields[SourceMemoryIds].items| == |recalled|
            && forall k :: 0 <= k < |recalled| ==> metadata.fields[SourceMemoryIds].items[k] == JInt(recalled[k])
    ensures var m, spec := s.mem[i], s.q.runs[id].spec;
            && (m.tenant, m.subject, m.namespace) == (spec.tenant, spec.subject, spec.namespace)
            && m.kind == RunSummary && m.importance == 0.55 && m.expiresAt == None
  {
    SummaryIsFromRun(s, i, id);
    SummaryOfRow(s.mem[i], id, s.q.outbox[id], s.q.runs[id]);
    ContentOfAnswer(s.q.runs[id].outcome.value.answer);
    MetadataOfRun(id, s.q.runs[id].outcome.value.recalled);
  }

  // Each run has at most one memory.
  lemma AtMostOneSummary(s: State, i: MemoryId, j: MemoryId, id: RunId)
    requires Reachable(s) && i in s.mem && s.mem[i].sourceRun == Some(id)
    requires j in s.mem && s.mem[j].sourceRun == Some(id)
    ensures i == j
  {
    ReachableInv(s);
    assert SummaryOf(s.mem[i], id, s.q.outbox[id]) && SummaryOf(s.mem[j], id, s.q.outbox[id]);
    assert SameSource(s.mem[i], s.mem[j]);
  }

  // An item completed by its delivery has its memory, one completed by a rejection has none.
  lemma CompletionMeansDelivered(s: State, id: RunId)
    requires Reachable(s) && id in s.q.outbox && s.q.outbox[id].completedAt.Some?
    ensures HasSummary(s.mem, id) <==> s.q.outbox[id].lastError.None?
  {
    ReachableInv(s);
    if HasSummary(s.mem, id) {
      var i :| i in s.mem && s.mem[i].sourceRun == Some(id);
      assert SummaryOf(s.mem[i], id, s.q.outbox[id]);
    }
  }

  // The answer of a succeeded run shows nothing: what a summary keeps of it is white space.
  predicate BlankAnswer(row: Row) {
    row.outcome.Some? && IsBlank(SummaryText(row.outcome.value.answer))
  }

  lemma DeliveredIsVisible(q: Tables, mem: MemoryTable, id: RunId)
    requires MemoryInv(q, mem) && HasSummary(mem, id)
    ensures id in q.outbox && !IsBlank(q.outbox[id].content)
  {
    var i :| i in mem && mem[i].sourceRun == Some(id);
    assert SummaryOf(mem[i], id, q.outbox[id]);
  }

  // A blank answer never becomes a memory, whatever else happens.
  lemma BlankIsNeverDelivered(s: State, id: RunId)
    requires Reachable(s) && id in s.q.runs && BlankAnswer(s.q.runs[id])
    ensures !HasSummary(s.mem, id)
  {
    if HasSummary(s.mem, id) {
      ReachableInv(s);
      DeliveredIsVisible(s.q, s.mem, id);
      OutboxIffSucceeded(s, id);
    }
  }

  lemma VisibleIsDelivered(q: Tables, mem: MemoryTable, id: RunId)
    requires MemoryInv(q, mem) && id in q.outbox && q.outbox[id].completedAt.Some? && !IsBlank(q.outbox[id].content)
    ensures HasSummary(mem, id)
  {
  }

  // So not every success is delivered: a completed item has its memory exactly if the run's answer is
  // not blank.
  lemma DeliveredIffNotBlank(s: State, id: RunId)
    requires Reachable(s) && id in s.q.outbox && s.q.outbox[id].completedAt.Some?
    ensures id in s.q.runs && (HasSummary(s.mem, id) <==> !BlankAnswer(s.q.runs[id]))
  {
    OutboxIffSucceeded(s, id);
    if BlankAnswer(s.q.runs[id]) {
      BlankIsNeverDelivered(s, id);
    } else {
      ReachableInv(s);
      VisibleIsDelivered(s.q, s.mem, id);
    }
  }

  // ---- what an execution never undoes -----------------------------------------------------------

  ghost predicate SameMemory(a: Memory, b: Memory) {
    a == b.(accessCount := a.accessCount, lastAccessedAt := a.lastAccessedAt) && a.accessCount <= b.accessCount
  }

  ghost predicate TablesEvolve(q: Tables, d: Tables) {
    && WellKeyed(q) && WellKeyed(d) && q.runs.Keys <= d.runs.Keys
    && forall id :: id in q.runs ==> Evolves(Get(q, id), Get(d, id))
  }

  ghost predicate MemoryEvolves(mem: MemoryTable, done: MemoryTable) {
    forall i :: i in mem ==> i in done && SameMemory(mem[i], done[i])
  }

  lemma TablesEvolveTransitive(q: Tables, d: Tables, e: Tables)
    requires TablesEvolve(q, d) && TablesEvolve(d, e)
    ensures TablesEvolve(q, e)
  {
    forall id | id in q.runs
      ensures Evolves(Get(q, id), Get(e, id))
    {
      EvolvesTransitive(Get(q, id), Get(d, id), Get(e, id));
    }
  }

  lemma TablesEvolveReflexive(q: Tables)
    requires WellKeyed(q)
    ensures TablesEvolve(q, q)
  {
  }

  lemma {:induction false} ActAllEvolves(q: Tables, ids: seq<RunId>, a: Action, now: int)
    requires CellsInv(q) && Known(q, ids) && (a.Quarantine? || (a.Recover? && a.staleSeconds >= 1))
    ensures CellsInv(OnAll(q, ids, a, now)) && TablesEvolve(q, OnAll(q, ids, a, now))
  {
    if ids == [] {
      TablesEvolveReflexive(q);
    } else {
      var front, last := ids[..|ids| - 1], ids[|ids| - 1];
      ActAllEvolves(q, front, a, now);
      assert last in ids;
      ActKeepsCells(OnAll(q, front, a, now), last, a, now);
      ActMovesCells(OnAll(q, front, a, now), last, a, now);
      TablesEvolveTransitive(q, OnAll(q, front, a, now), OnAll(q, ids, a, now));
    }
  }

  lemma ActEvolves(q: Tables, id: RunId, a: Action, now: int)
    requires CellsInv(q) && id in q.runs && Disciplined(id, Get(q, id), a, now)
    ensures TablesEvolve(q, On(q, id, a, now))
  {
    ActMovesCells(q, id, a, now);
  }

  lemma ClaimEvolves(q: Tables, w: WorkerId, locks: seq<set<RunId>>, maxQuarantined: int, retired: seq<RunId>,
                     picked: Option<RunId>, now: int)
    requires CellsInv(q) && ClaimCall(q, w, now, locks, maxQuarantined, retired, picked)
    ensures TablesEvolve(q, AfterClaim(q, w, now, retired, picked))
  {
    PoisonIsClaimable(q, w, now, locks, retired);
    ActAllEvolves(q, retired, Quarantine(w), now);
    if picked.Some? {
      var rest := QuarantineAll(q, retired, w, now);
      ActEvolves(rest, picked.value, Start(w), now);
      TablesEvolveTransitive(q, rest, AfterClaim(q, w, now, retired, picked));
    }
  }

  lemma RecoveryEvolves(q: Tables, staleSeconds: int, batchSize: nat, locked: set<RunId>, now: int)
    requires CellsInv(q) && staleSeconds >= 1
    ensures TablesEvolve(q, OnAll(q, StaleBatch(q, staleSeconds, batchSize, now, locked), Recover(staleSeconds), now))
  {
    BatchIsKnown(q, staleSeconds, batchSize, locked, now);
    ActAllEvolves(q, StaleBatch(q, staleSeconds, batchSize, now, locked), Recover(staleSeconds), now);
  }

  lemma CallEvolves(s: State, w: WorkerId, call: Call, now: int)
    requires Inv(s) && Enabled(s, Tell(w, call), now)
    ensures TablesEvolve(s.q, Next(s, Tell(w, call), now).q)
  {
    CallIsDisciplined(s.q, s.mem, w, s.workers[w], call, now);
    var hand := s.workers[w].hand;
    ActEvolves(s.q, Target(hand), ActionOf(w, hand, call), now);
    TellNext(s, w, call, now);
  }

  lemma EnqueueEvolves(q: Tables, id: RunId, spec: RunSpec, now: int)
    requires WellKeyed(q) && id !in q.runs
    ensures TablesEvolve(q, Put(q, id, Enqueued(spec, now)))
  {
    EnqueueFrame(q, id, spec, now);
  }

  // What a step makes of the tables of the queue; calls are described by TellNext.
  ghost predicate TablesAfter(q: Tables, step: Step, now: int, d: Tables) {
    match step
    case Enqueue(id, spec) => id !in q.runs && d == Put(q, id, Enqueued(spec, now))
    case Claim(w, locks, maxQuarantined, retired, picked, _) =>
      ClaimCall(q, w, now, locks, maxQuarantined, retired, picked) && d == AfterClaim(q, w, now, retired, picked)
    case Tell(_, _) => true
    case RecoverStale(staleSeconds, batchSize, locked) =>
      staleSeconds >= 1
      && (d == q || d == OnAll(q, StaleBatch(q, staleSeconds, batchSize, now, locked), Recover(staleSeconds), now))
    case ClaimSummary(w, staleSeconds, locked, id, _) =>
      IsItemCandidate(q, now, staleSeconds, locked, id) && d == ItemTaken(q, id, w, staleSeconds, now)
    case _ => d == q
  }

  lemma StepTables(s: State, step: Step, now: int)
    requires Enabled(s, step, now)
    ensures TablesAfter(s.q, step, now, Next(s, step, now).q)
  {
  }

  lemma StepEvolves(s: State, step: Step, now: int)
    requires Inv(s) && Enabled(s, step, now)
    ensures TablesEvolve(s.q, Next(s, step, now).q)
  {
    StepTables(s, step, now);
    TablesEvolveReflexive(s.q);
    match step
    case Enqueue(id, spec) => EnqueueEvolves(s.q, id, spec, now);
    case Claim(w, locks, maxQuarantined, retired, picked, _) =>
      ClaimEvolves(s.q, w, locks, maxQuarantined, retired, picked, now);
    case Tell(w, call) => CallEvolves(s, w, call, now);
    case RecoverStale(staleSeconds, batchSize, locked) => RecoveryEvolves(s.q, staleSeconds, batchSize, locked, now);
    case ClaimSummary(w, staleSeconds, _, id, _) => ActEvolves(s.q, id, ClaimItem(w, staleSeconds), now);
    case _ =>
  }

  lemma WriteEvolves(s: State, w: WorkerId, memoryId: MemoryId, now: int)
    requires UniqueSources(s.mem) && Enabled(s, WriteSummary(w, memoryId), now)
    ensures MemoryEvolves(s.mem, Next(s, WriteSummary(w, memoryId), now).mem)
  {
    UpsertKeepsUnique(s.mem, memoryId, SummaryMemory(s.workers[w].hand.item, s.workers[w].space, now));
  }

  lemma RecallEvolves(s: State, step: Step, now: int)
    requires step.RecallMemories? && Enabled(s, step, now)
    ensures MemoryEvolves(s.mem, Next(s, step, now).mem)
  {
    RecallNext(s, step.worker, step.distance, step.relevance, step.plan, now);
  }

  lemma StepKeepsMemories(s: State, step: Step, now: int)
    requires UniqueSources(s.mem) && Enabled(s, step, now)
    ensures MemoryEvolves(s.mem, Next(s, step, now).mem)
  {
    match step
    case WriteSummary(w, memoryId) => WriteEvolves(s, w, memoryId, now);
    case RecallMemories(_, _, _, _) => RecallEvolves(s, step, now);
    case WriteMemory(api, memoryId, memory) => ApiWriteNext(s, api, memoryId, memory, now);
    case _ =>
  }

  // Along every execution: runs and memories are never lost; a run's request, its finished row and
  // its outbox contents never change again; attempts only grow and logs are only appended to; a
  // completed item is never reopened.
  lemma {:induction false} NothingIsUndone(tr: Trace, i: nat, j: nat)
    requires Steps(tr) && Inv(tr.states[0]) && i <= j < |tr.states|
    ensures TablesEvolve(tr.states[i].q, tr.states[j].q)
    ensures MemoryEvolves(tr.states[i].mem, tr.states[j].mem)
    decreases j
  {
    if i == j {
      ExecutionKeepsInv(tr, i);
      TablesEvolveReflexive(tr.states[i].q);
    } else {
      NothingIsUndone(tr, i, j - 1);
      ExecutionKeepsInv(tr, j - 1);
      assert Follows(tr, j - 1);
      StepEvolves(tr.states[j - 1], tr.steps[j - 1], tr.nows[j - 1]);
      StepKeepsMemories(tr.states[j - 1], tr.steps[j - 1], tr.nows[j - 1]);
      TablesEvolveTransitive(tr.states[i].q, tr.states[j - 1].q, tr.states[j].q);
    }
  }

  // ---- building executions ----------------------------------------------------------------------

  lemma OneStep(s: State, step: Step, now: int) returns (tr: Trace)
    requires Enabled(s, step, now)
    ensures Steps(tr) && tr.states == [s, Next(s, step, now)] && tr.steps == [step] && tr.nows == [now]
  {
    tr := Trace([s, Next(s, step, now)], [step], [now]);
  }

  lemma Join(a: Trace, b: Trace) returns (tr: Trace)
    requires Steps(a) && Steps(b) && a.states[|a.states| - 1] == b.states[0]
    ensures Steps(tr) && tr.states[0] == a.states[0] && tr.states[|tr.states| - 1] == b.states[|b.states| - 1]
    ensures tr.steps == a.steps + b.steps && tr.nows == a.nows + b.nows
  {
    tr := Trace(a.states + b.states[1..], a.steps + b.steps, a.nows + b.nows);
    forall i | 0 <= i < |tr.steps|
      ensures Follows(tr, i)
    {
      if i < |a.steps| {
        assert Follows(a, i);
      } else {
        assert Follows(b, i - |a.steps|);
      }
    }
  }

  lemma ReachableNext(s: State, step: Step, now: int)
    requires Reachable(s) && Enabled(s, step, now)
    ensures Reachable(Next(s, step, now))
  {
    var tr :| Execution(tr) && tr.states[|tr.states| - 1] == s;
    var last := OneStep(s, step, now);
    var joined := Join(tr, last);
    assert Execution(joined);
  }
  lemma ReachableAlong(tr: Trace)
    requires Steps(tr) && Reachable(tr.states[0])
    ensures Reachable(tr.states[|tr.states| - 1])
  {
    var first :| Execution(first) && first.states[|first.states| - 1] == tr.states[0];
    var joined := Join(first, tr);
    assert Execution(joined);
  }
}
