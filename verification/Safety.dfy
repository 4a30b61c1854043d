// The invariant of the whole system, kept by every step.
module Safety {
  import opened Prelude
  import opened Retry
  import opened Runs
  import opened Cells
  import opened History
  import opened Queue
  import opened Memories
  import opened Fusion
  import opened System

  ghost predicate LastStart(c: Cell, at: int) {
    StartTimes(c.log) != [] && StartTimes(c.log)[|StartTimes(c.log)| - 1] == at
  }

  // A run token in a worker's hand: stale ones can never pass the fence again.
  ghost predicate GoodToken(c: Cell, w: WorkerId, t: ClaimedRun, claimedAt: int) {
    && t.workerId == w && TokenOf(t, t.id, c.row)
    && t.attempts <= c.row.attempts
    && (c.row.status == Running ==> (c.row.workerId == Some(w) <==> c.row.attempts == t.attempts))
    && (Holds(c.row, w) ==> LastStart(c, claimedAt))
  }

  ghost predicate GoodItem(item: Item, w: WorkerId, t: SummaryItem) {
    && t.workerId == w
    && (t.tenant, t.subject, t.namespace) == (item.tenant, item.subject, item.namespace)
    && (t.embeddingModel, t.embeddingDim) == (item.embeddingModel, item.embeddingDim)
    && (t.content, t.metadata) == (item.content, item.metadata) && !IsBlank(t.content)
    && 1 <= t.attempts <= item.attempts
    && (item.claimedBy.Some? ==> (item.claimedBy == Some(w) <==> item.attempts == t.attempts))
  }

  ghost predicate SummaryOf(m: Memory, id: RunId, item: Item) {
    && m.sourceRun == Some(id) && m.kind == RunSummary && m.expiresAt == None && m.importance == 0.55
    && ScopeOf(m) == Scope(item.tenant, item.subject, item.namespace)
    && m.content == item.content && m.metadata == item.metadata && !IsBlank(m.content)
    && m.space == Space(item.embeddingModel, item.embeddingDim)
  }

  ghost predicate HasSummary(mem: MemoryTable, id: RunId) {
    exists i :: i in mem && mem[i].sourceRun == Some(id)
  }

  ghost predicate CellsInv(q: Tables) {
    WellKeyed(q) && forall id :: id in q.runs ==> CellInv(id, Get(q, id))
  }

  // Summaries and outbox items agree in both directions.
  ghost predicate MemoryInv(q: Tables, mem: MemoryTable) {
    && UniqueSources(mem)
    && (forall i :: i in mem && mem[i].sourceRun.Some? ==>
          mem[i].sourceRun.value in q.outbox
          && SummaryOf(mem[i], mem[i].sourceRun.value, q.outbox[mem[i].sourceRun.value]))
    && (forall id :: id in q.outbox && q.outbox[id].completedAt.Some? ==>
          if q.outbox[id].lastError.None? then HasSummary(mem, id) else IsBlank(q.outbox[id].content))
  }

  ghost predicate HandInv(q: Tables, mem: MemoryTable, w: WorkerId, hand: Hand) {
    match hand
    case Idle => true
    case Executing(t, at) => t.id in q.runs && t.id in q.events && GoodToken(Get(q, t.id), w, t, at)
    case Delivering(t, written) =>
      t.runId in q.outbox && GoodItem(q.outbox[t.runId], w, t) && (written ==> HasSummary(mem, t.runId))
    case Rejecting(id) => id in q.outbox && IsBlank(q.outbox[id].content)
  }

  ghost predicate RecordedSpace(row: Row, space: Space) {
    row.spec.modelConfig.JObj? && ModelOk(row.spec.modelConfig.fields) && SpaceOf(row.spec.modelConfig.fields) == space
  }

  ghost predicate RecallsInv(q: Tables, recalls: seq<Recall>) {
    forall i :: 0 <= i < |recalls| ==>
        recalls[i].runId in q.runs && RecordedSpace(q.runs[recalls[i].runId], recalls[i].space)
  }

  // What an API process wrote carries that process's own space.
  ghost predicate WritersInv(mem: MemoryTable, apis: map<ApiId, Space>, writers: map<MemoryId, ApiId>) {
    forall i :: i in mem && mem[i].sourceRun.None? ==>
      i in writers && writers[i] in apis && mem[i].space == apis[writers[i]]
  }

  ghost predicate Inv(s: State) {
    && CellsInv(s.q) && MemoryInv(s.q, s.mem) && RecallsInv(s.q, s.recalls) && WritersInv(s.mem, s.apis, s.writers)
    && forall w :: w in s.workers ==> HandInv(s.q, s.mem, w, s.workers[w].hand)
  }

  // ---- one action on one run ------------------------------------------------------------------

  function Claimant(a: Action): Option<WorkerId> {
    match a
    case Start(w) => Some(w)
    case Quarantine(w) => Some(w)
    case ClaimItem(w, _) => Some(w)
    case _ => None
  }

  lemma TokenKept(id: RunId, c: Cell, a: Action, now: int, w: WorkerId, t: ClaimedRun, at: int)
    requires CellInv(id, c) && Disciplined(id, c, a, now) && GoodToken(c, w, t, at) && Claimant(a) != Some(w)
    ensures GoodToken(Apply(c, a, now), w, t, at)
  {
    var event := EventOf(c.row, a);
    if event.Some? {
      StartTimesAppend(c.log, event.value, now);
    }
  }

  lemma ItemKept(id: RunId, c: Cell, a: Action, now: int, w: WorkerId, t: SummaryItem)
    requires CellInv(id, c) && Disciplined(id, c, a, now) && c.item.Some? && Claimant(a) != Some(w)
    requires GoodItem(c.item.value, w, t)
    ensures Apply(c, a, now).item.Some? && GoodItem(Apply(c, a, now).item.value, w, t)
  {
  }

  // Completing needs a delivered summary, rejecting an unusable one.
  ghost predicate Settles(q: Tables, mem: MemoryTable, id: RunId, a: Action) {
    && (a.CompleteItem? ==> id in q.outbox ==> HasSummary(mem, id))
    && (a.RejectItem? ==> id in q.outbox ==> IsBlank(q.outbox[id].content))
  }

  lemma ActKeepsCells(q: Tables, id: RunId, a: Action, now: int)
    requires CellsInv(q) && id in q.runs && Disciplined(id, Get(q, id), a, now)
    ensures CellsInv(On(q, id, a, now)) && On(q, id, a, now).runs.Keys == q.runs.Keys
  {
    OnFrame(q, id, a, now);
    ApplyInv(id, Get(q, id), a, now);
  }

  lemma StaysPut(id: RunId, c: Cell)
    requires CellInv(id, c)
    ensures Evolves(c, c)
  {
    LifecycleBudget(id, c);
  }

  lemma ActMovesCells(q: Tables, id: RunId, a: Action, now: int)
    requires CellsInv(q) && id in q.runs && Disciplined(id, Get(q, id), a, now)
    ensures WellKeyed(On(q, id, a, now)) && On(q, id, a, now).runs.Keys == q.runs.Keys
    ensures forall x :: x in q.runs ==> Evolves(Get(q, x), Get(On(q, id, a, now), x))
  {
    OnFrame(q, id, a, now);
    ApplyEvolves(id, Get(q, id), a, now);
    var done := On(q, id, a, now);
    forall x | x in q.runs && x != id
      ensures Evolves(Get(q, x), Get(done, x))
    {
      StaysPut(x, Get(q, x));
    }
  }

  // How one action moves the outbox: contents stay, and an item becomes completed only by
  // completion or rejection.
  ghost predicate OutboxMoves(q: Tables, done: Tables, id: RunId, a: Action) {
    && (forall x :: x in q.outbox ==> x in done.outbox && SameContent(q.outbox[x], done.outbox[x]))
    && (forall x :: x in done.outbox && done.outbox[x].completedAt.Some? ==>
          || (x in q.outbox && done.outbox[x] == q.outbox[x])
          || (x == id && a.CompleteItem? && done.outbox[x].lastError.None?)
          || (x == id && a.RejectItem? && done.outbox[x].lastError.Some?))
  }

  lemma SettledBy(id: RunId, c: Cell, a: Action, now: int)
    requires CellInv(id, c) && Disciplined(id, c, a, now)
    requires Apply(c, a, now).item.Some? && Apply(c, a, now).item.value.completedAt.Some?
    ensures || Apply(c, a, now).item == c.item
            || (a.CompleteItem? && Apply(c, a, now).item.value.lastError.None?)
            || (a.RejectItem? && Apply(c, a, now).item.value.lastError.Some?)
  {
  }

  lemma ActMovesOutbox(q: Tables, id: RunId, a: Action, now: int)
    requires CellsInv(q) && id in q.runs && Disciplined(id, Get(q, id), a, now)
    ensures OutboxMoves(q, On(q, id, a, now), id, a)
  {
    ActKeepsContents(q, id, a, now);
    OnFrame(q, id, a, now);
    var done := On(q, id, a, now);
    forall x | x in done.outbox && done.outbox[x].completedAt.Some?
      ensures || (x in q.outbox && done.outbox[x] == q.outbox[x])
              || (x == id && a.CompleteItem? && done.outbox[x].lastError.None?)
              || (x == id && a.RejectItem? && done.outbox[x].lastError.Some?)
    {
      assert Get(done, x).item == Some(done.outbox[x]);
      if x == id {
        SettledBy(id, Get(q, id), a, now);
      }
    }
  }

  lemma ActKeepsContents(q: Tables, id: RunId, a: Action, now: int)
    requires CellsInv(q) && id in q.runs && Disciplined(id, Get(q, id), a, now)
    ensures var done := On(q, id, a, now);
            forall x :: x in q.outbox ==> x in done.outbox && SameContent(q.outbox[x], done.outbox[x])
  {
    ActMovesCells(q, id, a, now);
    var done := On(q, id, a, now);
    forall x | x in q.outbox
      ensures x in done.outbox && SameContent(q.outbox[x], done.outbox[x])
    {
      assert Evolves(Get(q, x), Get(done, x));
    }
  }

  lemma ActKeepsMemory(q: Tables, done: Tables, mem: MemoryTable, id: RunId, a: Action)
    requires MemoryInv(q, mem) && OutboxMoves(q, done, id, a) && Settles(q, mem, id, a)
    requires id in done.outbox && (a.CompleteItem? || a.RejectItem?) ==> id in q.outbox
    ensures MemoryInv(done, mem)
  {
    forall i | i in mem && mem[i].sourceRun.Some?
      ensures mem[i].sourceRun.value in done.outbox
              && SummaryOf(mem[i], mem[i].sourceRun.value, done.outbox[mem[i].sourceRun.value])
    {
      var x := mem[i].sourceRun.value;
      assert SameContent(q.outbox[x], done.outbox[x]);
    }
    if id in q.outbox {
      assert SameContent(q.outbox[id], done.outbox[id]);
    }
  }

  lemma ActKeepsToken(q: Tables, id: RunId, a: Action, now: int, w: WorkerId, t: ClaimedRun, at: int)
    requires CellsInv(q) && id in q.runs && Disciplined(id, Get(q, id), a, now) && Claimant(a) != Some(w)
    requires t.id in q.runs && GoodToken(Get(q, t.id), w, t, at)
    ensures t.id in On(q, id, a, now).runs && t.id in On(q, id, a, now).events
    ensures GoodToken(Get(On(q, id, a, now), t.id), w, t, at)
  {
    OnFrame(q, id, a, now);
    if t.id == id {
      TokenKept(id, Get(q, id), a, now, w, t, at);
    }
  }

  lemma ActKeepsItem(q: Tables, id: RunId, a: Action, now: int, w: WorkerId, t: SummaryItem)
    requires CellsInv(q) && id in q.runs && Disciplined(id, Get(q, id), a, now) && Claimant(a) != Some(w)
    requires t.runId in q.outbox && GoodItem(q.outbox[t.runId], w, t)
    ensures t.runId in On(q, id, a, now).outbox && GoodItem(On(q, id, a, now).outbox[t.runId], w, t)
  {
    OnFrame(q, id, a, now);
    var done := On(q, id, a, now);
    assert Get(q, t.runId).item == Some(q.outbox[t.runId]);
    if t.runId == id {
      ItemKept(id, Get(q, id), a, now, w, t);
      assert Get(done, t.runId).item.Some?;
    } else {
      assert Get(done, t.runId) == Get(q, t.runId);
    }
  }

  lemma ActKeepsHand(q: Tables, mem: MemoryTable, id: RunId, a: Action, now: int, w: WorkerId, hand: Hand)
    requires CellsInv(q) && id in q.runs && Disciplined(id, Get(q, id), a, now)
    requires HandInv(q, mem, w, hand) && (hand != Idle ==> Claimant(a) != Some(w))
    ensures HandInv(On(q, id, a, now), mem, w, hand)
  {
    match hand
    case Idle =>
    case Executing(t, at) => ActKeepsToken(q, id, a, now, w, t, at);
    case Delivering(t, _) => ActKeepsItem(q, id, a, now, w, t);
    case Rejecting(x) =>
      ActMovesOutbox(q, id, a, now);
      assert SameContent(q.outbox[x], On(q, id, a, now).outbox[x]);
  }

  lemma ActKeepsRecalls(q: Tables, recalls: seq<Recall>, id: RunId, a: Action, now: int)
    requires CellsInv(q) && id in q.runs && Disciplined(id, Get(q, id), a, now) && RecallsInv(q, recalls)
    ensures RecallsInv(On(q, id, a, now), recalls)
  {
    ActMovesCells(q, id, a, now);
    var done := On(q, id, a, now);
    forall i | 0 <= i < |recalls|
      ensures recalls[i].runId in done.runs && RecordedSpace(done.runs[recalls[i].runId], recalls[i].space)
    {
      var x := recalls[i].runId;
      assert x in q.runs && Evolves(Get(q, x), Get(done, x));
    }
  }

  lemma NoFreshItem(q: Tables, id: RunId, a: Action, now: int)
    requires WellKeyed(q) && id in q.runs && (a.CompleteItem? || a.RejectItem?)
    ensures id in On(q, id, a, now).outbox ==> id in q.outbox
  {
    OnFrame(q, id, a, now);
    NoItemFromNothing(Get(q, id), a, now);
    if id in On(q, id, a, now).outbox {
      assert Get(On(q, id, a, now), id).item.Some?;
    }
  }

  lemma NoItemFromNothing(c: Cell, a: Action, now: int)
    requires a.CompleteItem? || a.RejectItem?
    ensures Apply(c, a, now).item.Some? ==> c.item.Some?
  {
  }

  lemma ActKeepsTables(q: Tables, mem: MemoryTable, recalls: seq<Recall>, id: RunId, a: Action, now: int)
    requires CellsInv(q) && MemoryInv(q, mem) && RecallsInv(q, recalls)
    requires id in q.runs && Disciplined(id, Get(q, id), a, now) && Settles(q, mem, id, a)
    ensures var done := On(q, id, a, now);
            CellsInv(done) && MemoryInv(done, mem) && RecallsInv(done, recalls)
  {
    ActKeepsCells(q, id, a, now);
    ActMovesOutbox(q, id, a, now);
    if a.CompleteItem? || a.RejectItem? {
      NoFreshItem(q, id, a, now);
    }
    ActKeepsMemory(q, On(q, id, a, now), mem, id, a);
    ActKeepsRecalls(q, recalls, id, a, now);
  }

  lemma ActKeepsInv(s: State, id: RunId, a: Action, now: int)
    requires Inv(s) && id in s.q.runs && Disciplined(id, Get(s.q, id), a, now) && Settles(s.q, s.mem, id, a)
    requires forall w :: w in s.workers && s.workers[w].hand != Idle ==> Claimant(a) != Some(w)
    ensures Inv(s.(q := On(s.q, id, a, now)))
  {
    ActKeepsTables(s.q, s.mem, s.recalls, id, a, now);
    ActKeepsHands(s, id, a, now);
  }

  lemma ActKeepsHands(s: State, id: RunId, a: Action, now: int)
    requires CellsInv(s.q) && id in s.q.runs && Disciplined(id, Get(s.q, id), a, now)
    requires forall w :: w in s.workers ==> HandInv(s.q, s.mem, w, s.workers[w].hand)
    requires forall w :: w in s.workers && s.workers[w].hand != Idle ==> Claimant(a) != Some(w)
    ensures forall w :: w in s.workers ==> HandInv(On(s.q, id, a, now), s.mem, w, s.workers[w].hand)
  {
    forall w | w in s.workers
      ensures HandInv(On(s.q, id, a, now), s.mem, w, s.workers[w].hand)
    {
      ActKeepsHand(s.q, s.mem, id, a, now, w, s.workers[w].hand);
    }
  }

  // The loops of claim and recovery apply one action to several runs.
  lemma {:induction false} ActAllKeepsInv(s: State, ids: seq<RunId>, a: Action, now: int)
    requires Inv(s) && Known(s.q, ids) && (a.Quarantine? || (a.Recover? && a.staleSeconds >= 1))
    requires forall w :: w in s.workers && s.workers[w].hand != Idle ==> Claimant(a) != Some(w)
    ensures Inv(s.(q := OnAll(s.q, ids, a, now))) && OnAll(s.q, ids, a, now).runs.Keys == s.q.runs.Keys
  {
    if ids != [] {
      var front, last := ids[..|ids| - 1], ids[|ids| - 1];
      ActAllKeepsInv(s, front, a, now);
      assert last in ids;
      ActKeepsInv(s.(q := OnAll(s.q, front, a, now)), last, a, now);
      ActKeepsCells(OnAll(s.q, front, a, now), last, a, now);
    }
  }

  // ---- the steps ------------------------------------------------------------------------------

  lemma EnqueueFrame(q: Tables, id: RunId, spec: RunSpec, now: int)
    requires WellKeyed(q) && id !in q.runs
    ensures var done := Put(q, id, Enqueued(spec, now));
            && WellKeyed(done) && done.outbox == q.outbox && done.runs.Keys == q.runs.Keys + {id}
            && Get(done, id) == Enqueued(spec, now)
            && forall x :: x in q.runs ==> Get(done, x) == Get(q, x)
  {
  }

  lemma EnqueueKeepsCells(q: Tables, id: RunId, spec: RunSpec, now: int)
    requires CellsInv(q) && id !in q.runs && spec.maxAttempts > 0
    ensures CellsInv(Put(q, id, Enqueued(spec, now)))
  {
    EnqueuedInv(id, spec, now);
    EnqueueFrame(q, id, spec, now);
    var done := Put(q, id, Enqueued(spec, now));
    forall x | x in done.runs
      ensures CellInv(x, Get(done, x))
    {
      assert x != id ==> Get(done, x) == Get(q, x);
    }
  }

  // Runs that stay as they are keep their tokens and recalls.
  lemma UnchangedHand(q: Tables, d: Tables, mem: MemoryTable, w: WorkerId, hand: Hand)
    requires HandInv(q, mem, w, hand) && d.outbox == q.outbox && WellKeyed(d)
    requires forall x :: x in q.runs && x in q.events ==> x in d.runs && Get(d, x) == Get(q, x)
    ensures HandInv(d, mem, w, hand)
  {
  }

  lemma UnchangedRecalls(q: Tables, d: Tables, recalls: seq<Recall>)
    requires RecallsInv(q, recalls) && WellKeyed(q) && WellKeyed(d)
    requires forall x :: x in q.runs ==> x in d.runs && Get(d, x) == Get(q, x)
    ensures RecallsInv(d, recalls)
  {
    forall i | 0 <= i < |recalls|
      ensures recalls[i].runId in d.runs && RecordedSpace(d.runs[recalls[i].runId], recalls[i].space)
    {
      assert Get(d, recalls[i].runId) == Get(q, recalls[i].runId);
    }
  }

  lemma EnqueueKeepsInv(s: State, id: RunId, spec: RunSpec, now: int)
    requires Inv(s) && Enabled(s, Enqueue(id, spec), now)
    ensures Inv(Next(s, Enqueue(id, spec), now))
  {
    EnqueueKeepsCells(s.q, id, spec, now);
    EnqueueFrame(s.q, id, spec, now);
    var d := Put(s.q, id, Enqueued(spec, now));
    UnchangedRecalls(s.q, d, s.recalls);
    forall w | w in s.workers
      ensures HandInv(d, s.mem, w, s.workers[w].hand)
    {
      UnchangedHand(s.q, d, s.mem, w, s.workers[w].hand);
    }
  }

  lemma SetHandKeepsInv(s: State, w: WorkerId, hand: Hand)
    requires Inv(s) && w in s.workers && HandInv(s.q, s.mem, w, hand)
    ensures Inv(SetHand(s, w, hand))
  {
  }

  lemma StartedHand(q: Tables, mem: MemoryTable, w: WorkerId, id: RunId, now: int)
    requires WellKeyed(q) && id in q.runs && CellInv(id, Get(q, id))
    requires Eligible(q.runs[id], now) && Decodes(id, q.runs[id], w, now)
    ensures HandInv(On(q, id, Start(w), now), mem, w, Executing(TokenFor(id, q.runs[id], w, now), now))
  {
    OnFrame(q, id, Start(w), now);
    NewTokenIsGood(id, Get(q, id), w, now);
  }

  lemma StartKeepsInv(s: State, w: WorkerId, id: RunId, now: int)
    requires Inv(s) && w in s.workers && s.workers[w].hand == Idle && id in s.q.runs
    requires Eligible(s.q.runs[id], now) && Decodes(id, s.q.runs[id], w, now)
    ensures Inv(s.(q := On(s.q, id, Start(w), now)))
    ensures HandInv(On(s.q, id, Start(w), now), s.mem, w, Executing(TokenFor(id, s.q.runs[id], w, now), now))
  {
    ActKeepsInv(s, id, Start(w), now);
    StartedHand(s.q, s.mem, w, id, now);
  }

  lemma ClaimKeepsInv(s: State, w: WorkerId, locks: seq<set<RunId>>, maxQuarantined: int, retired: seq<RunId>,
                      picked: Option<RunId>, replyLost: bool, now: int)
    requires Inv(s) && Enabled(s, Claim(w, locks, maxQuarantined, retired, picked, replyLost), now)
    ensures Inv(Next(s, Claim(w, locks, maxQuarantined, retired, picked, replyLost), now))
  {
    PoisonIsClaimable(s.q, w, now, locks, retired);
    ActAllKeepsInv(s, retired, Quarantine(w), now);
    if picked.Some? {
      var rest := s.(q := QuarantineAll(s.q, retired, w, now));
      StartKeepsInv(rest, w, picked.value, now);
      if !replyLost {
        SetHandKeepsInv(s.(q := AfterClaim(s.q, w, now, retired, picked)), w,
                        Executing(TokenFor(picked.value, rest.q.runs[picked.value], w, now), now));
      }
    }
  }

  lemma NewTokenIsGood(id: RunId, c: Cell, w: WorkerId, now: int)
    requires CellInv(id, c) && Eligible(c.row, now) && Decodes(id, c.row, w, now)
    ensures GoodToken(Apply(c, Start(w), now), w, TokenFor(id, c.row, w, now), now)
            && TokenFor(id, c.row, w, now).id == id
  {
    StartTimesAppend(c.log, EventOf(c.row, Start(w)).value, now);
  }

  // A recovery changes nothing or applies one action to its batch.
  lemma RecoveryShapes(s: State, staleSeconds: int, batchSize: nat, locked: set<RunId>, now: int)
    requires Enabled(s, RecoverStale(staleSeconds, batchSize, locked), now)
    ensures var d := Next(s, RecoverStale(staleSeconds, batchSize, locked), now);
            var ids := StaleBatch(s.q, staleSeconds, batchSize, now, locked);
            d == s || d == s.(q := OnAll(s.q, ids, Recover(staleSeconds), now))
  {
  }

  lemma BatchIsKnown(q: Tables, staleSeconds: int, batchSize: nat, locked: set<RunId>, now: int)
    ensures Known(q, StaleBatch(q, staleSeconds, batchSize, now, locked))
  {
    BatchIsOldest(q, staleSeconds, batchSize, now, locked);
  }

  lemma RecoveryKeepsInv(s: State, staleSeconds: int, batchSize: nat, locked: set<RunId>, now: int)
    requires Inv(s) && Enabled(s, RecoverStale(staleSeconds, batchSize, locked), now)
    ensures Inv(Next(s, RecoverStale(staleSeconds, batchSize, locked), now))
  {
    BatchIsKnown(s.q, staleSeconds, batchSize, locked, now);
    ActAllKeepsInv(s, StaleBatch(s.q, staleSeconds, batchSize, now, locked), Recover(staleSeconds), now);
    RecoveryShapes(s, staleSeconds, batchSize, locked, now);
  }

  lemma TouchKeepsWriters(mem: MemoryTable, apis: map<ApiId, Space>, writers: map<MemoryId, ApiId>,
                          returned: set<MemoryId>, now: int)
    requires WritersInv(mem, apis, writers)
    ensures WritersInv(Touch(mem, returned, now), apis, writers)
  {
  }

  lemma TouchKeepsInv(s: State, returned: set<MemoryId>, now: int)
    requires Inv(s)
    ensures Inv(s.(mem := Touch(s.mem, returned, now)))
  {
    TouchKeepsMemory(s.q, s.mem, returned, now);
    TouchKeepsWriters(s.mem, s.apis, s.writers, returned, now);
    MemoryGrows(s, Touch(s.mem, returned, now), s.writers);
  }

  lemma RecordKeepsInv(s: State, recall: Recall)
    requires Inv(s) && recall.runId in s.q.runs && RecordedSpace(s.q.runs[recall.runId], recall.space)
    ensures Inv(s.(recalls := s.recalls + [recall]))
  {
  }

  lemma HeldSpace(q: Tables, mem: MemoryTable, w: WorkerId, worker: Worker)
    requires worker.hand.Executing? && HandInv(q, mem, w, worker.hand)
             && Compatible(worker.hand.token.modelConfig, worker.space)
    ensures worker.hand.token.id in q.runs && RecordedSpace(q.runs[worker.hand.token.id], worker.space)
  {
    CompatibleIsSameSpace(worker.hand.token.modelConfig, worker.space);
  }

  lemma RecallKeepsInv(s: State, w: WorkerId, distance: map<MemoryId, real>, relevance: map<MemoryId, real>,
                       plan: Plan, now: int)
    requires Inv(s) && Enabled(s, RecallMemories(w, distance, relevance, plan), now)
    ensures Inv(Next(s, RecallMemories(w, distance, relevance, plan), now))
  {
    HeldSpace(s.q, s.mem, w, s.workers[w]);
    RecallNext(s, w, distance, relevance, plan, now);
    var token := s.workers[w].hand.token;
    var returned := SearchMemories(s.mem, RecallQuery(token, now), plan);
    TouchKeepsInv(s, Elements(returned), now);
    RecordKeepsInv(s.(mem := Touch(s.mem, Elements(returned), now)), Recall(w, s.workers[w].space, token.id, returned));
  }

  lemma TouchKeepsMemory(q: Tables, mem: MemoryTable, returned: set<MemoryId>, now: int)
    requires MemoryInv(q, mem)
    ensures MemoryInv(q, Touch(mem, returned, now))
    ensures forall id: RunId :: HasSummary(mem, id) ==> HasSummary(Touch(mem, returned, now), id)
  {
    var done := Touch(mem, returned, now);
    forall id: RunId | HasSummary(mem, id)
      ensures HasSummary(done, id)
    {
      var i :| i in mem && mem[i].sourceRun == Some(id);
      assert done[i].sourceRun == Some(id);
    }
    forall i, j | i in done && j in done && SameSource(done[i], done[j])
      ensures i == j
    {
      assert SameSource(mem[i], mem[j]);
    }
  }

  lemma MemoryGrows(s: State, mem: MemoryTable, writers: map<MemoryId, ApiId>)
    requires Inv(s) && MemoryInv(s.q, mem) && WritersInv(mem, s.apis, writers)
    requires forall i :: i in s.mem ==> i in mem && mem[i].sourceRun == s.mem[i].sourceRun
    ensures Inv(s.(mem := mem, writers := writers))
  {
    HandsSurvive(s.q, s.mem, mem, s.workers);
  }

  lemma HandsSurvive(q: Tables, mem: MemoryTable, done: MemoryTable, workers: map<WorkerId, Worker>)
    requires forall w :: w in workers ==> HandInv(q, mem, w, workers[w].hand)
    requires forall i :: i in mem ==> i in done && done[i].sourceRun == mem[i].sourceRun
    ensures forall w :: w in workers ==> HandInv(q, done, w, workers[w].hand)
  {
    forall w | w in workers
      ensures HandInv(q, done, w, workers[w].hand)
    {
      HandSurvives(q, mem, done, w, workers[w].hand);
    }
  }

  lemma HandSurvives(q: Tables, mem: MemoryTable, done: MemoryTable, w: WorkerId, hand: Hand)
    requires HandInv(q, mem, w, hand)
    requires forall i :: i in mem ==> i in done && done[i].sourceRun == mem[i].sourceRun
    ensures HandInv(q, done, w, hand)
  {
    if hand.Delivering? && hand.written {
      var i :| i in mem && mem[i].sourceRun == Some(hand.item.runId);
      assert done[i].sourceRun == Some(hand.item.runId);
    }
  }

  lemma UpsertKeepsMemory(q: Tables, mem: MemoryTable, memoryId: MemoryId, m: Memory)
    requires MemoryInv(q, mem) && memoryId !in mem
    requires m.sourceRun.Some? && m.sourceRun.value in q.outbox
             && SummaryOf(m, m.sourceRun.value, q.outbox[m.sourceRun.value])
    ensures MemoryInv(q, Upsert(mem, memoryId, m)) && HasSummary(Upsert(mem, memoryId, m), m.sourceRun.value)
    ensures forall i :: i in mem ==> i in Upsert(mem, memoryId, m) && Upsert(mem, memoryId, m)[i] == mem[i]
  {
    UpsertKeepsUnique(mem, memoryId, m);
    var done := Upsert(mem, memoryId, m);
    forall id: RunId | HasSummary(mem, id)
      ensures HasSummary(done, id)
    {
      var i :| i in mem && mem[i].sourceRun == Some(id);
      assert done[i].sourceRun == Some(id);
    }
    var i :| i in done && SameSource(done[i], m);
    assert done[i].sourceRun == m.sourceRun;
  }

  lemma UpsertKeepsWriters(mem: MemoryTable, apis: map<ApiId, Space>, writers: map<MemoryId, ApiId>,
                           memoryId: MemoryId, m: Memory)
    requires WritersInv(mem, apis, writers) && m.sourceRun.Some?
    ensures WritersInv(Upsert(mem, memoryId, m), apis, writers)
  {
  }

  lemma HeldSummary(q: Tables, mem: MemoryTable, w: WorkerId, worker: Worker, now: int)
    requires HandInv(q, mem, w, worker.hand) && worker.hand.Delivering?
    requires var item := worker.hand.item; Space(item.embeddingModel, item.embeddingDim) == worker.space
    ensures var item := worker.hand.item;
            item.runId in q.outbox
            && SummaryOf(SummaryMemory(item, worker.space, now), item.runId, q.outbox[item.runId])
  {
  }

  lemma WriteKeepsInv(s: State, w: WorkerId, memoryId: MemoryId, now: int)
    requires Inv(s) && Enabled(s, WriteSummary(w, memoryId), now)
    ensures Inv(Next(s, WriteSummary(w, memoryId), now))
  {
    var item := s.workers[w].hand.item;
    HeldSummary(s.q, s.mem, w, s.workers[w], now);
    UpsertAndHold(s, w, memoryId, item, SummaryMemory(item, s.workers[w].space, now));
    WriteNext(s, w, memoryId, now);
  }

  lemma UpsertAndHold(s: State, w: WorkerId, memoryId: MemoryId, item: SummaryItem, m: Memory)
    requires Inv(s) && w in s.workers && memoryId !in s.mem && item.runId in s.q.outbox
    requires s.workers[w].hand.Delivering? && s.workers[w].hand.item == item
    requires m.sourceRun == Some(item.runId) && SummaryOf(m, item.runId, s.q.outbox[item.runId])
    ensures Inv(SetHand(s.(mem := Upsert(s.mem, memoryId, m)), w, Delivering(item, true)))
  {
    UpsertKeepsMemory(s.q, s.mem, memoryId, m);
    UpsertKeepsWriters(s.mem, s.apis, s.writers, memoryId, m);
    var mem := Upsert(s.mem, memoryId, m);
    MemoryGrows(s, mem, s.writers);
    SetHandKeepsInv(s.(mem := mem), w, Delivering(item, true));
  }

  lemma ApiWriteKeepsMemory(q: Tables, mem: MemoryTable, memoryId: MemoryId, memory: Memory)
    requires MemoryInv(q, mem) && memoryId !in mem && memory.sourceRun.None?
    ensures MemoryInv(q, mem[memoryId := memory])
  {
    var done := mem[memoryId := memory];
    forall id: RunId | HasSummary(mem, id)
      ensures HasSummary(done, id)
    {
      var i :| i in mem && mem[i].sourceRun == Some(id);
      assert done[i].sourceRun == Some(id);
    }
  }

  lemma ApiWriteKeepsWriters(mem: MemoryTable, apis: map<ApiId, Space>, writers: map<MemoryId, ApiId>,
                             api: ApiId, memoryId: MemoryId, memory: Memory)
    requires WritersInv(mem, apis, writers) && api in apis && memoryId !in mem && memory.space == apis[api]
    ensures WritersInv(mem[memoryId := memory], apis, writers[memoryId := api])
  {
  }

  lemma ApiWriteKeepsInv(s: State, api: ApiId, memoryId: MemoryId, memory: Memory, now: int)
    requires Inv(s) && Enabled(s, WriteMemory(api, memoryId, memory), now)
    ensures Inv(Next(s, WriteMemory(api, memoryId, memory), now))
  {
    ApiWriteKeepsMemory(s.q, s.mem, memoryId, memory);
    ApiWriteKeepsWriters(s.mem, s.apis, s.writers, api, memoryId, memory);
    ApiWriteNext(s, api, memoryId, memory, now);
    MemoryGrows(s, s.mem[memoryId := memory], s.writers[memoryId := api]);
  }

  lemma TakenDecodes(id: RunId, row: Row, item: Item, taken: Item, w: WorkerId, staleSeconds: int, now: int)
    requires ItemMatches(id, row, item)
    requires Some(taken) == ItemAfter(Some(item), ClaimItem(w, staleSeconds), now)
    ensures var decoded := DecodeSummaryItem(id, taken, w);
            && (decoded.Ok? ==> GoodItem(taken, w, decoded.value) && decoded.value.runId == id)
            && (decoded.Err? ==> IsBlank(taken.content))
  {
  }

  lemma TakenItem(q: Tables, w: WorkerId, staleSeconds: int, id: RunId, now: int)
    requires WellKeyed(q) && id in q.outbox && ItemEligible(q.outbox[id], now, staleSeconds)
    ensures var done := ItemTaken(q, id, w, staleSeconds, now);
            id in done.outbox && Some(done.outbox[id]) == ItemAfter(Some(q.outbox[id]), ClaimItem(w, staleSeconds), now)
  {
    assert Allowed(q, id, ClaimItem(w, staleSeconds), now);
  }

  lemma TakenItemIsGood(q: Tables, mem: MemoryTable, w: WorkerId, staleSeconds: int, id: RunId, now: int)
    requires CellsInv(q) && id in q.outbox && ItemEligible(q.outbox[id], now, staleSeconds)
    ensures var done := ItemTaken(q, id, w, staleSeconds, now);
            && id in done.outbox
            && var decoded := DecodeSummaryItem(id, done.outbox[id], w);
            HandInv(done, mem, w, if decoded.Ok? then Delivering(decoded.value, false) else Rejecting(id))
  {
    TakenItem(q, w, staleSeconds, id, now);
    assert CellInv(id, Get(q, id));
    TakenDecodes(id, q.runs[id], q.outbox[id], ItemTaken(q, id, w, staleSeconds, now).outbox[id], w, staleSeconds, now);
  }

  lemma ClaimSummaryKeepsInv(s: State, w: WorkerId, staleSeconds: int, locked: set<RunId>, id: RunId, replyLost: bool,
                             now: int)
    requires Inv(s) && Enabled(s, ClaimSummary(w, staleSeconds, locked, id, replyLost), now)
    ensures Inv(Next(s, ClaimSummary(w, staleSeconds, locked, id, replyLost), now))
  {
    ActKeepsInv(s, id, ClaimItem(w, staleSeconds), now);
    TakenItemIsGood(s.q, s.mem, w, staleSeconds, id, now);
    var done := s.(q := ItemTaken(s.q, id, w, staleSeconds, now));
    if !replyLost {
      var decoded := DecodeSummaryItem(id, done.q.outbox[id], w);
      SetHandKeepsInv(done, w, if decoded.Ok? then Delivering(decoded.value, false) else Rejecting(id));
    }
  }

  // A call about a held run or summary is a disciplined action.
  lemma RunCallIsDisciplined(c: Cell, w: WorkerId, worker: Worker, call: Call, now: int)
    requires worker.hand.Executing? && GoodToken(c, w, worker.hand.token, worker.hand.claimedAt)
             && MayCall(worker, call, now)
    ensures Disciplined(worker.hand.token.id, c, ActionOf(w, worker.hand, call), now)
  {
  }

  lemma CallIsDisciplined(q: Tables, mem: MemoryTable, w: WorkerId, worker: Worker, call: Call, now: int)
    requires WellKeyed(q) && HandInv(q, mem, w, worker.hand) && MayCall(worker, call, now)
    ensures var a := ActionOf(w, worker.hand, call);
            && Target(worker.hand) in q.runs && Target(worker.hand) in q.events && Claimant(a) == None
            && Disciplined(Target(worker.hand), Get(q, Target(worker.hand)), a, now)
            && Settles(q, mem, Target(worker.hand), a)
  {
    if worker.hand.Executing? {
      RunCallIsDisciplined(Get(q, worker.hand.token.id), w, worker, call, now);
    }
  }

  lemma CallKeepsInv(s: State, w: WorkerId, call: Call, now: int)
    requires Inv(s) && Enabled(s, Tell(w, call), now)
    ensures Inv(Next(s, Tell(w, call), now))
  {
    CallIsDisciplined(s.q, s.mem, w, s.workers[w], call, now);
    var hand := s.workers[w].hand;
    ActKeepsInv(s, Target(hand), ActionOf(w, hand, call), now);
    assert Next(s, Tell(w, call), now) == s.(q := On(s.q, Target(hand), ActionOf(w, hand, call), now));
  }

  lemma StepKeepsInv(s: State, step: Step, now: int)
    requires Inv(s) && Enabled(s, step, now)
    ensures Inv(Next(s, step, now))
  {
    match step
    case Enqueue(id, spec) => EnqueueKeepsInv(s, id, spec, now);
    case Claim(w, locks, maxQuarantined, retired, picked, replyLost) =>
      ClaimKeepsInv(s, w, locks, maxQuarantined, retired, picked, replyLost, now);
    case RecallMemories(w, distance, relevance, plan) => RecallKeepsInv(s, w, distance, relevance, plan, now);
    case Tell(w, call) => CallKeepsInv(s, w, call, now);
    case RecoverStale(staleSeconds, batchSize, locked) => RecoveryKeepsInv(s, staleSeconds, batchSize, locked, now);
    case ClaimSummary(w, staleSeconds, locked, id, replyLost) =>
      ClaimSummaryKeepsInv(s, w, staleSeconds, locked, id, replyLost, now);
    case WriteSummary(w, memoryId) => WriteKeepsInv(s, w, memoryId, now);
    case WriteMemory(api, memoryId, memory) => ApiWriteKeepsInv(s, api, memoryId, memory, now);
    case SpawnApi(_, _) =>
    case Spawn(_, _) =>
    case Crash(_) =>
    case Drop(w) => SetHandKeepsInv(s, w, Idle);
  }
}
