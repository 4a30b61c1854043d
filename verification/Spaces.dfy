// Which vector space each summary and each recall belongs to.
module Spaces {
  import opened Prelude
  import opened Runs
  import opened Cells
  import opened History
  import opened Queue
  import opened Memories
  import opened Fusion
  import opened System
  import opened Safety
  import opened Theorems

  // Every summary was embedded in the space its run recorded at enqueue.
  lemma SummaryInRecordedSpace(s: State, i: MemoryId, id: RunId)
    requires Reachable(s) && i in s.mem && s.mem[i].sourceRun == Some(id)
    ensures id in s.q.runs && RecordedSpace(s.q.runs[id], s.mem[i].space)
  {
    ReachableInv(s);
    assert SummaryOf(s.mem[i], id, s.q.outbox[id]);
    assert CellInv(id, Get(s.q, id));
  }

  // No worker recalls memories for a run recorded in another space than its own.
  lemma RecallInRecordedSpace(s: State, i: nat)
    requires Reachable(s) && i < |s.recalls|
    ensures s.recalls[i].runId in s.q.runs && RecordedSpace(s.q.runs[s.recalls[i].runId], s.recalls[i].space)
  {
    ReachableInv(s);
  }

  lemma SearchStaysInScope(mem: MemoryTable, q: Query, distance: map<MemoryId, real>, relevance: map<MemoryId, real>,
                           plan: Plan)
    requires Legal(mem, q, distance, relevance, plan)
    ensures forall x :: x in plan.arrival ==> x in mem
    ensures |SearchMemories(mem, q, plan)| <= q.limit
    ensures forall x :: x in SearchMemories(mem, q, plan) ==>
              && x in mem && mem[x].tenant == q.scope.tenant && mem[x].subject == q.scope.subject
              && mem[x].namespace == q.scope.namespace && (mem[x].expiresAt.Some? ==> mem[x].expiresAt.value > q.now)
  {
    SearchIsCorrect(mem, q, distance, relevance, plan);
  }

  lemma TokenScope(s: State, w: WorkerId)
    requires Reachable(s) && w in s.workers && s.workers[w].hand.Executing?
    ensures var t := s.workers[w].hand.token;
            && t.id in s.q.runs
            && (t.tenant, t.subject, t.namespace)
               == (s.q.runs[t.id].spec.tenant, s.q.runs[t.id].spec.subject, s.q.runs[t.id].spec.namespace)
  {
    ReachableInv(s);
    assert HandInv(s.q, s.mem, w, s.workers[w].hand);
  }

  // Tenants are kept apart: a run recalls at most eight memories, all unexpired and of its own tenant,
  // subject and namespace, and nothing else becomes of the queue or the contents of the table.
  lemma RecallStaysInScope(s: State, w: WorkerId, distance: map<MemoryId, real>, relevance: map<MemoryId, real>,
                           plan: Plan, now: int)
    returns (r: Recall)
    requires Reachable(s) && Enabled(s, RecallMemories(w, distance, relevance, plan), now)
    ensures var d := Next(s, RecallMemories(w, distance, relevance, plan), now);
            d.recalls == s.recalls + [r] && d.q == s.q && r.worker == w && r.space == s.workers[w].space
    ensures r.runId in s.q.runs && |r.returned| <= 8
    ensures var spec := s.q.runs[r.runId].spec;
            var q := Query(Scope(spec.tenant, spec.subject, spec.namespace), now, 8, 1.0, 0.7);
            (forall x :: x in plan.arrival ==> x in s.mem) && r.returned == SearchMemories(s.mem, q, plan)
    ensures forall x :: x in r.returned ==>
              && x in s.mem && s.mem[x].tenant == s.q.runs[r.runId].spec.tenant
              && s.mem[x].subject == s.q.runs[r.runId].spec.subject
              && s.mem[x].namespace == s.q.runs[r.runId].spec.namespace
              && (s.mem[x].expiresAt.Some? ==> s.mem[x].expiresAt.value > now)
  {
    var token := s.workers[w].hand.token;
    RecallNext(s, w, distance, relevance, plan, now);
    SearchStaysInScope(s.mem, RecallQuery(token, now), distance, relevance, plan);
    TokenScope(s, w);
    r := Recall(w, s.workers[w].space, token.id, SearchMemories(s.mem, RecallQuery(token, now), plan));
  }

  function RunScope(row: Row): Scope {
    Scope(row.spec.tenant, row.spec.subject, row.spec.namespace)
  }

  lemma SummaryInScope(s: State, i: MemoryId, id: RunId)
    requires Reachable(s) && i in s.mem && s.mem[i].sourceRun == Some(id)
    ensures id in s.q.runs && s.mem[i].expiresAt == None && ScopeOf(s.mem[i]) == RunScope(s.q.runs[id])
  {
    SummaryColumns(s, i, id);
  }

  // The embedding configuration of the API process that wrote a memory.
  function WriterSpace(s: State, i: MemoryId): Option<Space> {
    if i in s.writers && s.writers[i] in s.apis then Some(s.apis[s.writers[i]]) else None
  }

  lemma WrittenInWriterSpace(s: State, i: MemoryId)
    requires Reachable(s) && i in s.mem && s.mem[i].sourceRun.None?
    ensures WriterSpace(s, i) == Some(s.mem[i].space)
  {
    ReachableInv(s);
  }

  // Every memory a recall may compare its query with lies in the query's own space.
  ghost predicate OneSpace(s: State, w: WorkerId, now: int)
    requires w in s.workers && s.workers[w].hand.Executing?
  {
    forall i :: i in Scoped(s.mem, RecallScope(s.workers[w].hand.token), now) ==> s.mem[i].space == s.workers[w].space
  }

  // Every delivered run of the scope recorded the space.
  ghost predicate DeliveredIn(s: State, scope: Scope, space: Space) {
    forall id :: id in s.q.runs && HasSummary(s.mem, id) && RunScope(s.q.runs[id]) == scope ==>
                   RecordedSpace(s.q.runs[id], space)
  }

  // Every unexpired memory of the scope that came through the API was written by a process of the space.
  ghost predicate WrittenIn(s: State, scope: Scope, space: Space, now: int) {
    forall i :: i in s.mem && s.mem[i].sourceRun.None? && ScopeOf(s.mem[i]) == scope && Unexpired(s.mem[i], now) ==>
                  WriterSpace(s, i) == Some(space)
  }

  // The table keeps no model column and search filters by scope alone, so a recall stays within one
  // space exactly when every delivered run of its scope recorded the recalling worker's space and every
  // API process that wrote into the scope is configured with it.
  lemma OneSpaceIff(s: State, w: WorkerId, now: int)
    requires Reachable(s) && w in s.workers && s.workers[w].hand.Executing?
    ensures var scope, space := RecallScope(s.workers[w].hand.token), s.workers[w].space;
            OneSpace(s, w, now) <==> DeliveredIn(s, scope, space) && WrittenIn(s, scope, space, now)
  {
    var scope, space := RecallScope(s.workers[w].hand.token), s.workers[w].space;
    if OneSpace(s, w, now) {
      forall id | id in s.q.runs && HasSummary(s.mem, id) && RunScope(s.q.runs[id]) == scope
        ensures RecordedSpace(s.q.runs[id], space)
      {
        var i :| i in s.mem && s.mem[i].sourceRun == Some(id);
        SummaryInScope(s, i, id);
        SummaryInRecordedSpace(s, i, id);
        assert i in Scoped(s.mem, scope, now);
      }
      forall i | i in s.mem && s.mem[i].sourceRun.None? && ScopeOf(s.mem[i]) == scope && Unexpired(s.mem[i], now)
        ensures WriterSpace(s, i) == Some(space)
      {
        WrittenInWriterSpace(s, i);
        assert i in Scoped(s.mem, scope, now);
      }
    }
    if DeliveredIn(s, scope, space) && WrittenIn(s, scope, space, now) {
      forall i | i in Scoped(s.mem, scope, now)
        ensures s.mem[i].space == space
      {
        InOneSpace(s, scope, space, i, now);
      }
    }
  }

  lemma InOneSpace(s: State, scope: Scope, space: Space, i: MemoryId, now: int)
    requires Reachable(s) && i in Scoped(s.mem, scope, now)
    requires DeliveredIn(s, scope, space) && WrittenIn(s, scope, space, now)
    ensures s.mem[i].space == space
  {
    match s.mem[i].sourceRun
    case None => WrittenInWriterSpace(s, i);
    case Some(id) =>
      SummaryInScope(s, i, id);
      SummaryInRecordedSpace(s, i, id);
      assert HasSummary(s.mem, id);
  }

  // ---- two spaces in one scope ------------------------------------------------------------------

  ghost predicate Usable(spec: RunSpec, id: RunId, w: WorkerId, space: Space) {
    && spec.maxAttempts >= 1 && Decodes(id, NewRow(spec, 0), w, 0)
    && RecordedSpace(NewRow(spec, 0), space)
  }

  // An idle worker claims the one eligible run that no other transaction has locked.
  lemma ClaimOnly(s: State, id: RunId, w: WorkerId) returns (d: State)
    requires Reachable(s) && w in s.workers && s.workers[w].hand == Idle && id in s.q.runs
    requires Eligible(s.q.runs[id], 0) && Decodes(id, s.q.runs[id], w, 0)
    ensures Reachable(d)
    ensures d == SetHand(s.(q := On(s.q, id, Start(w), 0)), w, Executing(TokenFor(id, s.q.runs[id], w, 0), 0))
  {
    var locked := s.q.runs.Keys - {id};
    assert Claimable(s.q, 0, locked) == {id};
    assert ClaimCall(s.q, w, 0, [locked], 1, [], Some(id));
    ClaimNext(s, w, [locked], 1, [], Some(id), 0);
    ReachableNext(s, Claim(w, [locked], 1, [], Some(id), false), 0);
    d := Next(s, Claim(w, [locked], 1, [], Some(id), false), 0);
  }

  lemma EnqueueFresh(s: State, id: RunId, spec: RunSpec) returns (d: State)
    requires Reachable(s) && id !in s.q.runs && spec.maxAttempts >= 1
    ensures Reachable(d) && d == s.(q := Put(s.q, id, Enqueued(spec, 0)))
    ensures d.q.runs == s.q.runs[id := NewRow(spec, 0)] && WellKeyed(d.q)
  {
    ReachableInv(s);
    ReachableNext(s, Enqueue(id, spec), 0);
    d := Next(s, Enqueue(id, spec), 0);
  }

  lemma SpawnFresh(s: State, w: WorkerId, space: Space) returns (d: State)
    requires Reachable(s) && w !in s.workers
    ensures Reachable(d) && d == s.(workers := s.workers[w := Worker(space, Idle)])
  {
    ReachableNext(s, Spawn(w, space), 0);
    d := Next(s, Spawn(w, space), 0);
  }

  lemma PrepareFresh(s: State, id: RunId, spec: RunSpec, w: WorkerId, space: Space) returns (d: State)
    requires Reachable(s) && id !in s.q.runs && w !in s.workers && spec.maxAttempts >= 1
    ensures Reachable(d) && d.mem == s.mem && d.recalls == s.recalls && d.apis == s.apis
    ensures d.workers == s.workers[w := Worker(space, Idle)]
    ensures d.q.runs == s.q.runs[id := NewRow(spec, 0)] && WellKeyed(d.q)
  {
    var a := EnqueueFresh(s, id, spec);
    d := SpawnFresh(a, w, space);
  }

  lemma ClaimFresh(s: State, id: RunId, spec: RunSpec, w: WorkerId) returns (d: State)
    requires Reachable(s) && WellKeyed(s.q) && id in s.q.runs && s.q.runs[id] == NewRow(spec, 0)
             && spec.maxAttempts >= 1
    requires w in s.workers && s.workers[w].hand == Idle && Decodes(id, NewRow(spec, 0), w, 0)
    ensures Reachable(d) && d.mem == s.mem && d.recalls == s.recalls && d.apis == s.apis
            && d.workers.Keys == s.workers.Keys
    ensures d.workers[w] == Worker(s.workers[w].space, Executing(TokenFor(id, NewRow(spec, 0), w, 0), 0))
    ensures id in d.q.runs && d.q.runs[id] == Claimed(NewRow(spec, 0), w, 0) && d.q.runs.Keys == s.q.runs.Keys
  {
    d := ClaimOnly(s, id, w);
    StartingPicked(s.q, w, 0, id);
  }

  // A new run is enqueued and claimed by a new worker.
  lemma StartFresh(s: State, id: RunId, spec: RunSpec, w: WorkerId, space: Space) returns (d: State)
    requires Reachable(s) && id !in s.q.runs && w !in s.workers && Usable(spec, id, w, space)
    ensures Reachable(d) && d.mem == s.mem && d.recalls == s.recalls && d.apis == s.apis
    ensures d.workers.Keys == s.workers.Keys + {w}
    ensures d.workers[w] == Worker(space, Executing(TokenFor(id, NewRow(spec, 0), w, 0), 0))
    ensures id in d.q.runs && d.q.runs[id] == Claimed(NewRow(spec, 0), w, 0) && d.q.runs.Keys == s.q.runs.Keys + {id}
  {
    var a := PrepareFresh(s, id, spec, w, space);
    d := ClaimFresh(a, id, spec, w);
  }

  lemma SuccessCell(id: RunId, c: Cell, t: ClaimedRun, outcome: Outcome, content: string, metadata: Json)
    requires CellInv(id, c) && Holds(c.row, t.workerId) && ModelOk(t.modelConfig)
    ensures var d := Apply(c, Succeed(t, outcome, content, metadata), 0);
            d.row.spec == c.row.spec && d.item == Some(FreshItem(t, content, metadata, 0))
            && d.row.outcome.Some? && d.row.outcome.value.answer == outcome.answer
  {
  }

  // The held run succeeds.
  lemma FinishHeld(s: State, id: RunId, w: WorkerId, outcome: Outcome) returns (d: State)
    requires Reachable(s) && w in s.workers && s.workers[w].hand.Executing? && s.workers[w].hand.token.id == id
    requires s.workers[w].hand.claimedAt == 0 && id in s.q.runs && Holds(s.q.runs[id], w)
    requires Compatible(s.workers[w].hand.token.modelConfig, s.workers[w].space)
    ensures Reachable(d) && d.mem == s.mem && d.recalls == s.recalls && d.q.runs.Keys == s.q.runs.Keys
            && d.workers == s.workers
    ensures d.q.runs[id].spec == s.q.runs[id].spec
    ensures d.q.runs[id].outcome.Some? && d.q.runs[id].outcome.value.answer == outcome.answer
    ensures id in d.q.outbox && ItemEligible(d.q.outbox[id], 0, 1)
            && d.q.outbox[id].content == SummaryText(outcome.answer)
  {
    ReachableInv(s);
    assert HandInv(s.q, s.mem, w, s.workers[w].hand);
    assert CellInv(id, Get(s.q, id));
    ReachableNext(s, Tell(w, Finish(outcome)), 0);
    d := Next(s, Tell(w, Finish(outcome)), 0);
    var t := s.workers[w].hand.token;
    var content, metadata := SummaryText(outcome.answer), SummaryMetadata(t.id, outcome.recalled);
    SuccessCell(id, Get(s.q, id), t, outcome, content, metadata);
    FinishTables(s.q, id, t, outcome, content, metadata);
  }

  lemma FinishTables(q: Tables, id: RunId, t: ClaimedRun, outcome: Outcome, content: string, metadata: Json)
    requires WellKeyed(q) && id in q.runs && ModelOk(t.modelConfig)
    requires var c := Apply(Get(q, id), Succeed(t, outcome, content, metadata), 0);
             c.row.spec == q.runs[id].spec && c.item == Some(FreshItem(t, content, metadata, 0))
             && c.row.outcome.Some? && c.row.outcome.value.answer == outcome.answer
    ensures var d := On(q, id, Succeed(t, outcome, content, metadata), 0);
            && d.runs.Keys == q.runs.Keys && d.runs[id].spec == q.runs[id].spec
            && d.runs[id].outcome.Some? && d.runs[id].outcome.value.answer == outcome.answer
            && id in d.outbox && d.outbox[id] == FreshItem(t, content, metadata, 0)
  {
  }

  lemma TakenIsDelivered(s: State, w: WorkerId, id: RunId) returns (item: SummaryItem)
    requires Reachable(s) && id in s.q.outbox && ItemEligible(s.q.outbox[id], 0, 1) && !IsBlank(s.q.outbox[id].content)
    ensures var done := ItemTaken(s.q, id, w, 1, 0);
            id in done.outbox && DecodeSummaryItem(id, done.outbox[id], w) == Ok(item) && item.runId == id
  {
    ReachableInv(s);
    TakenItemIsGood(s.q, s.mem, w, 1, id, 0);
    ActMovesOutbox(s.q, id, ClaimItem(w, 1), 0);
    var done := ItemTaken(s.q, id, w, 1, 0);
    assert SameContent(s.q.outbox[id], done.outbox[id]);
    item := DecodeSummaryItem(id, done.outbox[id], w).value;
  }

  // An idle worker claims the one eligible summary that is not locked.
  lemma ClaimOnlyItem(s: State, id: RunId, w: WorkerId) returns (d: State, item: SummaryItem)
    requires Reachable(s) && w in s.workers && s.workers[w].hand == Idle
    requires id in s.q.outbox && ItemEligible(s.q.outbox[id], 0, 1) && !IsBlank(s.q.outbox[id].content)
    ensures Reachable(d) && item.runId == id
    ensures d == SetHand(s.(q := ItemTaken(s.q, id, w, 1, 0)), w, Delivering(item, false))
  {
    item := TakenIsDelivered(s, w, id);
    var locked := s.q.outbox.Keys - {id};
    assert ClaimableItems(s.q, 0, 1, locked) == {id};
    ClaimItemNext(s, w, 1, locked, id, 0);
    ReachableNext(s, ClaimSummary(w, 1, locked, id, false), 0);
    d := Next(s, ClaimSummary(w, 1, locked, id, false), 0);
  }

  lemma TakingKeepsRequest(s: State, id: RunId, w: WorkerId)
    requires Reachable(s) && id in s.q.outbox
    ensures var d := ItemTaken(s.q, id, w, 1, 0);
            id in s.q.runs && d.runs.Keys == s.q.runs.Keys && d.runs[id].spec == s.q.runs[id].spec
  {
    ReachableInv(s);
    ActMovesCells(s.q, id, ClaimItem(w, 1), 0);
    assert Evolves(Get(s.q, id), Get(ItemTaken(s.q, id, w, 1, 0), id));
  }

  lemma ItemInRecordedSpace(s: State, w: WorkerId)
    requires Reachable(s) && w in s.workers && s.workers[w].hand.Delivering?
    ensures var item := s.workers[w].hand.item;
            item.runId in s.q.runs && RecordedSpace(s.q.runs[item.runId], Space(item.embeddingModel, item.embeddingDim))
  {
    ReachableInv(s);
    assert HandInv(s.q, s.mem, w, s.workers[w].hand);
    assert CellInv(s.workers[w].hand.item.runId, Get(s.q, s.workers[w].hand.item.runId));
  }

  // The claimed summary is written in the worker's space, into an empty table.
  lemma WriteClaimed(s: State, w: WorkerId, memoryId: MemoryId) returns (d: State)
    requires Reachable(s) && w in s.workers && s.workers[w].hand.Delivering? && s.mem == map[]
    requires var id := s.workers[w].hand.item.runId; id in s.q.runs && RecordedSpace(s.q.runs[id], s.workers[w].space)
    ensures Reachable(d) && d.q == s.q && d.recalls == s.recalls && d.workers.Keys == s.workers.Keys
    ensures d.mem == map[memoryId := SummaryMemory(s.workers[w].hand.item, s.workers[w].space, 0)]
  {
    ItemInRecordedSpace(s, w);
    WriteNext(s, w, memoryId, 0);
    UpsertNew(s.mem, memoryId, SummaryMemory(s.workers[w].hand.item, s.workers[w].space, 0));
    ReachableNext(s, WriteSummary(w, memoryId), 0);
    d := Next(s, WriteSummary(w, memoryId), 0);
  }

  // A search over a scope of one memory returns it.
  lemma OnlyMemoryFound(mem: MemoryTable, q: Query, id: MemoryId) returns (plan: Plan)
    requires Scoped(mem, q.scope, q.now) == {id} && q.limit >= 1
    ensures Legal(mem, q, map[id := 0.0], map[], plan) && (forall x :: x in plan.arrival ==> x in mem)
    ensures SearchMemories(mem, q, plan) == [id]
  {
    plan := Plan([id], {id}, [], {}, [id]);
    assert id in Scoped(mem, q.scope, q.now);
    assert Legal(mem, q, map[id := 0.0], map[], plan);
    SearchIsCorrect(mem, q, map[id := 0.0], map[], plan);
    var found := SearchMemories(mem, q, plan);
    assert |Fused(plan)| == 1;
    assert found[0] in found;
  }

  // The held run's worker searches a scope of one memory and is answered with it.
  lemma RecallHeld(s: State, w: WorkerId, memoryId: MemoryId) returns (d: State)
    requires Reachable(s) && w in s.workers && s.workers[w].hand.Executing?
    requires Compatible(s.workers[w].hand.token.modelConfig, s.workers[w].space)
    requires Scoped(s.mem, RecallScope(s.workers[w].hand.token), 0) == {memoryId}
    ensures Reachable(d) && d.mem == Touch(s.mem, {memoryId}, 0) && d.apis == s.apis
    ensures d.recalls == s.recalls + [Recall(w, s.workers[w].space, s.workers[w].hand.token.id, [memoryId])]
  {
    var plan := OnlyMemoryFound(s.mem, RecallQuery(s.workers[w].hand.token, 0), memoryId);
    RecallNext(s, w, map[memoryId := 0.0], map[], plan, 0);
    assert Elements([memoryId]) == {memoryId};
    ReachableNext(s, RecallMemories(w, map[memoryId := 0.0], map[], plan), 0);
    d := Next(s, RecallMemories(w, map[memoryId := 0.0], map[], plan), 0);
  }

  lemma SucceedWith(spec: RunSpec, w: WorkerId, space: Space, answer: string) returns (s: State)
    requires Usable(spec, 0, w, space)
    ensures Reachable(s) && s.recalls == [] && s.mem == map[] && s.q.runs.Keys == {0} && s.q.runs[0].spec == spec
    ensures s.workers.Keys == {w} && s.workers[w] == Worker(space, Idle)
    ensures 0 in s.q.outbox && ItemEligible(s.q.outbox[0], 0, 1) && s.q.outbox[0].content == SummaryText(answer)
    ensures s.q.runs[0].outcome.Some? && s.q.runs[0].outcome.value.answer == answer
  {
    assert Execution(Trace([INITIAL], [], []));
    assert Reachable(INITIAL);
    var a := StartFresh(INITIAL, 0, spec, w, space);
    CompatibleIsSameSpace(a.workers[w].hand.token.modelConfig, space);
    var b := FinishHeld(a, 0, w, Outcome(answer, [], JNull, [], None));
    ReachableNext(b, Drop(w), 0);
    s := Next(b, Drop(w), 0);
  }

  lemma DeliverFirst(spec: RunSpec, w: WorkerId, space: Space) returns (s: State, m: Memory)
    requires Usable(spec, 0, w, space)
    ensures Reachable(s) && s.recalls == [] && s.workers.Keys == {w} && s.q.runs.Keys == {0} && s.q.runs[0].spec == spec
    ensures s.mem == map[7 := m] && m.sourceRun == Some(0) && m.space == space
  {
    var b := SucceedWith(spec, w, space, "ok");
    assert SummaryText("ok")[0] == 'o';
    var c, item := ClaimOnlyItem(b, 0, w);
    TakingKeepsRequest(b, 0, w);
    s := WriteClaimed(c, w, 7);
    m := SummaryMemory(item, space, 0);
  }

  // The documentation promises that rolling deployments never mix vector spaces. The recorded
  // configurations are respected, yet a recall can return a summary of another space, having ranked it
  // by its distance to a vector of the recalling space: two runs of one scope, enqueued under
  // different models of one dimension, suffice. (No process starts with another dimension than the
  // memory table's.)
  lemma SpacesCanMeet(spec1: RunSpec, spec2: RunSpec, w1: WorkerId, w2: WorkerId, space1: Space, space2: Space)
    returns (s: State)
    requires w1 != w2 && space1.model != space2.model && space1.dim == space2.dim
    requires Usable(spec1, 0, w1, space1) && Usable(spec2, 1, w2, space2)
    requires (spec1.tenant, spec1.subject, spec1.namespace) == (spec2.tenant, spec2.subject, spec2.namespace)
    ensures Reachable(s) && s.recalls == [Recall(w2, space2, 1, [7])]
    ensures s.mem.Keys == {7} && s.mem[7].sourceRun == Some(0) && s.mem[7].space == space1
  {
    var a, m := DeliverFirst(spec1, w1, space1);
    var b := StartFresh(a, 1, spec2, w2, space2);
    CompatibleIsSameSpace(b.workers[w2].hand.token.modelConfig, space2);
    SummaryInScope(a, 7, 0);
    assert Scoped(b.mem, RecallScope(b.workers[w2].hand.token), 0) == {7};
    s := RecallHeld(b, w2, 7);
  }

  // So does one memory written through an API process of another model of that dimension.
  lemma ApiSpaceCanMeet(spec: RunSpec, w: WorkerId, space: Space, api: ApiId, m: Memory) returns (s: State)
    requires m.space.model != space.model && m.space.dim == space.dim
    requires Usable(spec, 0, w, space) && m.sourceRun.None? && Unexpired(m, 0)
    requires ScopeOf(m) == Scope(spec.tenant, spec.subject, spec.namespace)
    ensures Reachable(s) && s.recalls == [Recall(w, space, 0, [9])]
    ensures s.apis == map[api := m.space] && s.mem.Keys == {9} && s.mem[9].space == m.space
  {
    assert Execution(Trace([INITIAL], [], []));
    assert Reachable(INITIAL);
    var a := StartFresh(INITIAL, 0, spec, w, space);
    var b := WriteThroughApi(a, api, m);
    CompatibleIsSameSpace(b.workers[w].hand.token.modelConfig, space);
    assert Scoped(b.mem, RecallScope(b.workers[w].hand.token), 0) == {9};
    s := RecallHeld(b, w, 9);
  }

  lemma WriteThroughApi(s: State, api: ApiId, m: Memory) returns (d: State)
    requires Reachable(s) && s.mem == map[] && s.apis == map[] && m.sourceRun.None?
    ensures Reachable(d) && d.q == s.q && d.workers == s.workers && d.recalls == s.recalls
    ensures d.mem == map[9 := m] && d.apis == map[api := m.space]
  {
    ReachableNext(s, SpawnApi(api, m.space), 0);
    var a := Next(s, SpawnApi(api, m.space), 0);
    ReachableNext(a, WriteMemory(api, 9, m), 0);
    ApiWriteNext(a, api, 9, m, 0);
    d := Next(a, WriteMemory(api, 9, m), 0);
  }

  // A request as the API accepts it, with the default limits.
  function SampleSpec(space: Space): RunSpec {
    RunSpec("tenant", "subject", "default", "query", "context", Limits(12, 24, 8000, 300).ToJson(),
            PublicModelConfig("root", "sub", space), false, 3)
  }

  lemma SampleIsUsable(id: RunId, w: WorkerId, space: Space)
    requires !IsBlank(w) && !IsBlank(space.model) && space.dim > 0
    ensures Usable(SampleSpec(space), id, w, space)
  {
    var row := Claimed(NewRow(SampleSpec(space), 0), w, 0);
    assert !IsSpace("tenant"[0]) && !IsSpace("subject"[0]) && !IsSpace("default"[0]);
    assert !IsSpace("query"[0]) && !IsSpace("context"[0]) && !IsSpace("root"[0]) && !IsSpace("sub"[0]);
    AcceptedRunDecodesIff(id, row, w, Limits(12, 24, 8000, 300), "root", "sub", space);
  }

  // Concretely: one deployment moves from one 1536-dimensional model to another.
  lemma DeploymentMixesSpaces() returns (s: State)
    ensures Reachable(s) && s.recalls == [Recall("v2", Space("new", 1536), 1, [7])]
    ensures 7 in s.mem && s.mem[7].sourceRun == Some(0) && s.mem[7].space == Space("old", 1536)
  {
    assert !IsSpace("v1"[0]) && !IsSpace("v2"[0]) && !IsSpace("old"[0]) && !IsSpace("new"[0]);
    var oldSpace, newSpace := Space("old", 1536), Space("new", 1536);
    assert oldSpace.model[0] != newSpace.model[0];
    SampleIsUsable(0, "v1", oldSpace);
    SampleIsUsable(1, "v2", newSpace);
    assert "v1"[1] != "v2"[1];
    s := SpacesCanMeet(SampleSpec(oldSpace), SampleSpec(newSpace), "v1", "v2", oldSpace, newSpace);
  }

  // Or its workers move while its API stays.
  lemma ApiMixesSpaces() returns (s: State)
    ensures Reachable(s) && s.recalls == [Recall("v2", Space("new", 1536), 0, [9])]
    ensures 9 in s.mem && s.mem[9].space == Space("old", 1536) && s.apis == map["api" := Space("old", 1536)]
  {
    assert !IsSpace("v2"[0]) && !IsSpace("new"[0]);
    var oldSpace, newSpace := Space("old", 1536), Space("new", 1536);
    assert oldSpace.model[0] != newSpace.model[0];
    SampleIsUsable(0, "v2", newSpace);
    var m := Memory("tenant", "subject", "default", Fact, "content", JNull, oldSpace, 0.5, 0, None, None, 0, 0, None);
    s := ApiSpaceCanMeet(SampleSpec(newSpace), "v2", newSpace, "api", m);
  }
}
