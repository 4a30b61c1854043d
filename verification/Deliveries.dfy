// From every reachable state the outbox can be settled: each success ends with exactly one summary if its
// answer is not blank, and with none if it is.
module Deliveries {
  import opened Prelude
  import opened Retry
  import opened Runs
  import opened Cells
  import opened Queue
  import opened Memories
  import opened System
  import opened Safety
  import opened Theorems
  import opened Liveness
  import opened Spaces

  function Open(q: Tables): set<RunId> {
    set id | id in q.outbox && q.outbox[id].completedAt.None?
  }

  // ---- names nobody uses -------------------------------------------------------------------------

  lemma {:induction false} FreshWorker(names: set<WorkerId>) returns (w: WorkerId)
    ensures forall n :: n in names ==> |n| < |w|
    decreases |names|
  {
    if names == {} {
      w := "w";
    } else {
      var n :| n in names;
      w := FreshWorker(names - {n});
      if |w| <= |n| {
        w := n + "w";
      }
    }
  }

  lemma {:induction false} FreshMemory(ids: set<MemoryId>) returns (m: MemoryId)
    ensures forall i :: i in ids ==> i < m
    decreases |ids|
  {
    if ids == {} {
      m := 0;
    } else {
      var i :| i in ids;
      m := FreshMemory(ids - {i});
      assert ids == (ids - {i}) + {i};
      if m <= i {
        m := i + 1;
      }
    }
  }

  // ---- one item ----------------------------------------------------------------------------------

  function ItemSpace(item: Item): Space {
    Space(item.embeddingModel, item.embeddingDim)
  }

  function ItemSpaces(q: Tables): set<Space> {
    set id | id in q.outbox :: ItemSpace(q.outbox[id])
  }

  // What an item action makes of the tables: one item changes, but not its space, and no row does.
  ghost predicate OneItem(q: Tables, d: Tables, id: RunId) {
    && d.runs == q.runs && d.outbox.Keys == q.outbox.Keys
    && (forall x :: x in q.outbox ==> ItemSpace(d.outbox[x]) == ItemSpace(q.outbox[x]))
    && forall x :: x in q.outbox && x != id ==> d.outbox[x] == q.outbox[x]
  }

  lemma TakingItem(q: Tables, id: RunId, w: WorkerId, staleSeconds: int, now: int)
    requires WellKeyed(q) && id in q.outbox && ItemEligible(q.outbox[id], now, staleSeconds)
    ensures var d := ItemTaken(q, id, w, staleSeconds, now);
            OneItem(q, d, id) && id in d.outbox && ItemHeld(d.outbox[id], w)
  {
  }

  lemma SettlingItem(q: Tables, id: RunId, a: Action, w: WorkerId, now: int)
    requires WellKeyed(q) && id in q.outbox && ItemHeld(q.outbox[id], w)
    requires a == RejectItem(w) || (a.CompleteItem? && a.summary.workerId == w)
    ensures var d := On(q, id, a, now); OneItem(q, d, id) && id in d.outbox && d.outbox[id].completedAt.Some?
  {
  }

  lemma OneFewerOpen(q: Tables, mid: Tables, d: Tables, id: RunId)
    requires OneItem(q, mid, id) && OneItem(mid, d, id) && id in Open(q) && d.outbox[id].completedAt.Some?
    ensures OneItem(q, d, id) && |Open(d)| < |Open(q)| && ItemSpaces(d) == ItemSpaces(q)
  {
    assert Open(d) == Open(q) - {id};
    assert forall x :: x in q.outbox ==> ItemSpace(d.outbox[x]) == ItemSpace(q.outbox[x]);
    assert forall space :: space in ItemSpaces(q) ==> space in ItemSpaces(d);
  }

  // With nobody holding a lock, some open item is the first to be claimed at some moment past any given one.
  lemma FirstOpen(q: Tables, staleSeconds: int, from: int) returns (id: RunId, now: int)
    requires Open(q) != {}
    ensures now >= from && id in Open(q) && IsItemCandidate(q, now, staleSeconds, {}, id)
  {
    var x :| x in Open(q);
    now := if from >= q.outbox[x].availableAt then from else q.outbox[x].availableAt;
    if q.outbox[x].claimedAt.Some? && q.outbox[x].claimedAt.value >= now - staleSeconds {
      now := q.outbox[x].claimedAt.value + staleSeconds + 1;
    }
    assert x in ClaimableItems(q, now, staleSeconds, {});
    id := ItemCandidateExists(q, ClaimableItems(q, now, staleSeconds, {}));
  }

  // The vector spaces the fresh workers carry, and their stale threshold.
  datatype Crew = Crew(spaces: set<Space>, staleSeconds: int)

  // Fresh workers of these spaces, claims of summaries that find nothing locked, writes and completions or
  // rejections.
  predicate Settling(step: Step, crew: Crew) {
    || (step.Spawn? && step.space in crew.spaces)
    || (step.ClaimSummary? && step.staleSeconds == crew.staleSeconds && step.locked == {} && !step.replyLost)
    || step.WriteSummary?
    || (step.Tell? && (step.call == Complete || step.call == Reject))
  }

  // A stretch of such steps from s to d, all at one moment.
  ghost predicate AtOnce(tr: Trace, s: State, d: State, crew: Crew, now: int) {
    && Steps(tr) && tr.states[0] == s && tr.states[|tr.states| - 1] == d
    && (forall i :: 0 <= i < |tr.steps| ==> Settling(tr.steps[i], crew))
    && (forall i :: 0 <= i < |tr.nows| ==> tr.nows[i] == now)
  }

  // What a stretch of n steps makes of an invariant state.
  ghost predicate Leads(tr: Trace, n: nat, s: State, d: State, crew: Crew, now: int) {
    AtOnce(tr, s, d, crew, now) && |tr.steps| == n && Inv(d)
  }

  lemma LeadsJoin(a: Trace, b: Trace, m: nat, n: nat, s: State, mid: State, d: State, crew: Crew, now: int)
    returns (tr: Trace)
    requires Leads(a, m, s, mid, crew, now) && Leads(b, n, mid, d, crew, now)
    ensures Leads(tr, m + n, s, d, crew, now)
  {
    tr := Join(a, b);
  }

  lemma LeadsStep(s: State, step: Step, crew: Crew, now: int) returns (tr: Trace, d: State)
    requires Inv(s) && Enabled(s, step, now) && Settling(step, crew)
    ensures Leads(tr, 1, s, d, crew, now) && d == Next(s, step, now)
  {
    StepKeepsInv(s, step, now);
    tr := OneStep(s, step, now);
    d := Next(s, step, now);
  }

  lemma SpawnFor(s: State, w: WorkerId, space: Space, crew: Crew, now: int) returns (tr: Trace, d: State)
    requires Inv(s) && w !in s.workers && space in crew.spaces
    ensures Leads(tr, 1, s, d, crew, now) && d == s.(workers := s.workers[w := Worker(space, Idle)])
  {
    tr, d := LeadsStep(s, Spawn(w, space), crew, now);
  }

  // What a worker holds after it claimed an item.
  function TakenHand(q: Tables, id: RunId, w: WorkerId): Hand
    requires id in q.outbox
  {
    var decoded := DecodeSummaryItem(id, q.outbox[id], w);
    if decoded.Ok? then Delivering(decoded.value, false) else Rejecting(id)
  }

  lemma ClaimFor(s: State, id: RunId, w: WorkerId, crew: Crew, now: int) returns (tr: Trace, d: State)
    requires Inv(s) && w in s.workers && s.workers[w].hand == Idle
    requires IsItemCandidate(s.q, now, crew.staleSeconds, {}, id)
    ensures Leads(tr, 1, s, d, crew, now)
    ensures d.q == ItemTaken(s.q, id, w, crew.staleSeconds, now) && d.mem == s.mem && id in d.q.outbox && w in d.workers
    ensures d.workers[w] == Worker(s.workers[w].space, TakenHand(d.q, id, w))
  {
    TakingItem(s.q, id, w, crew.staleSeconds, now);
    ClaimItemNext(s, w, crew.staleSeconds, {}, id, now);
    tr, d := LeadsStep(s, ClaimSummary(w, crew.staleSeconds, {}, id, false), crew, now);
  }

  // A fresh worker with the item's recorded space claims it.
  lemma TakeFor(s: State, id: RunId, w: WorkerId, crew: Crew, now: int) returns (tr: Trace, d: State)
    requires Inv(s) && w !in s.workers && IsItemCandidate(s.q, now, crew.staleSeconds, {}, id)
    requires ItemSpaces(s.q) <= crew.spaces
    ensures Leads(tr, 2, s, d, crew, now)
    ensures d.q == ItemTaken(s.q, id, w, crew.staleSeconds, now) && d.mem == s.mem && id in d.q.outbox && w in d.workers
    ensures d.workers[w].space == ItemSpace(s.q.outbox[id])
    ensures d.workers[w].hand == TakenHand(d.q, id, w)
  {
    var space := ItemSpace(s.q.outbox[id]);
    var one, mid := SpawnFor(s, w, space, crew, now);
    var two;
    two, d := ClaimFor(mid, id, w, crew, now);
    tr := LeadsJoin(one, two, 1, 1, s, mid, d, crew, now);
  }

  // It rejects what does not decode.
  lemma RejectItemHeld(s: State, id: RunId, w: WorkerId, crew: Crew, now: int) returns (tr: Trace, d: State)
    requires Inv(s) && w in s.workers && s.workers[w].hand == Rejecting(id)
    ensures Leads(tr, 1, s, d, crew, now) && d.mem == s.mem && d.q == On(s.q, id, RejectItem(w), now)
  {
    TellNext(s, w, Reject, now);
    tr, d := LeadsStep(s, Tell(w, Reject), crew, now);
  }

  // And writes and completes what does.
  lemma WriteFor(s: State, w: WorkerId, crew: Crew, now: int) returns (tr: Trace, d: State)
    requires Inv(s) && w in s.workers && s.workers[w].hand.Delivering?
    requires var item := s.workers[w].hand.item; Space(item.embeddingModel, item.embeddingDim) == s.workers[w].space
    ensures Leads(tr, 1, s, d, crew, now) && d.q == s.q && w in d.workers
    ensures d.workers[w].hand == Delivering(s.workers[w].hand.item, true)
  {
    var memoryId := FreshMemory(s.mem.Keys);
    WriteNext(s, w, memoryId, now);
    tr, d := LeadsStep(s, WriteSummary(w, memoryId), crew, now);
  }

  lemma CompleteFor(s: State, w: WorkerId, crew: Crew, now: int) returns (tr: Trace, d: State)
    requires Inv(s) && w in s.workers && s.workers[w].hand.Delivering? && s.workers[w].hand.written
    ensures Leads(tr, 1, s, d, crew, now) && d.mem == s.mem
    ensures var item := s.workers[w].hand.item; d.q == On(s.q, item.runId, CompleteItem(item), now)
  {
    TellNext(s, w, Complete, now);
    tr, d := LeadsStep(s, Tell(w, Complete), crew, now);
  }

  lemma WriteAndComplete(s: State, w: WorkerId, crew: Crew, now: int) returns (tr: Trace, d: State)
    requires Inv(s) && w in s.workers && s.workers[w].hand.Delivering?
    requires var item := s.workers[w].hand.item; Space(item.embeddingModel, item.embeddingDim) == s.workers[w].space
    ensures Leads(tr, 2, s, d, crew, now)
    ensures var item := s.workers[w].hand.item; d.q == On(s.q, item.runId, CompleteItem(item), now)
  {
    var one, mid := WriteFor(s, w, crew, now);
    var two;
    two, d := CompleteFor(mid, w, crew, now);
    tr := LeadsJoin(one, two, 1, 1, s, mid, d, crew, now);
  }

  lemma HeldIsItem(q: Tables, id: RunId, w: WorkerId)
    requires id in q.outbox && TakenHand(q, id, w).Delivering?
    ensures var item := TakenHand(q, id, w).item;
            && item.runId == id && item.workerId == w
            && Space(item.embeddingModel, item.embeddingDim)
               == ItemSpace(q.outbox[id])
  {
  }

  // Either way the item is settled and nothing else of the queue has changed.
  lemma SettleHeld(s: State, id: RunId, w: WorkerId, crew: Crew, now: int) returns (tr: Trace, n: nat, d: State)
    requires Inv(s) && w in s.workers && id in s.q.outbox && s.workers[w].hand == TakenHand(s.q, id, w)
    requires s.workers[w].space == ItemSpace(s.q.outbox[id])
    requires ItemHeld(s.q.outbox[id], w)
    ensures Leads(tr, n, s, d, crew, now) && n <= 2
    ensures OneItem(s.q, d.q, id) && d.q.outbox[id].completedAt.Some?
  {
    if s.workers[w].hand.Delivering? {
      HeldIsItem(s.q, id, w);
      tr, d := WriteAndComplete(s, w, crew, now);
      SettlingItem(s.q, id, CompleteItem(s.workers[w].hand.item), w, now);
      n := 2;
    } else {
      tr, d := RejectItemHeld(s, id, w, crew, now);
      SettlingItem(s.q, id, RejectItem(w), w, now);
      n := 1;
    }
  }

  // The next open item is settled by a fresh worker of its own.
  lemma SettleNext(s: State, crew: Crew, from: int) returns (tr: Trace, n: nat, d: State, now: int)
    requires Inv(s) && Open(s.q) != {} && ItemSpaces(s.q) <= crew.spaces
    ensures now >= from && Leads(tr, n, s, d, crew, now) && n <= 4
    ensures d.q.runs == s.q.runs && d.q.outbox.Keys == s.q.outbox.Keys && |Open(d.q)| < |Open(s.q)|
    ensures ItemSpaces(d.q) == ItemSpaces(s.q)
  {
    var id;
    id, now := FirstOpen(s.q, crew.staleSeconds, from);
    var w := FreshWorker(s.workers.Keys);
    var one, mid := TakeFor(s, id, w, crew, now);
    TakingItem(s.q, id, w, crew.staleSeconds, now);
    var two, m;
    two, m, d := SettleHeld(mid, id, w, crew, now);
    OneFewerOpen(s.q, mid.q, d.q, id);
    tr := LeadsJoin(one, two, 2, m, s, mid, d, crew, now);
    n := 2 + m;
  }
  // ---- the whole outbox --------------------------------------------------------------------------

  // A stretch of such steps from s to d whose clock starts at a given moment and never runs backwards.
  ghost predicate SettlingRun(tr: Trace, s: State, d: State, crew: Crew, from: int) {
    && Steps(tr) && tr.states[0] == s && tr.states[|tr.states| - 1] == d
    && (forall i :: 0 <= i < |tr.steps| ==> Settling(tr.steps[i], crew)) && Forward(tr.nows, from)
  }

  lemma RunJoin(a: Trace, b: Trace, s: State, mid: State, d: State, crew: Crew, from: int, now: int)
    returns (tr: Trace)
    requires AtOnce(a, s, mid, crew, now) && SettlingRun(b, mid, d, crew, now) && now >= from
    ensures SettlingRun(tr, s, d, crew, from) && |tr.steps| == |a.steps| + |b.steps|
  {
    tr := Join(a, b);
    ForwardJoin(a.nows, b.nows, from, now);
  }

  lemma {:induction false} SettleSchedule(s: State, crew: Crew, from: int) returns (tr: Trace, last: State)
    requires Inv(s) && ItemSpaces(s.q) <= crew.spaces
    ensures SettlingRun(tr, s, last, crew, from) && |tr.steps| <= 4 * |Open(s.q)|
    ensures last.q.runs == s.q.runs && last.q.outbox.Keys == s.q.outbox.Keys && Open(last.q) == {}
    decreases |Open(s.q)|
  {
    if Open(s.q) == {} {
      tr, last := Trace([s], [], []), s;
    } else {
      var head, n, mid, now := SettleNext(s, crew, from);
      var rest;
      rest, last := SettleSchedule(mid, crew, now);
      tr := RunJoin(head, rest, s, mid, last, crew, from, now);
    }
  }

  // Exactly one memory was made of the run.
  ghost predicate OneSummary(mem: MemoryTable, id: RunId) {
    HasSummary(mem, id)
    && forall i, j :: i in mem && j in mem && mem[i].sourceRun == Some(id) && mem[j].sourceRun == Some(id) ==> i == j
  }

  // Every success is settled: with exactly one summary if its answer is not blank, with none if it is.
  ghost predicate AllSettled(s: State) {
    forall id :: id in s.q.runs && s.q.runs[id].status == Succeeded ==>
      && id in s.q.outbox && s.q.outbox[id].completedAt.Some?
      && if BlankAnswer(s.q.runs[id]) then !HasSummary(s.mem, id) else OneSummary(s.mem, id)
  }

  lemma SummaryIsOnly(s: State, id: RunId)
    requires Reachable(s) && HasSummary(s.mem, id)
    ensures OneSummary(s.mem, id)
  {
    forall i, j | i in s.mem && j in s.mem && s.mem[i].sourceRun == Some(id) && s.mem[j].sourceRun == Some(id)
      ensures i == j
    {
      AtMostOneSummary(s, i, j, id);
    }
  }

  lemma ClosedIsSettled(s: State)
    requires Reachable(s) && Open(s.q) == {}
    ensures AllSettled(s)
  {
    forall id | id in s.q.runs && s.q.runs[id].status == Succeeded
      ensures id in s.q.outbox && s.q.outbox[id].completedAt.Some?
      ensures if BlankAnswer(s.q.runs[id]) then !HasSummary(s.mem, id) else OneSummary(s.mem, id)
    {
      OutboxIffSucceeded(s, id);
      assert id !in Open(s.q);
      DeliveredIffNotBlank(s, id);
      if HasSummary(s.mem, id) {
        SummaryIsOnly(s, id);
      }
    }
  }

  // From every reachable state, and from any moment on, fresh workers that carry the spaces of its items
  // settle every success, in at most four steps for each open item and whatever was claimed, put back or
  // written before. Nobody holds a lock, and no run is touched.
  lemma SettlesAll(s: State, staleSeconds: int, from: int) returns (tr: Trace, last: State)
    requires Reachable(s)
    ensures SettlingRun(tr, s, last, Crew(ItemSpaces(s.q), staleSeconds), from) && |tr.steps| <= 4 * |Open(s.q)|
    ensures Reachable(last) && last.q.runs == s.q.runs && AllSettled(last)
  {
    ReachableInv(s);
    tr, last := SettleSchedule(s, Crew(ItemSpaces(s.q), staleSeconds), from);
    ReachableAlong(tr);
    ClosedIsSettled(last);
  }

  lemma ForwardAfter(a: seq<int>, from: int) returns (now: int)
    requires Forward(a, from)
    ensures now >= from && forall b :: Forward(b, now) ==> Forward(a + b, from)
  {
    now := if a == [] then from else a[|a| - 1];
  }

  // So every reachable state can be brought to its end, first by claims, recoveries and abandoned tokens,
  // then by deliveries: every run over, no run lost, every success settled.
  lemma EndsSettled(s: State, w: WorkerId, space: Space, c: Settings, from: int)
    returns (head: Trace, mid: State, tail: Trace, last: State)
    requires Reachable(s) && w !in s.workers && c.Positive()
    ensures Steps(head) && head.states[0] == s && head.states[|head.states| - 1] == mid
    ensures |head.steps| >= 1 && head.steps[0] == Spawn(w, space) && OnlyAbandons(head.steps[1..], c)
    ensures exists now :: SettlingRun(tail, mid, last, Crew(ItemSpaces(mid.q), c.staleSeconds), now)
    ensures Forward(head.nows + tail.nows, from)
    ensures Drained(last) && last.q.runs.Keys == s.q.runs.Keys && AllSettled(last)
  {
    head, mid := Drains(s, w, space, c, from);
    ReachableAlong(head);
    var now := ForwardAfter(head.nows, from);
    tail, last := SettlesAll(mid, c.staleSeconds, now);
  }

  // A blank answer is reachable, and then a success ends without a summary.
  lemma BlankAnswerIsRejected() returns (s: State)
    ensures Reachable(s) && 0 in s.q.runs && s.q.runs[0].status == Succeeded
    ensures s.q.runs[0].outcome.Some? && s.q.runs[0].outcome.value.answer == " "
    ensures 0 in s.q.outbox && s.q.outbox[0].completedAt.Some? && !HasSummary(s.mem, 0)
  {
    assert !IsSpace("w"[0]) && !IsSpace("m"[0]);
    SampleIsUsable(0, "w", Space("m", 1536));
    var a := SucceedWith(SampleSpec(Space("m", 1536)), "w", Space("m", 1536), " ");
    OutboxIffSucceeded(a, 0);
    var tr;
    tr, s := SettlesAll(a, 1, 0);
    assert BlankAnswer(s.q.runs[0]);
  }
}
