// One poll cycle of a worker, and the steps of the system it amounts to.
module PollCycles {
  import opened Prelude
  import opened Runs
  import opened Cells
  import opened Queue
  import opened Memories
  import opened System
  import opened Safety
  import opened Theorems
  import opened RunStores
  import opened MemoryStores
  import opened Workers
  import PollLoop

  // What the surroundings contribute to one turn of each loop.
  datatype SummaryTurn = SummaryTurn(
    now: int, locked: set<RunId>, memoryId: MemoryId, vectors: seq<seq<real>>, writing: Fault, completing: Fault)
  datatype RunTurn = RunTurn(claimedAt: int, locks: seq<set<RunId>>, execution: Ending, endedAt: int)

  // The worker is idle in a state whose tables are these.
  ghost predicate Idles(s: State, q: Tables, mem: MemoryTable, w: WorkerId, space: Space) {
    s.q == q && s.mem == mem && w in s.workers && s.workers[w] == Worker(space, Idle)
  }

  // Runs and summaries handed to the worker, items it rejected instead, and recoveries it made.
  datatype Tally = Tally(served: int, rejected: int, recovered: int) {
    function Plus(t: Tally): Tally {
      Tally(served + t.served, rejected + t.rejected, recovered + t.recovered)
    }
  }

  const NOTHING := Tally(0, 0, 0)

  function Counted(step: Step): Tally {
    match step
    case Claim(_, _, _, _, picked, _) => if picked.Some? then Tally(1, 0, 0) else NOTHING
    case ClaimSummary(_, _, _, _, _) => Tally(1, 0, 0)
    case Tell(_, call) => if call.Reject? then Tally(-1, 1, 0) else NOTHING
    case RecoverStale(_, _, _) => Tally(0, 0, 1)
    case _ => NOTHING
  }

  function Tallied(steps: seq<Step>): Tally {
    if steps == [] then NOTHING else Tallied(steps[..|steps| - 1]).Plus(Counted(steps[|steps| - 1]))
  }

  ghost predicate By(step: Step, w: WorkerId) {
    match step
    case Claim(v, _, _, _, _, _) => v == w
    case Tell(v, _) => v == w
    case Drop(v) => v == w
    case ClaimSummary(v, _, _, _, _) => v == w
    case WriteSummary(v, _) => v == w
    case RecoverStale(_, _, _) => true
    case _ => false
  }

  // A stretch of execution from s to d by this worker alone, and what it amounts to.
  ghost predicate Stretch(tr: Trace, s: State, d: State, w: WorkerId, n: Tally) {
    && Steps(tr) && tr.states[0] == s && tr.states[|tr.states| - 1] == d
    && (forall i :: 0 <= i < |tr.steps| ==> By(tr.steps[i], w))
    && Tallied(tr.steps) == n
  }

  lemma StretchEmpty(s: State, w: WorkerId) returns (tr: Trace)
    ensures Stretch(tr, s, s, w, NOTHING) && tr.steps == []
  {
    tr := Trace([s], [], []);
  }

  lemma StretchStep(tr: Trace, s: State, d: State, w: WorkerId, n: Tally, step: Step, now: int) returns (done: Trace)
    requires Stretch(tr, s, d, w, n) && Enabled(d, step, now) && By(step, w)
    ensures Stretch(done, s, Next(d, step, now), w, n.Plus(Counted(step))) && done.steps == tr.steps + [step]
  {
    var last := OneStep(d, step, now);
    done := Join(tr, last);
    assert done.steps[..|tr.steps|] == tr.steps;
  }

  lemma StretchInv(tr: Trace, s: State, d: State, w: WorkerId, n: Tally)
    requires Stretch(tr, s, d, w, n) && Inv(s)
    ensures Inv(d)
  {
    ExecutionKeepsInv(tr, |tr.states| - 1);
  }

  // What a worker says about what it holds, and then lets go of it.
  lemma {:induction false} CallsStretch(tr: Trace, s: State, d: State, w: WorkerId, n: Tally, calls: seq<Call>,
                                        now: int)
    returns (done: Trace, e: State)
    requires Stretch(tr, s, d, w, n) && w in d.workers && !d.workers[w].hand.Idle?
    requires forall c :: c in calls ==> !c.Reject? && Fits(d.workers[w].hand, c) && MayCall(d.workers[w], c, now)
    ensures Stretch(done, s, e, w, n)
    ensures e == d.(q := AfterCalls(d.q, w, d.workers[w].hand, calls, now))
  {
    done, e := tr, d;
    if calls != [] {
      var front, last := calls[..|calls| - 1], calls[|calls| - 1];
      done, e := CallsStretch(tr, s, d, w, n, front, now);
      assert last in calls;
      TellNext(e, w, last, now);
      done := StretchStep(done, s, e, w, n, Tell(w, last), now);
      e := Next(e, Tell(w, last), now);
    }
  }

  lemma DropStretch(tr: Trace, s: State, d: State, w: WorkerId, n: Tally, now: int) returns (done: Trace, e: State)
    requires Stretch(tr, s, d, w, n) && w in d.workers
    ensures Stretch(done, s, e, w, n) && Idles(e, d.q, d.mem, w, d.workers[w].space)
  {
    DropNext(d, w, now);
    done := StretchStep(tr, s, d, w, n, Drop(w), now);
    e := Next(d, Drop(w), now);
  }

  // The last step was a claim that found nothing to start.
  ghost predicate FoundNothing(tr: Trace) {
    tr.steps != [] && tr.steps[|tr.steps| - 1].Claim? && tr.steps[|tr.steps| - 1].picked.None?
  }

  // A claim of runs, and what it leaves in the worker's hand.
  lemma ClaimStretch(tr: Trace, s: State, d: State, w: WorkerId, n: Tally, locks: seq<set<RunId>>, retired: seq<RunId>,
                     picked: Option<RunId>, now: int) returns (done: Trace, e: State)
    requires Stretch(tr, s, d, w, n) && w in d.workers && d.workers[w].hand == Idle
    requires ClaimCall(d.q, w, now, locks, 10, retired, picked)
    ensures Stretch(done, s, e, w, if picked.Some? then n.Plus(Tally(1, 0, 0)) else n)
    ensures picked.None? ==> FoundNothing(done)
    ensures var after, rest := d.(q := AfterClaim(d.q, w, now, retired, picked)), QuarantineAll(d.q, retired, w, now);
            e == if picked.Some? then
                   SetHand(after, w, Executing(TokenFor(picked.value, rest.runs[picked.value], w, now), now))
                 else after
  {
    ClaimNext(d, w, locks, 10, retired, picked, now);
    done := StretchStep(tr, s, d, w, n, Claim(w, locks, 10, retired, picked, false), now);
    e := Next(d, Claim(w, locks, 10, retired, picked, false), now);
  }

  // A claim of one summary.
  lemma ClaimItemStretch(tr: Trace, s: State, d: State, w: WorkerId, n: Tally, staleSeconds: int, locked: set<RunId>,
                         id: RunId, now: int) returns (done: Trace, e: State)
    requires Stretch(tr, s, d, w, n) && w in d.workers && d.workers[w].hand == Idle
    requires IsItemCandidate(d.q, now, staleSeconds, locked, id)
             && id in ItemTaken(d.q, id, w, staleSeconds, now).outbox
    ensures Stretch(done, s, e, w, n.Plus(Tally(1, 0, 0)))
    ensures var q := ItemTaken(d.q, id, w, staleSeconds, now);
            var decoded := DecodeSummaryItem(id, q.outbox[id], w);
            e == SetHand(d.(q := q), w, if decoded.Ok? then Delivering(decoded.value, false) else Rejecting(id))
  {
    ClaimItemNext(d, w, staleSeconds, locked, id, now);
    done := StretchStep(tr, s, d, w, n, ClaimSummary(w, staleSeconds, locked, id, false), now);
    e := Next(d, ClaimSummary(w, staleSeconds, locked, id, false), now);
  }

  lemma WriteStretch(tr: Trace, s: State, d: State, w: WorkerId, n: Tally, memoryId: MemoryId, now: int)
    returns (done: Trace, e: State)
    requires Stretch(tr, s, d, w, n) && w in d.workers && d.workers[w].hand.Delivering? && memoryId !in d.mem
    requires Matching(d.workers[w].hand.item, d.workers[w].space)
    ensures var item, space := d.workers[w].hand.item, d.workers[w].space;
            && Stretch(done, s, e, w, n)
            && e == SetHand(d.(mem := Upsert(d.mem, memoryId, SummaryMemory(item, space, now))), w,
                Delivering(item, true))
  {
    WriteNext(d, w, memoryId, now);
    done := StretchStep(tr, s, d, w, n, WriteSummary(w, memoryId), now);
    e := Next(d, WriteSummary(w, memoryId), now);
  }

  lemma RejectingStretch(tr: Trace, s: State, d: State, w: WorkerId, n: Tally, now: int) returns (done: Trace, e: State)
    requires Stretch(tr, s, d, w, n) && w in d.workers && d.workers[w].hand.Rejecting?
    ensures Stretch(done, s, e, w, n.Plus(Tally(-1, 1, 0)))
    ensures e == d.(q := On(d.q, d.workers[w].hand.runId, RejectItem(w), now))
  {
    TellNext(d, w, Reject, now);
    done := StretchStep(tr, s, d, w, n, Tell(w, Reject), now);
    e := Next(d, Tell(w, Reject), now);
  }

  // ---- the loop over runs -----------------------------------------------------------------------

  // A held run is told about as its execution demands, and dropped.
  lemma ExecutionStretch(tr: Trace, s: State, d: State, w: WorkerId, space: Space, n: Tally,
                         token: ClaimedRun, claimedAt: int, execution: Ending, endedAt: int)
    returns (done: Trace, e: State)
    requires Stretch(tr, s, d, w, n) && w in d.workers && d.workers[w] == Worker(space, Executing(token, claimedAt))
    requires endedAt >= claimedAt
    ensures Stretch(done, s, e, w, n)
    ensures var calls := CallsFor(token, space, execution);
            Idles(e, AfterCalls(d.q, w, Executing(token, claimedAt), calls, endedAt), d.mem, w, space)
  {
    done, e := CallsStretch(tr, s, d, w, n, CallsFor(token, space, execution), endedAt);
    done, e := DropStretch(done, s, e, w, n, endedAt);
  }

  // Who calls and when the claim was made do not matter to the tables.
  lemma {:induction false} SameCalls(q: Tables, v: WorkerId, w: WorkerId, token: ClaimedRun, at: int, claimedAt: int,
                                     calls: seq<Call>, now: int)
    requires forall c :: c in calls ==> c.GiveUp? || c.Finish?
    ensures AfterCalls(q, v, Executing(token, at), calls, now)
            == AfterCalls(q, w, Executing(token, claimedAt), calls, now)
  {
    if calls != [] {
      SameCalls(q, v, w, token, at, claimedAt, calls[..|calls| - 1], now);
      assert calls[|calls| - 1] in calls;
    }
  }

  // The tables after one turn of the loop over runs: the claim, and what the execution of the run it
  // started amounts to.
  function RunTurned(q: Tables, w: WorkerId, space: Space, t: RunTurn, retired: seq<RunId>, picked: Option<RunId>)
    : Tables
    requires ClaimCall(q, w, t.claimedAt, t.locks, 10, retired, picked)
  {
    var after, rest := AfterClaim(q, w, t.claimedAt, retired, picked), QuarantineAll(q, retired, w, t.claimedAt);
    if picked.None? then after
    else
      var token := TokenFor(picked.value, rest.runs[picked.value], w, t.claimedAt);
      AfterCalls(after, w, Executing(token, t.claimedAt), CallsFor(token, space, t.execution), t.endedAt)
  }

  ghost predicate RunTurnDone(q: Tables, d: Tables, w: WorkerId, space: Space, t: RunTurn, served: bool) {
    exists retired: seq<RunId>, picked: Option<RunId> ::
      (served <==> picked.Some?) && RunTurnedTo(q, d, w, space, t, retired, picked)
  }

  ghost predicate RunTurnedTo(q: Tables, d: Tables, w: WorkerId, space: Space, t: RunTurn, retired: seq<RunId>,
                              picked: Option<RunId>) {
    ClaimCall(q, w, t.claimedAt, t.locks, 10, retired, picked) && d == RunTurned(q, w, space, t, retired, picked)
  }

  // The tables before, between and after the turns of the loop: it serves n turns and then has no turn
  // left or finds nothing.
  ghost predicate RunsDone(qs: seq<Tables>, w: WorkerId, space: Space, turns: seq<RunTurn>, n: nat) {
    && n <= |turns| && |qs| == Min(n + 1, |turns|) + 1
    && forall i :: 0 <= i < |qs| - 1 ==> RunTurnDone(qs[i], qs[i + 1], w, space, turns[i], i < n)
  }

  // So far, n turns have been served.
  ghost predicate RunsServed(qs: seq<Tables>, w: WorkerId, space: Space, turns: seq<RunTurn>, n: nat) {
    n <= |turns| && |qs| == n + 1
    && forall i :: 0 <= i < n ==> RunTurnDone(qs[i], qs[i + 1], w, space, turns[i], true)
  }

  lemma RunsServedMore(qs: seq<Tables>, d: Tables, w: WorkerId, space: Space, turns: seq<RunTurn>, n: nat, served: bool)
    requires RunsServed(qs, w, space, turns, n) && n < |turns| && RunTurnDone(qs[n], d, w, space, turns[n], served)
    ensures if served then RunsServed(qs + [d], w, space, turns, n + 1) else RunsDone(qs + [d], w, space, turns, n)
  {
    var all := qs + [d];
    forall i | 0 <= i < n
      ensures RunTurnDone(all[i], all[i + 1], w, space, turns[i], true)
    {
      assert all[i] == qs[i] && all[i + 1] == qs[i + 1];
      assert RunTurnDone(qs[i], qs[i + 1], w, space, turns[i], true);
    }
    assert all[n] == qs[n] && all[n + 1] == d;
  }

  lemma AllRunsServed(qs: seq<Tables>, w: WorkerId, space: Space, turns: seq<RunTurn>)
    requires RunsServed(qs, w, space, turns, |turns|)
    ensures RunsDone(qs, w, space, turns, |turns|)
  {
  }

  // One turn of the loop over runs.
  method ServeRun(store: RunStore, w: WorkerId, space: Space, t: RunTurn,
                  ghost s: State, ghost tr: Trace, ghost d: State, ghost n: Tally)
    returns (served: bool, ghost done: Trace, ghost e: State)
    requires store.Valid() && Stretch(tr, s, d, w, n) && Idles(d, store.Db(), d.mem, w, space)
    requires space.dim > 0 && t.endedAt >= t.claimedAt
    modifies store
    ensures store.Valid() && (!served ==> FoundNothing(done))
    ensures Stretch(done, s, e, w, if served then n.Plus(Tally(1, 0, 0)) else n)
    ensures Idles(e, store.Db(), d.mem, w, space)
    ensures RunTurnDone(old(store.Db()), store.Db(), w, space, t, served)
  {
    var r;
    ghost var retired, picked;
    ghost var q := store.Db();
    r, retired, picked := store.Claim(w, t.claimedAt, t.locks, 10);
    done, e := ClaimStretch(tr, s, d, w, n, t.locks, retired, picked, t.claimedAt);
    served := r.value.Some?;
    if served {
      done, e := ProcessHeld(store, w, space, r.value.value, t, s, done, e, n.Plus(Tally(1, 0, 0)));
    }
    assert RunTurnedTo(q, store.Db(), w, space, t, retired, picked);
  }

  // The held run is processed.
  method ProcessHeld(store: RunStore, w: WorkerId, space: Space, run: ClaimedRun, t: RunTurn,
                     ghost s: State, ghost tr: Trace, ghost d: State, ghost n: Tally)
    returns (ghost done: Trace, ghost e: State)
    requires store.Valid() && Stretch(tr, s, d, w, n) && d.q == store.Db()
    requires w in d.workers && d.workers[w] == Worker(space, Executing(run, t.claimedAt))
    requires space.dim > 0 && t.endedAt >= t.claimedAt
    modifies store
    ensures store.Valid() && Stretch(done, s, e, w, n) && Idles(e, store.Db(), d.mem, w, space)
    ensures store.Db() == AfterCalls(old(store.Db()), w, Executing(run, t.claimedAt),
                                     CallsFor(run, space, t.execution), t.endedAt)
  {
    SameCalls(store.Db(), run.workerId, w, run, t.endedAt, t.claimedAt, CallsFor(run, space, t.execution), t.endedAt);
    ProcessClaim(store, run, space, t.execution, t.endedAt);
    done, e := ExecutionStretch(tr, s, d, w, space, n, run, t.claimedAt, t.execution, t.endedAt);
  }

  // The n-th turn of the loop.
  method ServeNextRun(store: RunStore, w: WorkerId, space: Space, turns: seq<RunTurn>, i: nat,
                      ghost s: State, ghost tr: Trace, ghost d: State, ghost n: Tally, ghost before: seq<Tables>)
    returns (served: bool, ghost done: Trace, ghost e: State, ghost qs: seq<Tables>)
    requires store.Valid() && Stretch(tr, s, d, w, n) && Idles(d, store.Db(), d.mem, w, space)
    requires space.dim > 0 && i < |turns| && turns[i].endedAt >= turns[i].claimedAt
    requires RunsServed(before, w, space, turns, i) && before[i] == store.Db()
    modifies store
    ensures store.Valid() && (!served ==> FoundNothing(done))
    ensures Stretch(done, s, e, w, if served then n.Plus(Tally(1, 0, 0)) else n)
    ensures Idles(e, store.Db(), d.mem, w, space)
    ensures if served then RunsServed(qs, w, space, turns, i + 1) else RunsDone(qs, w, space, turns, i)
    ensures |qs| == i + 2 && qs[0] == before[0] && qs[i + 1] == store.Db()
  {
    served, done, e := ServeRun(store, w, space, turns[i], s, tr, d, n);
    RunsServedMore(before, store.Db(), w, space, turns, i, served);
    qs := before + [store.Db()];
  }

  // The loop of a cycle over claimed runs: it stops early only when a claim finds nothing.
  method ServeRuns(store: RunStore, w: WorkerId, space: Space, turns: seq<RunTurn>,
                   ghost s: State, ghost tr: Trace, ghost d: State, ghost n: Tally)
    returns (processed: nat, ghost done: Trace, ghost e: State, ghost qs: seq<Tables>)
    requires store.Valid() && Stretch(tr, s, d, w, n) && Idles(d, store.Db(), d.mem, w, space)
    requires space.dim > 0 && forall t :: t in turns ==> t.endedAt >= t.claimedAt
    modifies store
    ensures store.Valid() && processed <= |turns| && (processed < |turns| ==> FoundNothing(done))
    ensures Stretch(done, s, e, w, n.Plus(Tally(processed, 0, 0))) && Idles(e, store.Db(), d.mem, w, space)
    ensures RunsDone(qs, w, space, turns, processed) && qs[0] == old(store.Db()) && qs[|qs| - 1] == store.Db()
  {
    processed, done, e, qs := 0, tr, d, [store.Db()];
    for i := 0 to |turns|
      invariant store.Valid() && processed == i
      invariant RunsServed(qs, w, space, turns, i) && qs[0] == old(store.Db()) && qs[i] == store.Db()
      invariant Stretch(done, s, e, w, n.Plus(Tally(processed, 0, 0))) && Idles(e, store.Db(), d.mem, w, space)
    {
      var served;
      served, done, e, qs := ServeNextRun(store, w, space, turns, i, s, done, e, n.Plus(Tally(processed, 0, 0)), qs);
      if !served {
        return;
      }
      processed := processed + 1;
    }
    AllRunsServed(qs, w, space, turns);
  }

  // ---- the loop over summaries ------------------------------------------------------------------

  // One undecodable item is claimed, rejected and dropped.
  lemma RejectStretch(tr: Trace, s: State, d: State, w: WorkerId, space: Space, n: Tally,
                      staleSeconds: int, locked: set<RunId>, id: RunId, now: int) returns (done: Trace, e: State)
    requires Stretch(tr, s, d, w, n) && Idles(d, d.q, d.mem, w, space)
             && IsItemCandidate(d.q, now, staleSeconds, locked, id)
    requires var taken := ItemTaken(d.q, id, w, staleSeconds, now);
             id in taken.outbox && !ItemDecodes(id, taken.outbox[id], w)
    ensures Stretch(done, s, e, w, n.Plus(Tally(0, 1, 0)))
    ensures Idles(e, On(ItemTaken(d.q, id, w, staleSeconds, now), id, RejectItem(w), now), d.mem, w, space)
  {
    done, e := ClaimItemStretch(tr, s, d, w, n, staleSeconds, locked, id, now);
    done, e := RejectingStretch(done, s, e, w, n.Plus(Tally(1, 0, 0)), now);
    done, e := DropStretch(done, s, e, w, n.Plus(Tally(0, 1, 0)), now);
  }

  lemma {:induction false} RejectsStretch(tr: Trace, s: State, d: State, w: WorkerId, space: Space, n: Tally,
                                          staleSeconds: int, locked: set<RunId>, ids: seq<RunId>, now: int)
    returns (done: Trace, e: State)
    requires Stretch(tr, s, d, w, n) && Idles(d, d.q, d.mem, w, space)
    requires RejectsPoison(d.q, w, staleSeconds, now, locked, ids)
    ensures Stretch(done, s, e, w, n.Plus(Tally(0, |ids|, 0)))
    ensures Idles(e, RejectAll(d.q, ids, w, staleSeconds, now), d.mem, w, space)
  {
    done, e := tr, d;
    if ids != [] {
      var front, last := ids[..|ids| - 1], ids[|ids| - 1];
      done, e := RejectsStretch(tr, s, d, w, space, n, staleSeconds, locked, front, now);
      done, e := RejectStretch(done, s, e, w, space, n.Plus(Tally(0, |front|, 0)), staleSeconds, locked, last, now);
    }
  }

  // What delivering a claimed summary does to the memory table.
  function Delivered(mem: MemoryTable, item: SummaryItem, space: Space, t: SummaryTurn): MemoryTable {
    if Written(item, space, t.vectors, t.writing) then Upsert(mem, t.memoryId, SummaryMemory(item, space, t.now))
       else mem
  }

  // A held summary is written if it can be.
  lemma WritingStretch(tr: Trace, s: State, d: State, w: WorkerId, space: Space, n: Tally, item: SummaryItem,
                       t: SummaryTurn)
    returns (done: Trace, e: State)
    requires Stretch(tr, s, d, w, n) && w in d.workers && d.workers[w] == Worker(space, Delivering(item, false))
    requires t.memoryId !in d.mem
    ensures var written := Written(item, space, t.vectors, t.writing);
            && Stretch(done, s, e, w, n) && e.q == d.q && e.mem == Delivered(d.mem, item, space, t)
            && w in e.workers && e.workers[w] == Worker(space, Delivering(item, written))
  {
    done, e := tr, d;
    if Written(item, space, t.vectors, t.writing) {
      done, e := WriteStretch(tr, s, d, w, n, t.memoryId, t.now);
    }
  }

  lemma {:induction false} SameSettlement(q: Tables, v: WorkerId, w: WorkerId, item: SummaryItem, written: bool,
                                          calls: seq<Call>, now: int)
    requires forall c :: c in calls ==> c.Retry? || c.Complete?
    ensures AfterCalls(q, v, Delivering(item, true), calls, now)
            == AfterCalls(q, w, Delivering(item, written), calls, now)
  {
    if calls != [] {
      SameSettlement(q, v, w, item, written, calls[..|calls| - 1], now);
      assert calls[|calls| - 1] in calls;
    }
  }

  // A held summary is written if it can be, told about and dropped.
  lemma DeliveryStretch(tr: Trace, s: State, d: State, w: WorkerId, space: Space, n: Tally, item: SummaryItem,
                        t: SummaryTurn)
    returns (done: Trace, e: State)
    requires Stretch(tr, s, d, w, n) && w in d.workers && d.workers[w] == Worker(space, Delivering(item, false))
    requires t.memoryId !in d.mem
    ensures Stretch(done, s, e, w, n)
    ensures var calls := Settlement(item, space, t.vectors, t.writing, t.completing);
            Idles(e, AfterCalls(d.q, item.workerId, Delivering(item, true), calls, t.now),
                  Delivered(d.mem, item, space, t), w, space)
  {
    var calls := Settlement(item, space, t.vectors, t.writing, t.completing);
    done, e := WritingStretch(tr, s, d, w, space, n, item, t);
    SameSettlement(d.q, item.workerId, w, item, e.workers[w].hand.written, calls, t.now);
    done, e := CallsStretch(done, s, e, w, n, calls, t.now);
    done, e := DropStretch(done, s, e, w, n, t.now);
  }

  // A decodable item that a worker took in a sound state carries an attempt.
  lemma TakenIsGood(tr: Trace, s: State, d: State, w: WorkerId, n: Tally, staleSeconds: int, id: RunId, now: int)
    requires Stretch(tr, s, d, w, n) && Inv(s) && id in d.q.outbox && ItemEligible(d.q.outbox[id], now, staleSeconds)
    ensures UniqueSources(d.mem)
    ensures var taken := ItemTaken(d.q, id, w, staleSeconds, now);
            && id in taken.outbox
            && var decoded := DecodeSummaryItem(id, taken.outbox[id], w);
            decoded.Ok? ==> decoded.value.attempts >= 1
  {
    StretchInv(tr, s, d, w, n);
    TakenItemIsGood(d.q, d.mem, w, staleSeconds, id, now);
  }

  // The rejections of a call and the claim that ends it.
  lemma TakeStretch(tr: Trace, s: State, d: State, w: WorkerId, space: Space, n: Tally, staleSeconds: int,
                    locked: set<RunId>,
                    rejected: seq<RunId>, item: SummaryItem, now: int) returns (done: Trace, e: State)
    requires Inv(s) && Stretch(tr, s, d, w, n) && Idles(d, d.q, d.mem, w, space)
    requires RejectsPoison(d.q, w, staleSeconds, now, locked, rejected)
    requires var rest := RejectAll(d.q, rejected, w, staleSeconds, now);
             var taken := ItemTaken(rest, item.runId, w, staleSeconds, now);
             && IsItemCandidate(rest, now, staleSeconds, locked, item.runId)
             && item.runId in taken.outbox && DecodeSummaryItem(item.runId, taken.outbox[item.runId], w) == Ok(item)
    ensures Stretch(done, s, e, w, n.Plus(Tally(1, |rejected|, 0)))
    ensures e.mem == d.mem && UniqueSources(e.mem) && item.attempts >= 1
    ensures e.q == ItemTaken(RejectAll(d.q, rejected, w, staleSeconds, now), item.runId, w, staleSeconds, now)
    ensures w in e.workers && e.workers[w] == Worker(space, Delivering(item, false))
  {
    var m := n.Plus(Tally(0, |rejected|, 0));
    done, e := RejectsStretch(tr, s, d, w, space, n, staleSeconds, locked, rejected, now);
    TakenIsGood(done, s, e, w, m, staleSeconds, item.runId, now);
    done, e := ClaimItemStretch(done, s, e, w, m, staleSeconds, locked, item.runId, now);
  }

  // The tables after one turn of the loop over summaries: the rejections, and the delivery of the item
  // taken.
  ghost predicate SummaryTurnDone(q: Tables, mem: MemoryTable, d: Tables, done: MemoryTable, w: WorkerId, space: Space,
                                  staleSeconds: int, t: SummaryTurn, served: bool) {
    exists rejected: seq<RunId>, item: Option<SummaryItem> ::
      (served <==> item.Some?) && SummaryTurned(q, mem, d, done, w, space, staleSeconds, t, rejected, item)
  }

  ghost predicate SummaryTurned(q: Tables, mem: MemoryTable, d: Tables, done: MemoryTable, w: WorkerId, space: Space,
                                staleSeconds: int, t: SummaryTurn, rejected: seq<RunId>, item: Option<SummaryItem>) {
    && RejectsPoison(q, w, staleSeconds, t.now, t.locked, rejected)
    && var rest := RejectAll(q, rejected, w, staleSeconds, t.now);
    match item
    case None =>
      d == rest && done == mem && (|rejected| == 10 || ClaimableItems(rest, t.now, staleSeconds, t.locked) == {})
    case Some(summary) =>
      && |rejected| < 10 && IsItemCandidate(rest, t.now, staleSeconds, t.locked, summary.runId)
      && var taken := ItemTaken(rest, summary.runId, w, staleSeconds, t.now);
      && summary.runId in taken.outbox
      && DecodeSummaryItem(summary.runId, taken.outbox[summary.runId], w) == Ok(summary)
      && d == AfterCalls(taken, summary.workerId, Delivering(summary, true),
                         Settlement(summary, space, t.vectors, t.writing, t.completing), t.now)
      && done == Delivered(mem, summary, space, t)
  }

  ghost predicate SummariesDone(qs: seq<Tables>, mems: seq<MemoryTable>, w: WorkerId, space: Space, staleSeconds: int,
                                turns: seq<SummaryTurn>, n: nat) {
    && n <= |turns| && |qs| == |mems| == Min(n + 1, |turns|) + 1
    && forall i :: 0 <= i < |qs| - 1 ==>
         SummaryTurnDone(qs[i], mems[i], qs[i + 1], mems[i + 1], w, space, staleSeconds, turns[i], i < n)
  }

  ghost predicate SummariesServed(qs: seq<Tables>, mems: seq<MemoryTable>, w: WorkerId, space: Space,
                                  staleSeconds: int, turns: seq<SummaryTurn>, n: nat) {
    n <= |turns| && |qs| == |mems| == n + 1
    && forall i :: 0 <= i < n ==>
         SummaryTurnDone(qs[i], mems[i], qs[i + 1], mems[i + 1], w, space, staleSeconds, turns[i], true)
  }

  lemma SummariesServedMore(qs: seq<Tables>, mems: seq<MemoryTable>, d: Tables, done: MemoryTable, w: WorkerId,
                            space: Space, staleSeconds: int, turns: seq<SummaryTurn>, n: nat, served: bool)
    requires SummariesServed(qs, mems, w, space, staleSeconds, turns, n) && n < |turns|
    requires SummaryTurnDone(qs[n], mems[n], d, done, w, space, staleSeconds, turns[n], served)
    ensures if served then SummariesServed(qs + [d], mems + [done], w, space, staleSeconds, turns, n + 1)
            else SummariesDone(qs + [d], mems + [done], w, space, staleSeconds, turns, n)
  {
  }

  lemma AllSummariesServed(qs: seq<Tables>, mems: seq<MemoryTable>, w: WorkerId, space: Space, staleSeconds: int,
                           turns: seq<SummaryTurn>)
    requires SummariesServed(qs, mems, w, space, staleSeconds, turns, |turns|)
    ensures SummariesDone(qs, mems, w, space, staleSeconds, turns, |turns|)
  {
  }

  // The held summary is delivered.
  method DeliverHeld(store: RunStore, memory: MemoryStore, w: WorkerId, item: SummaryItem, t: SummaryTurn,
                     ghost s: State, ghost tr: Trace, ghost d: State, ghost n: Tally)
    returns (ghost done: Trace, ghost e: State)
    requires store.Valid() && Stretch(tr, s, d, w, n) && d.q == store.Db() && d.mem == memory.items
    requires w in d.workers && d.workers[w] == Worker(memory.space, Delivering(item, false))
    requires t.memoryId !in memory.items && UniqueSources(memory.items) && item.attempts >= 1
    modifies store, memory
    ensures store.Valid() && Stretch(done, s, e, w, n) && Idles(e, store.Db(), memory.items, w, memory.space)
    ensures memory.items == Delivered(old(memory.items), item, memory.space, t)
    ensures store.Db() == AfterCalls(old(store.Db()), item.workerId, Delivering(item, true),
                                     Settlement(item, memory.space, t.vectors, t.writing, t.completing), t.now)
  {
    DeliverSummary(store, memory, item, t.memoryId, t.vectors, t.writing, t.completing, t.now);
    done, e := DeliveryStretch(tr, s, d, w, memory.space, n, item, t);
  }

  // A call of claim_summary that answered None had nothing left to claim, or rejected ten items.
  ghost predicate Exhausted(q: Tables, t: SummaryTurn, staleSeconds: int, before: Tally, after: Tally) {
    ClaimableItems(q, t.now, staleSeconds, t.locked) == {} || after.rejected == before.rejected + 10
  }

  // Claims the next summary into the worker's hand.
  method TakeSummary(store: RunStore, w: WorkerId, space: Space, staleSeconds: int, t: SummaryTurn,
                     ghost s: State, ghost tr: Trace, ghost d: State, ghost n: Tally)
    returns (item: Option<SummaryItem>, ghost done: Trace, ghost e: State, ghost rejected: seq<RunId>)
    requires store.Valid() && Inv(s) && Stretch(tr, s, d, w, n) && Idles(d, store.Db(), d.mem, w, space)
    modifies store
    ensures store.Valid() && e.q == store.Db() && e.mem == d.mem && w in e.workers
    ensures Stretch(done, s, e, w, n.Plus(Tally(if item.Some? then 1 else 0, |rejected|, 0)))
    ensures RejectsPoison(old(store.Db()), w, staleSeconds, t.now, t.locked, rejected)
    ensures item.None? ==>
              && e.workers[w] == Worker(space, Idle)
              && store.Db() == RejectAll(old(store.Db()), rejected, w, staleSeconds, t.now)
              && (|rejected| == 10 || ClaimableItems(store.Db(), t.now, staleSeconds, t.locked) == {})
    ensures item.Some? ==>
              && e.workers[w] == Worker(space, Delivering(item.value, false)) && UniqueSources(e.mem)
              && item.value.attempts >= 1 && |rejected| < 10
              && var rest, id := RejectAll(old(store.Db()), rejected, w, staleSeconds, t.now), item.value.runId;
              && IsItemCandidate(rest, t.now, staleSeconds, t.locked, id)
              && store.Db() == ItemTaken(rest, id, w, staleSeconds, t.now)
              && id in store.outbox && DecodeSummaryItem(id, store.outbox[id], w) == Ok(item.value)
  {
    var r;
    r, rejected := store.ClaimSummary(w, staleSeconds, t.now, t.locked, 10);
    item := r.value;
    if item.Some? {
      done, e := TakeStretch(tr, s, d, w, space, n, staleSeconds, t.locked, rejected, item.value, t.now);
    } else {
      done, e := RejectsStretch(tr, s, d, w, space, n, staleSeconds, t.locked, rejected, t.now);
    }
  }

  // One turn of the loop over summaries.
  method ServeSummary(store: RunStore, memory: MemoryStore, w: WorkerId, staleSeconds: int, t: SummaryTurn,
                      ghost s: State, ghost tr: Trace, ghost d: State, ghost n: Tally)
    returns (served: bool, ghost done: Trace, ghost e: State, ghost m: Tally)
    requires store.Valid() && Inv(s) && Stretch(tr, s, d, w, n) && Idles(d, store.Db(), memory.items, w, memory.space)
    requires t.memoryId !in memory.items
    modifies store, memory
    ensures store.Valid() && Stretch(done, s, e, w, m) && Idles(e, store.Db(), memory.items, w, memory.space)
    ensures m.served == n.served + (if served then 1 else 0) && m.rejected >= n.rejected && m.recovered == n.recovered
    ensures !served ==> Exhausted(store.Db(), t, staleSeconds, n, m)
    ensures memory.items.Keys <= old(memory.items.Keys) + {t.memoryId}
    ensures SummaryTurnDone(old(store.Db()), old(memory.items), store.Db(), memory.items, w, memory.space, staleSeconds,
                            t, served)
  {
    var item;
    ghost var rejected;
    ghost var q, mem := store.Db(), memory.items;
    item, done, e, rejected := TakeSummary(store, w, memory.space, staleSeconds, t, s, tr, d, n);
    served := item.Some?;
    m := n.Plus(Tally(if served then 1 else 0, |rejected|, 0));
    if served {
      done, e := DeliverHeld(store, memory, w, item.value, t, s, done, e, m);
    }
    assert SummaryTurned(q, mem, store.Db(), memory.items, w, memory.space, staleSeconds, t, rejected, item);
  }

  // Fresh keys for the turns still to come.
  ghost predicate FreshIds(mem: MemoryTable, turns: seq<SummaryTurn>, from: nat) {
    && (forall i :: from <= i < |turns| ==> turns[i].memoryId !in mem)
    && forall i, j :: 0 <= i < j < |turns| ==> turns[i].memoryId != turns[j].memoryId
  }

  // The n-th turn of the loop.
  method ServeNextSummary(store: RunStore, memory: MemoryStore, w: WorkerId, staleSeconds: int,
                          turns: seq<SummaryTurn>, i: nat, ghost s: State, ghost tr: Trace, ghost d: State,
                          ghost n: Tally, ghost before: seq<Tables>, ghost earlier: seq<MemoryTable>)
    returns (served: bool, ghost done: Trace, ghost e: State, ghost m: Tally, ghost qs: seq<Tables>,
             ghost mems: seq<MemoryTable>)
    requires store.Valid() && Inv(s) && Stretch(tr, s, d, w, n) && Idles(d, store.Db(), memory.items, w, memory.space)
    requires i < |turns| && FreshIds(memory.items, turns, i)
    requires SummariesServed(before, earlier, w, memory.space, staleSeconds, turns, i)
    requires before[i] == store.Db() && earlier[i] == memory.items
    modifies store, memory
    ensures store.Valid() && Stretch(done, s, e, w, m) && Idles(e, store.Db(), memory.items, w, memory.space)
    ensures m.served == n.served + (if served then 1 else 0) && m.recovered == n.recovered
    ensures FreshIds(memory.items, turns, i + 1)
    ensures if served then SummariesServed(qs, mems, w, memory.space, staleSeconds, turns, i + 1)
            else SummariesDone(qs, mems, w, memory.space, staleSeconds, turns, i)
    ensures |qs| == |mems| == i + 2 && qs[0] == before[0] && mems[0] == earlier[0]
    ensures qs[i + 1] == store.Db() && mems[i + 1] == memory.items
  {
    served, done, e, m := ServeSummary(store, memory, w, staleSeconds, turns[i], s, tr, d, n);
    SummariesServedMore(before, earlier, store.Db(), memory.items, w, memory.space, staleSeconds, turns, i, served);
    qs, mems := before + [store.Db()], earlier + [memory.items];
  }

  // The loop of a cycle over claimed summaries: it stops early only when a claim answers None.
  method ServeSummaries(store: RunStore, memory: MemoryStore, w: WorkerId, staleSeconds: int, turns: seq<SummaryTurn>,
                        ghost s: State, ghost tr: Trace, ghost d: State, ghost n: Tally)
    returns (processed: nat, ghost done: Trace, ghost e: State, ghost m: Tally, ghost qs: seq<Tables>,
             ghost mems: seq<MemoryTable>)
    requires store.Valid() && Inv(s) && Stretch(tr, s, d, w, n) && Idles(d, store.Db(), memory.items, w, memory.space)
    requires FreshIds(memory.items, turns, 0)
    modifies store, memory
    ensures store.Valid() && Stretch(done, s, e, w, m) && Idles(e, store.Db(), memory.items, w, memory.space)
    ensures processed <= |turns| && m.served == n.served + processed && m.recovered == n.recovered
    ensures SummariesDone(qs, mems, w, memory.space, staleSeconds, turns, processed)
    ensures qs[0] == old(store.Db()) && mems[0] == old(memory.items)
    ensures qs[|qs| - 1] == store.Db() && mems[|mems| - 1] == memory.items
  {
    processed, done, e, m, qs, mems := 0, tr, d, n, [store.Db()], [memory.items];
    for i := 0 to |turns|
      invariant store.Valid() && processed == i && FreshIds(memory.items, turns, i)
      invariant Stretch(done, s, e, w, m) && Idles(e, store.Db(), memory.items, w, memory.space)
      invariant m.served == n.served + processed && m.recovered == n.recovered
      invariant SummariesServed(qs, mems, w, memory.space, staleSeconds, turns, i)
      invariant qs[0] == old(store.Db()) && mems[0] == old(memory.items)
      invariant qs[i] == store.Db() && mems[i] == memory.items
    {
      var served;
      served, done, e, m, qs, mems :=
        ServeNextSummary(store, memory, w, staleSeconds, turns, i, s, done, e, m, qs, mems);
      if !served {
        return;
      }
      processed := processed + 1;
    }
    AllSummariesServed(qs, mems, w, memory.space, staleSeconds, turns);
  }

  // ---- the cycle --------------------------------------------------------------------------------

  // The recovery that opens a cycle exactly when a period has passed since the last one.
  method RecoverIfDue(store: RunStore, w: WorkerId, space: Space, at: real, lastRecovery: real, staleSeconds: int,
                      batchSize: int, now: int, locked: set<RunId>, ghost s: State)
    returns (recovered: real, ghost done: Trace, ghost e: State)
    requires store.Valid() && Inv(s) && Idles(s, store.Db(), s.mem, w, space) && staleSeconds >= 1 && batchSize >= 1
    modifies store
    ensures store.Valid() && Idles(e, store.Db(), s.mem, w, space)
    ensures if at - lastRecovery >= 10.0 && at - lastRecovery >= staleSeconds as real / 2.0 then
              && recovered == at && Stretch(done, s, e, w, Tally(0, 0, 1))
              && done.steps == [Step.RecoverStale(staleSeconds, batchSize, locked)]
              && AfterRecovery(old(store.Db()), staleSeconds, batchSize, now, locked) == Ok(store.Db())
            else
              recovered == lastRecovery && Stretch(done, s, e, w, NOTHING) && store.Db() == old(store.Db())
  {
    PollLoop.PeriodPassedIff(at - lastRecovery, staleSeconds);
    recovered := lastRecovery;
    done := StretchEmpty(s, w);
    e := s;
    if at - lastRecovery >= PollLoop.RecoveryPeriod(staleSeconds) {
      RecoveryOfInv(s.q, staleSeconds, batchSize, now, locked);
      RecoverNext(s, staleSeconds, batchSize, locked, now);
      var r := store.RecoverStale(staleSeconds, batchSize, now, locked);
      ghost var step := Step.RecoverStale(staleSeconds, batchSize, locked);
      done := StretchStep(done, s, s, w, NOTHING, step, now);
      e := Next(s, step, now);
      recovered := at;
    }
  }

  // A whole cycle of one worker, nobody interfering, is an execution of that worker's own steps. It
  // starts and ends with an empty hand, which is the whole discipline the fence relies on; it recovers
  // once if a period has passed and never otherwise, and the answer counts the runs and summaries the
  // worker was handed on the way.
  method PollCycle(store: RunStore, memory: MemoryStore, w: WorkerId, at: real, lastRecovery: real,
                   staleSeconds: int, batchSize: int, now: int, locked: set<RunId>,
                   summaries: seq<SummaryTurn>, runs: seq<RunTurn>, ghost s: State)
    returns (recovered: real, processed: nat, ghost done: Trace, ghost e: State, ghost m: Tally,
             ghost delivered: nat, ghost settling: seq<Tables>, ghost mems: seq<MemoryTable>,
             ghost serving: seq<Tables>)
    requires store.Valid() && Inv(s) && Idles(s, store.Db(), memory.items, w, memory.space)
    requires staleSeconds >= 1 && batchSize >= 1 && memory.space.dim > 0 && FreshIds(memory.items, summaries, 0)
    requires forall t :: t in runs ==> t.endedAt >= t.claimedAt
    modifies store, memory
    ensures store.Valid() && Stretch(done, s, e, w, m) && Idles(e, store.Db(), memory.items, w, memory.space)
    ensures Inv(e) && m.served == processed <= |summaries| + |runs| && (processed < |runs| ==> FoundNothing(done))
    ensures var due := at - lastRecovery >= 10.0 && at - lastRecovery >= staleSeconds as real / 2.0;
            && m.recovered == (if due then 1 else 0) && recovered == (if due then at else lastRecovery)
            && settling != []
            && if due then AfterRecovery(old(store.Db()), staleSeconds, batchSize, now, locked) == Ok(settling[0])
               else settling[0] == old(store.Db())
    ensures SummariesDone(settling, mems, w, memory.space, staleSeconds, summaries, delivered)
    ensures delivered <= processed && RunsDone(serving, w, memory.space, runs, processed - delivered)
    ensures mems[0] == old(memory.items) && mems[|mems| - 1] == memory.items
    ensures serving[0] == settling[|settling| - 1] && serving[|serving| - 1] == store.Db()
  {
    recovered, done, e :=
      RecoverIfDue(store, w, memory.space, at, lastRecovery, staleSeconds, batchSize, now, locked, s);
    m := Tallied(done.steps);
    processed, done, e, m, settling, mems :=
      ServeSummaries(store, memory, w, staleSeconds, summaries, s, done, e, m);
    delivered := processed;
    var served;
    served, done, e, serving := ServeRuns(store, w, memory.space, runs, s, done, e, m);
    processed, m := processed + served, m.Plus(Tally(served, 0, 0));
    StretchInv(done, s, e, w, m);
  }
}
