// Nobody is passed over for ever: how many claims and recoveries can leave one run where it is, in any
// execution and whatever other rows are locked.
module Fairness {
  import opened Prelude
  import opened Retry
  import opened Runs
  import opened Cells
  import opened History
  import opened Queue
  import opened System
  import opened Safety
  import opened Theorems

  // What any transaction makes of the row of a run: nothing, a sign of life, a retry for later, an end.
  ghost predicate RowMoves(row: Row, done: Row, now: int) {
    || done == row
    || (done.status == Running && StaleAt(done) == now)
    || (done.status == Queued && row.status == Running && done.availableAt > now)
    || Ended(done)
  }

  lemma ApplyMovesRow(id: RunId, c: Cell, a: Action, now: int)
    requires CellInv(id, c) && Disciplined(id, c, a, now)
    ensures RowMoves(c.row, Apply(c, a, now).row, now)
  {
  }

  // What any step makes of all rows; a new run is available at once.
  ghost predicate RowsMove(q: Tables, d: Tables, now: int) {
    && (forall x :: x in q.runs ==> x in d.runs && RowMoves(q.runs[x], d.runs[x], now))
    && (forall x :: x in d.runs && x !in q.runs ==> d.runs[x].status == Queued && d.runs[x].availableAt == now)
  }

  lemma ActMovesRows(q: Tables, id: RunId, a: Action, now: int)
    requires CellsInv(q) && id in q.runs && Disciplined(id, Get(q, id), a, now)
    ensures RowsMove(q, On(q, id, a, now), now)
  {
    OnFrame(q, id, a, now);
    ApplyMovesRow(id, Get(q, id), a, now);
    OneRowMoves(q, On(q, id, a, now), id, now);
  }

  lemma OneRowMoves(q: Tables, d: Tables, id: RunId, now: int)
    requires WellKeyed(q) && WellKeyed(d) && d.runs.Keys == q.runs.Keys && id in q.runs
    requires RowMoves(Get(q, id).row, Get(d, id).row, now)
    requires forall x :: x in q.runs && x != id ==> Get(d, x) == Get(q, x)
    ensures RowsMove(q, d, now)
  {
    forall x | x in q.runs
      ensures RowMoves(q.runs[x], d.runs[x], now)
    {
      assert x != id ==> Get(d, x).row == Get(q, x).row;
    }
  }

  lemma ActAllMovesRows(q: Tables, ids: seq<RunId>, a: Action, now: int)
    requires CellsInv(q) && Distinct(ids) && Known(q, ids) && (a.Quarantine? || (a.Recover? && a.staleSeconds >= 1))
    ensures RowsMove(q, OnAll(q, ids, a, now), now)
  {
    OnAllFrame(q, ids, a, now);
    var d := OnAll(q, ids, a, now);
    forall x | x in q.runs
      ensures RowMoves(q.runs[x], d.runs[x], now)
    {
      assert Get(d, x).row == d.runs[x];
      if x in ids {
        ApplyMovesRow(x, Get(q, x), a, now);
      }
    }
  }

  lemma StartMovesRows(q: Tables, rest: Tables, d: Tables, picked: Option<RunId>, w: WorkerId, now: int)
    requires RowsMove(q, rest, now) && rest.runs.Keys == q.runs.Keys && d.runs.Keys == q.runs.Keys
    requires picked.Some? ==> picked.value in q.runs && d.runs[picked.value] == Claimed(q.runs[picked.value], w, now)
    requires forall x :: x in q.runs && Some(x) != picked ==> d.runs[x] == rest.runs[x]
    ensures RowsMove(q, d, now)
  {
    forall x | x in q.runs
      ensures RowMoves(q.runs[x], d.runs[x], now)
    {
      assert RowMoves(q.runs[x], rest.runs[x], now);
    }
  }

  lemma ClaimMovesRows(q: Tables, w: WorkerId, now: int, locks: seq<set<RunId>>, maxQuarantined: int,
                       retired: seq<RunId>, picked: Option<RunId>)
    requires CellsInv(q) && ClaimCall(q, w, now, locks, maxQuarantined, retired, picked)
    ensures RowsMove(q, AfterClaim(q, w, now, retired, picked), now)
  {
    PoisonIsClaimable(q, w, now, locks, retired);
    ActAllMovesRows(q, retired, Quarantine(w), now);
    ClaimFrame(q, w, now, locks, maxQuarantined, retired, picked);
    StartMovesRows(q, QuarantineAll(q, retired, w, now), AfterClaim(q, w, now, retired, picked), picked, w, now);
  }

  lemma CallMovesRows(s: State, w: WorkerId, call: Call, now: int)
    requires Inv(s) && Enabled(s, Tell(w, call), now)
    ensures RowsMove(s.q, Next(s, Tell(w, call), now).q, now)
  {
    CallIsDisciplined(s.q, s.mem, w, s.workers[w], call, now);
    ActMovesRows(s.q, Target(s.workers[w].hand), ActionOf(w, s.workers[w].hand, call), now);
    TellNext(s, w, call, now);
  }

  lemma EnqueueMovesRows(q: Tables, id: RunId, spec: RunSpec, now: int)
    requires WellKeyed(q) && id !in q.runs
    ensures RowsMove(q, Put(q, id, Enqueued(spec, now)), now)
  {
  }

  lemma RecoveryMovesRows(q: Tables, staleSeconds: int, batchSize: nat, locked: set<RunId>, now: int)
    requires CellsInv(q) && staleSeconds >= 1
    ensures RowsMove(q, OnAll(q, StaleBatch(q, staleSeconds, batchSize, now, locked), Recover(staleSeconds), now), now)
  {
    BatchIsOldest(q, staleSeconds, batchSize, now, locked);
    ActAllMovesRows(q, StaleBatch(q, staleSeconds, batchSize, now, locked), Recover(staleSeconds), now);
  }

  lemma StepMovesRows(s: State, step: Step, now: int)
    requires Inv(s) && Enabled(s, step, now)
    ensures RowsMove(s.q, Next(s, step, now).q, now)
  {
    StepTables(s, step, now);
    match step
    case Enqueue(id, spec) => EnqueueMovesRows(s.q, id, spec, now);
    case Claim(w, locks, maxQuarantined, retired, picked, _) =>
      ClaimMovesRows(s.q, w, now, locks, maxQuarantined, retired, picked);
    case Tell(w, call) => CallMovesRows(s, w, call, now);
    case RecoverStale(staleSeconds, batchSize, locked) => RecoveryMovesRows(s.q, staleSeconds, batchSize, locked, now);
    case ClaimSummary(w, staleSeconds, _, id, _) => ActMovesRows(s.q, id, ClaimItem(w, staleSeconds), now);
    case _ =>
  }

  // ---- claims -----------------------------------------------------------------------------------

  // The other queued runs that claim may prefer to x. No clock is part of this: as soon as x is
  // available, so are they.
  function Competitors(q: Tables, x: RunId): set<RunId>
    requires x in q.runs
  {
    set y | y in q.runs && y != x && q.runs[y].status == Queued && !Before(q.runs[x], q.runs[y])
  }

  // Once x is available, nothing that happens later can get ahead of it.
  lemma NoNewCompetitors(q: Tables, d: Tables, x: RunId, now: int)
    requires RowsMove(q, d, now) && x in q.runs && d.runs[x] == q.runs[x] && now > q.runs[x].availableAt
    ensures Competitors(d, x) <= Competitors(q, x)
  {
    forall y | y in Competitors(d, x)
      ensures y in Competitors(q, x)
    {
      assert y in q.runs ==> RowMoves(q.runs[y], d.runs[y], now);
    }
  }

  // A claim that finds x available and unlocked and leaves it alone takes a competitor.
  lemma ClaimTakesCompetitor(q: Tables, w: WorkerId, now: int, locks: seq<set<RunId>>, maxQuarantined: int,
                             retired: seq<RunId>, picked: Option<RunId>, x: RunId) returns (y: RunId)
    requires WellKeyed(q) && ClaimCall(q, w, now, locks, maxQuarantined, retired, picked) && maxQuarantined >= 1
    requires x in Claimable(q, now, {}) && NeverLocked(locks, x) && x !in retired && picked != Some(x)
    ensures y in Competitors(q, x)
    ensures var d := AfterClaim(q, w, now, retired, picked); y in d.runs && d.runs[y].status != Queued
  {
    ClaimContract(q, w, now, locks, maxQuarantined, retired, picked);
    assert x in Claimable(q, now, LocksAt(locks, 0));
    if retired != [] {
      y := retired[0];
      assert y in retired && PoisonRow(q, w, now, LocksAt(locks, 0), retired, y);
    } else {
      assert QuarantineAll(q, [], w, now) == q;
      assert picked.Some?;
      y := picked.value;
    }
  }

  // A claim, by any worker, whose statements all found x unlocked.
  predicate Offers(step: Step, x: RunId) {
    step.Claim? && forall i :: 0 <= i < |step.locks| ==> x !in step.locks[i]
  }

  // How many of the first n steps are such claims.
  function Offered(steps: seq<Step>, n: nat, x: RunId): nat
    requires n <= |steps|
  {
    if n == 0 then 0 else Offered(steps, n - 1, x) + if Offers(steps[n - 1], x) then 1 else 0
  }

  lemma ClaimLeavesFewer(q: Tables, w: WorkerId, now: int, locks: seq<set<RunId>>, maxQuarantined: int,
                         retired: seq<RunId>, picked: Option<RunId>, d: Tables, x: RunId)
    requires WellKeyed(q) && ClaimCall(q, w, now, locks, maxQuarantined, retired, picked) && maxQuarantined >= 1
    requires d == AfterClaim(q, w, now, retired, picked) && x in q.runs && x in d.runs && d.runs[x] == q.runs[x]
    requires x in Claimable(q, now, {}) && NeverLocked(locks, x) && Competitors(d, x) <= Competitors(q, x)
    ensures |Competitors(d, x)| + 1 <= |Competitors(q, x)|
  {
    LeftAlone(q, w, now, locks, maxQuarantined, retired, picked, x);
    var y := ClaimTakesCompetitor(q, w, now, locks, maxQuarantined, retired, picked, x);
    assert y !in Competitors(d, x);
    SubsetIsSmaller(Competitors(d, x), Competitors(q, x) - {y});
  }

  lemma FewerCompetitors(s: State, step: Step, now: int, d: Tables, x: RunId)
    requires Inv(s) && Enabled(s, step, now) && d == Next(s, step, now).q
    requires x in s.q.runs && x in d.runs && s.q.runs[x].status == Queued && d.runs[x] == s.q.runs[x]
    requires now > s.q.runs[x].availableAt
    ensures |Competitors(d, x)| + (if Offers(step, x) then 1 else 0) <= |Competitors(s.q, x)|
  {
    StepMovesRows(s, step, now);
    NoNewCompetitors(s.q, d, x, now);
    SubsetIsSmaller(Competitors(d, x), Competitors(s.q, x));
    if Offers(step, x) {
      OfferIsClaim(s, step, now, x);
      ClaimLeavesFewer(s.q, step.worker, now, step.locks, step.maxQuarantined, step.retired, step.picked, d, x);
    }
  }

  lemma OfferIsClaim(s: State, step: Step, now: int, x: RunId)
    requires Inv(s) && Enabled(s, step, now) && Offers(step, x)
    requires x in s.q.runs && s.q.runs[x].status == Queued && now > s.q.runs[x].availableAt
    ensures ClaimCall(s.q, step.worker, now, step.locks, step.maxQuarantined, step.retired, step.picked)
    ensures step.maxQuarantined >= 1 && NeverLocked(step.locks, x) && x in Claimable(s.q, now, {})
    ensures Next(s, step, now).q == AfterClaim(s.q, step.worker, now, step.retired, step.picked)
  {
    StepTables(s, step, now);
    QueuedIsClaimable(s.q, x, now);
  }

  // A claim moves every run it retires or picks.
  lemma LeftAlone(q: Tables, w: WorkerId, now: int, locks: seq<set<RunId>>, maxQuarantined: int,
                  retired: seq<RunId>, picked: Option<RunId>, x: RunId)
    requires WellKeyed(q) && ClaimCall(q, w, now, locks, maxQuarantined, retired, picked) && x in q.runs
    requires var d := AfterClaim(q, w, now, retired, picked);
             x in d.runs && d.runs[x] == q.runs[x] && q.runs[x].status == Queued
    ensures x !in retired && picked != Some(x)
  {
    ClaimContract(q, w, now, locks, maxQuarantined, retired, picked);
  }

  // Attempts only grow, so a run whose attempts grew has been started or retired.
  lemma QueuedOrTaken(c: Cell, d: Cell, now: int)
    requires Evolves(c, d) && RowMoves(c.row, d.row, now) && c.row.status == Queued
    ensures d.row == c.row || d.row.attempts > c.row.attempts
  {
  }

  lemma QueuedUntilTaken(s: State, step: Step, now: int, d: Tables, x: RunId)
    requires Inv(s) && Enabled(s, step, now) && d == Next(s, step, now).q
    requires x in s.q.runs && s.q.runs[x].status == Queued
    ensures x in d.runs && (d.runs[x] == s.q.runs[x] || d.runs[x].attempts > s.q.runs[x].attempts)
  {
    StepMovesRows(s, step, now);
    StepEvolves(s, step, now);
    QueuedOrTaken(Get(s.q, x), Get(d, x), now);
  }

  lemma AttemptsGrow(s: State, step: Step, now: int, d: Tables, x: RunId)
    requires Inv(s) && Enabled(s, step, now) && d == Next(s, step, now).q && x in s.q.runs
    ensures x in d.runs && d.runs[x].attempts >= s.q.runs[x].attempts
  {
    StepEvolves(s, step, now);
    assert Evolves(Get(s.q, x), Get(d, x));
  }

  // Where a queued run stands: started or retired, or as it was and n claims closer to its turn.
  ghost predicate Awaits(q: Tables, d: Tables, x: RunId, n: nat)
    requires x in q.runs
  {
    && x in d.runs
    && (|| d.runs[x].attempts > q.runs[x].attempts
        || (d.runs[x] == q.runs[x] && n + |Competitors(d, x)| <= |Competitors(q, x)|))
  }

  lemma AwaitsOneMore(q: Tables, mid: State, step: Step, now: int, d: Tables, x: RunId, n: nat)
    requires Inv(mid) && Enabled(mid, step, now) && d == Next(mid, step, now).q
    requires x in q.runs && q.runs[x].status == Queued && now > q.runs[x].availableAt && Awaits(q, mid.q, x, n)
    ensures Awaits(q, d, x, n + if Offers(step, x) then 1 else 0)
  {
    AttemptsGrow(mid, step, now, d, x);
    if mid.q.runs[x] == q.runs[x] {
      QueuedUntilTaken(mid, step, now, d, x);
      if d.runs[x] == mid.q.runs[x] {
        FewerCompetitors(mid, step, now, d, x);
      }
    }
  }

  // Every clock reading is later than a given one.
  predicate LaterThan(nows: seq<int>, at: int) {
    forall i :: 0 <= i < |nows| ==> nows[i] > at
  }

  // After the first n steps of a trace that starts with the tables q.
  ghost predicate AwaitsAt(tr: Trace, q: Tables, n: nat, x: RunId)
    requires n <= |tr.steps| && n < |tr.states| && x in q.runs
  {
    Awaits(q, tr.states[n].q, x, Offered(tr.steps, n, x))
  }

  lemma AwaitsNext(tr: Trace, q: Tables, i: nat, x: RunId)
    requires Steps(tr) && Inv(tr.states[0]) && i < |tr.steps| && x in q.runs
    requires q.runs[x].status == Queued && LaterThan(tr.nows, q.runs[x].availableAt) && AwaitsAt(tr, q, i, x)
    ensures AwaitsAt(tr, q, i + 1, x)
  {
    ExecutionKeepsInv(tr, i);
    assert Follows(tr, i);
    AwaitsOneMore(q, tr.states[i], tr.steps[i], tr.nows[i], tr.states[i + 1].q, x, Offered(tr.steps, i, x));
  }

  lemma {:induction false} CompetitorsCount(tr: Trace, q: Tables, n: nat, x: RunId)
    requires n <= |tr.steps| && |tr.states| == |tr.steps| + 1 && q == tr.states[0].q && x in q.runs
    requires forall i :: 0 <= i < |tr.steps| ==> AwaitsAt(tr, q, i, x) ==> AwaitsAt(tr, q, i + 1, x)
    ensures AwaitsAt(tr, q, n, x)
  {
    if n > 0 {
      CompetitorsCount(tr, q, n - 1, x);
    }
  }

  // In every stretch of execution after a queued run became available, whatever else happens and
  // whatever else is locked: once more claims have found the run unlocked than it had competitors at
  // the start, it has been started or retired.
  lemma ClaimsReachRun(tr: Trace, x: RunId)
    requires Steps(tr) && Inv(tr.states[0]) && x in tr.states[0].q.runs && tr.states[0].q.runs[x].status == Queued
    requires LaterThan(tr.nows, tr.states[0].q.runs[x].availableAt)
    requires Offered(tr.steps, |tr.steps|, x) > |Competitors(tr.states[0].q, x)|
    ensures var d := tr.states[|tr.states| - 1].q; x in d.runs && d.runs[x].attempts > tr.states[0].q.runs[x].attempts
  {
    var q := tr.states[0].q;
    forall i | 0 <= i < |tr.steps| && AwaitsAt(tr, q, i, x)
      ensures AwaitsAt(tr, q, i + 1, x)
    {
      AwaitsNext(tr, q, i, x);
    }
    CompetitorsCount(tr, q, |tr.steps|, x);
  }

  // ---- recoveries -------------------------------------------------------------------------------

  // The other running runs that recovery takes before x.
  function Elders(q: Tables, x: RunId): set<RunId>
    requires x in q.runs
  {
    set y | y in q.runs && y != x && q.runs[y].status == Running && Older(q, y, x)
  }

  lemma NoNewElders(q: Tables, d: Tables, x: RunId, now: int)
    requires RowsMove(q, d, now) && x in q.runs && d.runs[x] == q.runs[x] && now > StaleAt(q.runs[x])
    ensures Elders(d, x) <= Elders(q, x)
  {
    forall y | y in Elders(d, x)
      ensures y in Elders(q, x)
    {
      assert y in q.runs ==> RowMoves(q.runs[y], d.runs[y], now);
    }
  }

  lemma FullBatch(q: Tables, staleSeconds: int, batchSize: nat, now: int, locked: set<RunId>, x: RunId)
    requires x in StaleRuns(q, now, staleSeconds, locked) && x !in StaleBatch(q, staleSeconds, batchSize, now, locked)
    ensures |Elements(StaleBatch(q, staleSeconds, batchSize, now, locked))| == batchSize
  {
    var ids, stale := StaleBatch(q, staleSeconds, batchSize, now, locked), StaleRuns(q, now, staleSeconds, locked);
    BatchIsOldest(q, staleSeconds, batchSize, now, locked);
    if |ids| == |stale| {
      SubsetOfSameSize(Elements(ids), stale);
    }
  }

  lemma BatchIsElder(q: Tables, staleSeconds: int, batchSize: nat, now: int, locked: set<RunId>, x: RunId)
    requires x in StaleRuns(q, now, staleSeconds, locked) && x !in StaleBatch(q, staleSeconds, batchSize, now, locked)
    ensures Elements(StaleBatch(q, staleSeconds, batchSize, now, locked)) <= Elders(q, x)
  {
    BatchIsOldest(q, staleSeconds, batchSize, now, locked);
    var ids := StaleBatch(q, staleSeconds, batchSize, now, locked);
    forall y | y in Elements(ids)
      ensures y in Elders(q, x)
    {
      assert y in ids;
    }
  }

  lemma RecoveredIsNoElder(q: Tables, staleSeconds: int, batchSize: nat, now: int, locked: set<RunId>, d: Tables,
                           x: RunId)
    requires WellKeyed(q) && AfterRecovery(q, staleSeconds, batchSize, now, locked) == Ok(d) && x in d.runs
    ensures Elements(StaleBatch(q, staleSeconds, batchSize, now, locked)) !! Elders(d, x)
  {
    var ids := StaleBatch(q, staleSeconds, batchSize, now, locked);
    BatchIsOldest(q, staleSeconds, batchSize, now, locked);
    RecoveringRuns(q, ids, staleSeconds, now);
    forall y | y in Elements(ids)
      ensures y !in Elders(d, x)
    {
      assert y in ids && d.runs[y].status != Running;
    }
  }

  // A recovery that finds x stale and unlocked and leaves it alone takes a whole batch of its elders.
  lemma RecoveryTakesElders(q: Tables, staleSeconds: int, batchSize: nat, now: int, locked: set<RunId>, d: Tables,
                            x: RunId)
    requires CellsInv(q) && x in StaleRuns(q, now, staleSeconds, locked) && x in d.runs
    requires AfterRecovery(q, staleSeconds, batchSize, now, locked) == Ok(d)
    requires x !in StaleBatch(q, staleSeconds, batchSize, now, locked)
    ensures var batch := Elements(StaleBatch(q, staleSeconds, batchSize, now, locked));
            |batch| == batchSize && batch <= Elders(q, x) && batch !! Elders(d, x)
  {
    FullBatch(q, staleSeconds, batchSize, now, locked, x);
    BatchIsElder(q, staleSeconds, batchSize, now, locked, x);
    RecoveredIsNoElder(q, staleSeconds, batchSize, now, locked, d, x);
  }

  // A recovery that found x stale and unlocked.
  predicate Visits(step: Step, now: int, row: Row, x: RunId) {
    step.RecoverStale? && x !in step.locked && Stale(row, now, step.staleSeconds)
  }

  // How many runs such recoveries may take in the first n steps.
  function Capacity(steps: seq<Step>, nows: seq<int>, n: nat, row: Row, x: RunId): nat
    requires n <= |steps| == |nows|
  {
    if n == 0 then 0
    else
      Capacity(steps, nows, n - 1, row, x)
      + if Visits(steps[n - 1], nows[n - 1], row, x) then steps[n - 1].batchSize else 0
  }

  lemma FewerElders(s: State, step: Step, now: int, d: Tables, x: RunId)
    requires Inv(s) && Enabled(s, step, now) && d == Next(s, step, now).q
    requires x in s.q.runs && x in d.runs && s.q.runs[x].status == Running && d.runs[x] == s.q.runs[x]
    requires now > StaleAt(s.q.runs[x])
    ensures |Elders(d, x)| + (if Visits(step, now, s.q.runs[x], x) then step.batchSize else 0) <= |Elders(s.q, x)|
  {
    StepMovesRows(s, step, now);
    NoNewElders(s.q, d, x, now);
    SubsetIsSmaller(Elders(d, x), Elders(s.q, x));
    if Visits(step, now, s.q.runs[x], x) {
      RecoveryOfInv(s.q, step.staleSeconds, step.batchSize, now, step.locked);
      RecoverNext(s, step.staleSeconds, step.batchSize, step.locked, now);
      RecoveryLeavesFewer(s.q, step.staleSeconds, step.batchSize, now, step.locked, d, x);
    }
  }

  lemma RecoveryLeavesFewer(q: Tables, staleSeconds: int, batchSize: nat, now: int, locked: set<RunId>, d: Tables,
                            x: RunId)
    requires CellsInv(q) && AfterRecovery(q, staleSeconds, batchSize, now, locked) == Ok(d)
    requires x in StaleRuns(q, now, staleSeconds, locked) && x in d.runs && d.runs[x] == q.runs[x]
    requires Elders(d, x) <= Elders(q, x)
    ensures |Elders(d, x)| + batchSize <= |Elders(q, x)|
  {
    NotRecovered(q, staleSeconds, batchSize, now, locked, d, x);
    RecoveryTakesElders(q, staleSeconds, batchSize, now, locked, d, x);
    DisjointSum(Elements(StaleBatch(q, staleSeconds, batchSize, now, locked)), Elders(d, x), Elders(q, x));
  }

  // A recovery moves every run of its batch.
  lemma NotRecovered(q: Tables, staleSeconds: int, batchSize: nat, now: int, locked: set<RunId>, d: Tables, x: RunId)
    requires WellKeyed(q) && AfterRecovery(q, staleSeconds, batchSize, now, locked) == Ok(d)
    requires x in q.runs && x in d.runs && q.runs[x].status == Running && d.runs[x] == q.runs[x]
    ensures x !in StaleBatch(q, staleSeconds, batchSize, now, locked)
  {
    BatchIsOldest(q, staleSeconds, batchSize, now, locked);
    RecoveringRuns(q, StaleBatch(q, staleSeconds, batchSize, now, locked), staleSeconds, now);
  }

  // The run gave a later sign of life, or its lease ended.
  ghost predicate Moved(row: Row, done: Row) {
    || Measure(done) < Measure(row)
    || (Measure(done) == Measure(row) && done.status == Running && StaleAt(done) > StaleAt(row))
  }

  lemma RunningOrMoved(c: Cell, d: Cell, now: int, first: Row)
    requires Evolves(c, d) && RowMoves(c.row, d.row, now)
    requires now > StaleAt(first) && first.status == Running && (c.row == first || Moved(first, c.row))
    ensures if c.row == first then d.row == first || Moved(first, d.row) else Moved(first, d.row)
  {
  }

  lemma RunningUntilMoved(s: State, step: Step, now: int, d: Tables, x: RunId, first: Row)
    requires Inv(s) && Enabled(s, step, now) && d == Next(s, step, now).q && x in s.q.runs
    requires now > StaleAt(first) && first.status == Running && (s.q.runs[x] == first || Moved(first, s.q.runs[x]))
    ensures x in d.runs
    ensures if s.q.runs[x] == first then d.runs[x] == first || Moved(first, d.runs[x]) else Moved(first, d.runs[x])
  {
    StepMovesRows(s, step, now);
    StepEvolves(s, step, now);
    RunningOrMoved(Get(s.q, x), Get(d, x), now, first);
  }

  // Where a running run stands: moved, or as it was with n fewer elders.
  ghost predicate Lingers(q: Tables, d: Tables, x: RunId, n: nat)
    requires x in q.runs
  {
    && x in d.runs
    && (Moved(q.runs[x], d.runs[x]) || (d.runs[x] == q.runs[x] && n + |Elders(d, x)| <= |Elders(q, x)|))
  }

  lemma LingersOneMore(q: Tables, mid: State, step: Step, now: int, d: Tables, x: RunId, n: nat)
    requires Inv(mid) && Enabled(mid, step, now) && d == Next(mid, step, now).q
    requires x in q.runs && q.runs[x].status == Running && now > StaleAt(q.runs[x]) && Lingers(q, mid.q, x, n)
    ensures Lingers(q, d, x, n + if Visits(step, now, q.runs[x], x) then step.batchSize else 0)
  {
    RunningUntilMoved(mid, step, now, d, x, q.runs[x]);
    if mid.q.runs[x] == q.runs[x] && d.runs[x] == q.runs[x] {
      FewerElders(mid, step, now, d, x);
    }
  }

  ghost predicate LingersAt(tr: Trace, q: Tables, n: nat, x: RunId)
    requires n <= |tr.steps| == |tr.nows| && n < |tr.states| && x in q.runs
  {
    Lingers(q, tr.states[n].q, x, Capacity(tr.steps, tr.nows, n, q.runs[x], x))
  }

  lemma LingersNext(tr: Trace, q: Tables, i: nat, x: RunId)
    requires Steps(tr) && Inv(tr.states[0]) && i < |tr.steps| && x in q.runs
    requires q.runs[x].status == Running && LaterThan(tr.nows, StaleAt(q.runs[x])) && LingersAt(tr, q, i, x)
    ensures LingersAt(tr, q, i + 1, x)
  {
    ExecutionKeepsInv(tr, i);
    assert Follows(tr, i);
    LingersOneMore(q, tr.states[i], tr.steps[i], tr.nows[i], tr.states[i + 1].q, x,
                   Capacity(tr.steps, tr.nows, i, q.runs[x], x));
  }

  lemma {:induction false} EldersCount(tr: Trace, q: Tables, n: nat, x: RunId)
    requires n <= |tr.steps| == |tr.nows| && |tr.states| == |tr.steps| + 1 && q == tr.states[0].q && x in q.runs
    requires forall i :: 0 <= i < |tr.steps| ==> LingersAt(tr, q, i, x) ==> LingersAt(tr, q, i + 1, x)
    ensures LingersAt(tr, q, n, x)
  {
    if n > 0 {
      EldersCount(tr, q, n - 1, x);
    }
  }

  // In every stretch of execution after a running run's last sign of life, whatever else happens and
  // whatever else is locked: once the recoveries that found it stale and unlocked could have taken more
  // runs than it had elders at the start, it has been recovered, has ended, or has given a later sign
  // of life.
  lemma RecoveriesReachRun(tr: Trace, x: RunId)
    requires Steps(tr) && Inv(tr.states[0]) && x in tr.states[0].q.runs && tr.states[0].q.runs[x].status == Running
    requires LaterThan(tr.nows, StaleAt(tr.states[0].q.runs[x]))
    requires Capacity(tr.steps, tr.nows, |tr.steps|, tr.states[0].q.runs[x], x) > |Elders(tr.states[0].q, x)|
    ensures var d := tr.states[|tr.states| - 1].q; x in d.runs && Moved(tr.states[0].q.runs[x], d.runs[x])
  {
    var q := tr.states[0].q;
    forall i | 0 <= i < |tr.steps| && LingersAt(tr, q, i, x)
      ensures LingersAt(tr, q, i + 1, x)
    {
      LingersNext(tr, q, i, x);
    }
    EldersCount(tr, q, |tr.steps|, x);
  }
  // ---- claims of summaries ------------------------------------------------------------------------

  // What any transaction makes of an outbox item: nothing, a claim now, a retry for later, an end.
  ghost predicate ItemMoves(item: Item, done: Item, now: int) {
    && item.attempts <= done.attempts && (item.completedAt.Some? ==> done == item)
    && (|| done == item
        || done.completedAt.Some?
        || (done.claimedAt == Some(now) && done.availableAt == item.availableAt && done.createdAt == item.createdAt
            && done.attempts > item.attempts)
        || (item.claimedBy.Some? && done.availableAt > now))
  }

  lemma ApplyMovesItem(id: RunId, c: Cell, a: Action, now: int)
    requires CellInv(id, c) && Disciplined(id, c, a, now) && c.item.Some?
    ensures Apply(c, a, now).item.Some? && ItemMoves(c.item.value, Apply(c, a, now).item.value, now)
  {
  }

  lemma ApplyAddsItem(id: RunId, c: Cell, a: Action, now: int)
    requires CellInv(id, c) && Disciplined(id, c, a, now) && c.item.None?
    ensures Apply(c, a, now).item.Some? ==> Apply(c, a, now).item.value.availableAt == now
  {
  }

  // What any step makes of all items; a new item is available at once.
  ghost predicate ItemsMove(q: Tables, d: Tables, now: int) {
    && (forall x :: x in q.outbox ==> x in d.outbox && ItemMoves(q.outbox[x], d.outbox[x], now))
    && (forall x :: x in d.outbox && x !in q.outbox ==> d.outbox[x].availableAt == now)
  }

  lemma OneItemMoves(q: Tables, d: Tables, id: RunId, now: int)
    requires WellKeyed(q) && WellKeyed(d) && d.runs.Keys == q.runs.Keys && id in q.runs
    requires Get(q, id).item.Some? ==>
               Get(d, id).item.Some? && ItemMoves(Get(q, id).item.value, Get(d, id).item.value, now)
    requires Get(q, id).item.None? && Get(d, id).item.Some? ==> Get(d, id).item.value.availableAt == now
    requires forall x :: x in q.runs && x != id ==> Get(d, x) == Get(q, x)
    ensures ItemsMove(q, d, now)
  {
    forall x | x in q.runs && x != id
      ensures x in q.outbox <==> x in d.outbox
      ensures x in q.outbox ==> d.outbox[x] == q.outbox[x]
    {
      assert Get(d, x).item == Get(q, x).item;
    }
  }

  lemma ActMovesItems(q: Tables, id: RunId, a: Action, now: int)
    requires CellsInv(q) && id in q.runs && Disciplined(id, Get(q, id), a, now)
    ensures ItemsMove(q, On(q, id, a, now), now)
  {
    OnFrame(q, id, a, now);
    if Get(q, id).item.Some? {
      ApplyMovesItem(id, Get(q, id), a, now);
    } else {
      ApplyAddsItem(id, Get(q, id), a, now);
    }
    OneItemMoves(q, On(q, id, a, now), id, now);
  }

  lemma SameOutbox(q: Tables, d: Tables, now: int)
    requires d.outbox == q.outbox
    ensures ItemsMove(q, d, now)
  {
  }

  // Claims and recoveries of runs leave the outbox alone.
  lemma {:induction false} OnAllLeavesOutbox(q: Tables, ids: seq<RunId>, a: Action, now: int)
    requires a.Quarantine? || a.Recover?
    ensures OnAll(q, ids, a, now).outbox == q.outbox
  {
    if ids != [] {
      OnAllLeavesOutbox(q, ids[..|ids| - 1], a, now);
      OnLeavesOutbox(OnAll(q, ids[..|ids| - 1], a, now), ids[|ids| - 1], a, now);
    }
  }

  lemma OnLeavesOutbox(q: Tables, id: RunId, a: Action, now: int)
    requires a.Start? || a.Quarantine? || a.Recover?
    ensures On(q, id, a, now).outbox == q.outbox
  {
    OnRefused(q, id, a, now);
    if Allowed(q, id, a, now) {
      OnRunOnly(q, id, a, now);
    }
  }

  lemma ClaimLeavesOutbox(q: Tables, w: WorkerId, now: int, retired: seq<RunId>, picked: Option<RunId>)
    ensures AfterClaim(q, w, now, retired, picked).outbox == q.outbox
  {
    OnAllLeavesOutbox(q, retired, Quarantine(w), now);
    if picked.Some? {
      OnLeavesOutbox(QuarantineAll(q, retired, w, now), picked.value, Start(w), now);
    }
  }

  lemma CallMovesItems(s: State, w: WorkerId, call: Call, now: int)
    requires Inv(s) && Enabled(s, Tell(w, call), now)
    ensures ItemsMove(s.q, Next(s, Tell(w, call), now).q, now)
  {
    CallIsDisciplined(s.q, s.mem, w, s.workers[w], call, now);
    ActMovesItems(s.q, Target(s.workers[w].hand), ActionOf(w, s.workers[w].hand, call), now);
    TellNext(s, w, call, now);
  }

  lemma StepMovesItems(s: State, step: Step, now: int)
    requires Inv(s) && Enabled(s, step, now)
    ensures ItemsMove(s.q, Next(s, step, now).q, now)
  {
    StepTables(s, step, now);
    match step
    case Claim(w, _, _, retired, picked, _) =>
      ClaimLeavesOutbox(s.q, w, now, retired, picked);
      SameOutbox(s.q, Next(s, step, now).q, now);
    case Tell(w, call) => CallMovesItems(s, w, call, now);
    case RecoverStale(staleSeconds, batchSize, locked) =>
      OnAllLeavesOutbox(s.q, StaleBatch(s.q, staleSeconds, batchSize, now, locked), Recover(staleSeconds), now);
      SameOutbox(s.q, Next(s, step, now).q, now);
    case ClaimSummary(w, staleSeconds, _, id, _) => ActMovesItems(s.q, id, ClaimItem(w, staleSeconds), now);
    case _ => SameOutbox(s.q, Next(s, step, now).q, now);
  }
  // The other open items that claim_summary may prefer to x, unless they were claimed at the horizon or
  // later.
  function Rivals(q: Tables, x: RunId, horizon: int): set<RunId>
    requires x in q.outbox
  {
    set y | y in q.outbox && y != x && q.outbox[y].completedAt == None
            && (q.outbox[y].claimedAt.Some? ==> q.outbox[y].claimedAt.value < horizon)
            && (q.outbox[y].availableAt < q.outbox[x].availableAt
                || (q.outbox[y].availableAt == q.outbox[x].availableAt
                    && q.outbox[y].createdAt <= q.outbox[x].createdAt))
  }

  lemma NoNewRivals(q: Tables, d: Tables, x: RunId, horizon: int, now: int)
    requires ItemsMove(q, d, now) && x in q.outbox && x in d.outbox && d.outbox[x] == q.outbox[x]
    requires now > q.outbox[x].availableAt && now >= horizon
    ensures Rivals(d, x, horizon) <= Rivals(q, x, horizon)
  {
    forall y | y in Rivals(d, x, horizon)
      ensures y in Rivals(q, x, horizon)
    {
      assert y in q.outbox ==> ItemMoves(q.outbox[y], d.outbox[y], now);
    }
  }

  // A claim of a summary, by any worker, that found x unlocked and claimable.
  predicate OffersItem(step: Step, now: int, item: Item, x: RunId) {
    step.ClaimSummary? && x !in step.locked && item.completedAt == None && item.availableAt <= now
    && (item.claimedAt.Some? ==> item.claimedAt.value < now - step.staleSeconds)
  }

  // A claim that finds x claimable and unlocked and leaves it alone takes a rival.
  lemma ClaimTakesRival(q: Tables, w: WorkerId, staleSeconds: int, locked: set<RunId>, id: RunId, now: int,
                        horizon: int, d: Tables, x: RunId)
    requires WellKeyed(q) && IsItemCandidate(q, now, staleSeconds, locked, id)
    requires d == ItemTaken(q, id, w, staleSeconds, now) && horizon <= now <= horizon + staleSeconds
    requires x in q.outbox && x in d.outbox && d.outbox[x] == q.outbox[x]
    requires OffersItem(Step.ClaimSummary(w, staleSeconds, locked, id, false), now, q.outbox[x], x)
    ensures id in Rivals(q, x, horizon) && id !in Rivals(d, x, horizon)
  {
    assert x in ClaimableItems(q, now, staleSeconds, locked);
    TakenItem(q, w, staleSeconds, id, now);
    assert d.outbox[id].claimedAt == Some(now) && d.outbox[id].attempts == q.outbox[id].attempts + 1;
  }

  lemma ClaimLeavesFewerItems(q: Tables, w: WorkerId, staleSeconds: int, locked: set<RunId>, id: RunId, now: int,
                              horizon: int, d: Tables, x: RunId)
    requires WellKeyed(q) && IsItemCandidate(q, now, staleSeconds, locked, id)
    requires d == ItemTaken(q, id, w, staleSeconds, now) && horizon <= now <= horizon + staleSeconds
    requires x in q.outbox && x in d.outbox && d.outbox[x] == q.outbox[x]
    requires OffersItem(Step.ClaimSummary(w, staleSeconds, locked, id, false), now, q.outbox[x], x)
    requires Rivals(d, x, horizon) <= Rivals(q, x, horizon)
    ensures |Rivals(d, x, horizon)| + 1 <= |Rivals(q, x, horizon)|
  {
    ClaimTakesRival(q, w, staleSeconds, locked, id, now, horizon, d, x);
    SubsetIsSmaller(Rivals(d, x, horizon), Rivals(q, x, horizon) - {id});
  }

  // Clock readings from the horizon on, for claims of summaries no later than their threshold allows.
  predicate BeforeReclaim(step: Step, now: int, horizon: int) {
    now >= horizon && (step.ClaimSummary? ==> now <= horizon + step.staleSeconds)
  }

  lemma ItemClaimTables(s: State, step: Step, now: int)
    requires step.ClaimSummary? && Enabled(s, step, now)
    ensures IsItemCandidate(s.q, now, step.staleSeconds, step.locked, step.runId)
    ensures Next(s, step, now).q == ItemTaken(s.q, step.runId, step.worker, step.staleSeconds, now)
  {
    StepTables(s, step, now);
  }

  lemma FewerRivals(s: State, step: Step, now: int, d: Tables, x: RunId, horizon: int)
    requires Inv(s) && Enabled(s, step, now) && d == Next(s, step, now).q && BeforeReclaim(step, now, horizon)
    requires x in s.q.outbox && x in d.outbox && d.outbox[x] == s.q.outbox[x] && now > s.q.outbox[x].availableAt
    ensures |Rivals(d, x, horizon)| + (if OffersItem(step, now, s.q.outbox[x], x) then 1 else 0)
            <= |Rivals(s.q, x, horizon)|
  {
    StepMovesItems(s, step, now);
    NoNewRivals(s.q, d, x, horizon, now);
    SubsetIsSmaller(Rivals(d, x, horizon), Rivals(s.q, x, horizon));
    if OffersItem(step, now, s.q.outbox[x], x) {
      ItemClaimTables(s, step, now);
      ClaimLeavesFewerItems(s.q, step.worker, step.staleSeconds, step.locked, step.runId, now, horizon, d, x);
    }
  }

  // The item was claimed, completed, or put back for later.
  ghost predicate Gone(item: Item, done: Item) {
    done.completedAt.Some? || done.attempts > item.attempts || done.availableAt > item.availableAt
  }

  // Where an item stands: gone, or as it was with n fewer rivals.
  ghost predicate Stands(q: Tables, d: Tables, x: RunId, horizon: int, n: nat)
    requires x in q.outbox
  {
    && x in d.outbox
    && (|| Gone(q.outbox[x], d.outbox[x])
        || (d.outbox[x] == q.outbox[x] && n + |Rivals(d, x, horizon)| <= |Rivals(q, x, horizon)|))
  }

  lemma GoneStays(first: Item, item: Item, done: Item, now: int)
    requires ItemMoves(item, done, now) && now > first.availableAt
    ensures item == first ==> done == first || Gone(first, done)
    ensures Gone(first, item) ==> Gone(first, done)
  {
  }

  lemma StandsOneMore(q: Tables, mid: State, step: Step, now: int, d: Tables, x: RunId, horizon: int, n: nat)
    requires Inv(mid) && Enabled(mid, step, now) && d == Next(mid, step, now).q && BeforeReclaim(step, now, horizon)
    requires x in q.outbox && now > q.outbox[x].availableAt && Stands(q, mid.q, x, horizon, n)
    ensures Stands(q, d, x, horizon, n + if OffersItem(step, now, q.outbox[x], x) then 1 else 0)
  {
    StepMovesItems(mid, step, now);
    GoneStays(q.outbox[x], mid.q.outbox[x], d.outbox[x], now);
    if mid.q.outbox[x] == q.outbox[x] && d.outbox[x] == q.outbox[x] {
      FewerRivals(mid, step, now, d, x, horizon);
    }
  }

  // How many of the first n steps found the item claimable and unlocked.
  function ItemOffers(steps: seq<Step>, nows: seq<int>, n: nat, item: Item, x: RunId): nat
    requires n <= |steps| == |nows|
  {
    if n == 0 then 0
    else ItemOffers(steps, nows, n - 1, item, x) + if OffersItem(steps[n - 1], nows[n - 1], item, x) then 1 else 0
  }

  ghost predicate StandsAt(tr: Trace, q: Tables, n: nat, x: RunId, horizon: int)
    requires n <= |tr.steps| == |tr.nows| && n < |tr.states| && x in q.outbox
  {
    Stands(q, tr.states[n].q, x, horizon, ItemOffers(tr.steps, tr.nows, n, q.outbox[x], x))
  }

  // A whole stretch lies in the window, and after a given moment.
  ghost predicate Within(tr: Trace, horizon: int, at: int) {
    |tr.nows| == |tr.steps|
    && forall i :: 0 <= i < |tr.steps| ==> tr.nows[i] > at && BeforeReclaim(tr.steps[i], tr.nows[i], horizon)
  }

  lemma StandsNext(tr: Trace, q: Tables, i: nat, x: RunId, horizon: int)
    requires Steps(tr) && Inv(tr.states[0]) && i < |tr.steps| && x in q.outbox
    requires Within(tr, horizon, q.outbox[x].availableAt) && StandsAt(tr, q, i, x, horizon)
    ensures StandsAt(tr, q, i + 1, x, horizon)
  {
    ExecutionKeepsInv(tr, i);
    assert Follows(tr, i);
    StandsOneMore(q, tr.states[i], tr.steps[i], tr.nows[i], tr.states[i + 1].q, x, horizon,
                  ItemOffers(tr.steps, tr.nows, i, q.outbox[x], x));
  }

  lemma {:induction false} RivalsCount(tr: Trace, q: Tables, n: nat, x: RunId, horizon: int)
    requires n <= |tr.steps| == |tr.nows| && |tr.states| == |tr.steps| + 1 && q == tr.states[0].q && x in q.outbox
    requires forall i :: 0 <= i < |tr.steps| ==> StandsAt(tr, q, i, x, horizon) ==> StandsAt(tr, q, i + 1, x, horizon)
    ensures StandsAt(tr, q, n, x, horizon)
  {
    if n > 0 {
      RivalsCount(tr, q, n - 1, x, horizon);
    }
  }

  // In every stretch of execution after an item became available that is no longer than the stale
  // threshold of its claims, whatever else happens and whatever else is locked: once more claims have
  // found the item claimable and unlocked than it had rivals at the start, it has been claimed, completed
  // or put back. (Over a longer stretch a rival whose worker keeps dying can be preferred again, once in
  // each threshold.)
  lemma ClaimsReachItem(tr: Trace, x: RunId, horizon: int)
    requires Steps(tr) && Inv(tr.states[0]) && x in tr.states[0].q.outbox
    requires Within(tr, horizon, tr.states[0].q.outbox[x].availableAt)
    requires ItemOffers(tr.steps, tr.nows, |tr.steps|, tr.states[0].q.outbox[x], x)
             > |Rivals(tr.states[0].q, x, horizon)|
    ensures var d := tr.states[|tr.states| - 1].q; x in d.outbox && Gone(tr.states[0].q.outbox[x], d.outbox[x])
  {
    var q := tr.states[0].q;
    forall i | 0 <= i < |tr.steps| && StandsAt(tr, q, i, x, horizon)
      ensures StandsAt(tr, q, i + 1, x, horizon)
    {
      StandsNext(tr, q, i, x, horizon);
    }
    RivalsCount(tr, q, |tr.steps|, x, horizon);
  }
}
