// From every reachable state, and from every moment on, the queue can be drained by claims and
// recoveries alone; no schedule can keep a run busy for more than its budget of transitions.
module Liveness {
  import opened Prelude
  import opened Retry
  import opened Runs
  import opened Cells
  import opened History
  import opened Queue
  import opened System
  import opened Safety
  import opened Theorems

  ghost function Total(runs: map<RunId, Row>, keys: set<RunId>): int
    requires keys <= runs.Keys
    decreases |keys|
  {
    if keys == {} then 0
    else
      var k :| k in keys;
      Measure(runs[k]) + Total(runs, keys - {k})
  }

  lemma {:induction false} TotalSplit(runs: map<RunId, Row>, keys: set<RunId>, k: RunId)
    requires keys <= runs.Keys && k in keys
    ensures Total(runs, keys) == Measure(runs[k]) + Total(runs, keys - {k})
    decreases |keys|
  {
    var first :| first in keys && Total(runs, keys) == Measure(runs[first]) + Total(runs, keys - {first});
    if first != k {
      TotalSplit(runs, keys - {first}, k);
      TotalSplit(runs, keys - {k}, first);
      assert keys - {first} - {k} == keys - {k} - {first};
    }
  }

  lemma {:induction false} TotalMonotone(a: map<RunId, Row>, b: map<RunId, Row>, keys: set<RunId>)
    requires keys <= a.Keys && keys <= b.Keys
    requires forall k :: k in keys ==> Measure(a[k]) <= Measure(b[k])
    ensures Total(a, keys) <= Total(b, keys)
    decreases |keys|
  {
    if keys != {} {
      var k :| k in keys;
      TotalSplit(a, keys, k);
      TotalSplit(b, keys, k);
      TotalMonotone(a, b, keys - {k});
    }
  }

  lemma {:induction false} TotalNonNegative(q: Tables, keys: set<RunId>)
    requires CellsInv(q) && keys <= q.runs.Keys
    ensures Total(q.runs, keys) >= 0
    decreases |keys|
  {
    if keys != {} {
      var k :| k in keys;
      TotalSplit(q.runs, keys, k);
      LifecycleBudget(k, Get(q, k));
      TotalNonNegative(q, keys - {k});
    }
  }

  lemma MeasureIsBounded(q: Tables, id: RunId)
    requires CellsInv(q) && id in q.runs
    ensures Measure(q.runs[id]) <= 2 * q.runs[id].spec.maxAttempts
  {
    assert CellInv(id, Get(q, id));
  }

  lemma {:induction false} TotalAtMost(runs: map<RunId, Row>, keys: set<RunId>, most: int)
    requires keys <= runs.Keys && forall k :: k in keys ==> Measure(runs[k]) <= most
    ensures Total(runs, keys) <= |keys| * most
    decreases |keys|
  {
    if keys != {} {
      var k :| k in keys;
      TotalSplit(runs, keys, k);
      TotalAtMost(runs, keys - {k}, most);
      MulStep(|keys - {k}|, most);
      assert |keys| == |keys - {k}| + 1;
    }
  }

  // The budget of any number of runs: at most two transitions for each attempt.
  lemma TotalIsBounded(q: Tables, keys: set<RunId>, maxAttempts: int)
    requires CellsInv(q) && keys <= q.runs.Keys && forall k :: k in keys ==> q.runs[k].spec.maxAttempts <= maxAttempts
    ensures Total(q.runs, keys) <= |keys| * (2 * maxAttempts)
  {
    forall k | k in keys
      ensures Measure(q.runs[k]) <= 2 * maxAttempts
    {
      MeasureIsBounded(q, k);
    }
    TotalAtMost(q.runs, keys, 2 * maxAttempts);
  }

  // Some run changed its status, so it used up a transition; none regained one.
  lemma TotalDrops(q: Tables, d: Tables, id: RunId)
    requires TablesEvolve(q, d) && id in q.runs && d.runs[id].status != q.runs[id].status
    ensures Total(d.runs, q.runs.Keys) < Total(q.runs, q.runs.Keys)
  {
    var keys := q.runs.Keys;
    forall k | k in keys
      ensures Measure(d.runs[k]) <= Measure(q.runs[k])
    {
      assert Evolves(Get(q, k), Get(d, k));
    }
    assert Evolves(Get(q, id), Get(d, id));
    TotalMonotone(d.runs, q.runs, keys - {id});
    TotalSplit(d.runs, keys, id);
    TotalSplit(q.runs, keys, id);
  }

  // Whatever the step, a run that changes its status costs the queue some of its remaining budget.
  lemma StepCosts(s: State, step: Step, now: int, d: Tables, x: RunId)
    requires Inv(s) && Enabled(s, step, now) && d == Next(s, step, now).q
    requires x in s.q.runs && x in d.runs && d.runs[x].status != s.q.runs[x].status
    ensures TablesEvolve(s.q, d) && Total(d.runs, s.q.runs.Keys) < Total(s.q.runs, s.q.runs.Keys)
  {
    StepEvolves(s, step, now);
    TotalDrops(s.q, d, x);
  }

  // How a deployment sets recovery and claim.
  datatype Settings = Settings(staleSeconds: int, batchSize: nat, maxQuarantined: int) {
    predicate Positive() {
      staleSeconds >= 1 && batchSize >= 1 && maxQuarantined >= 1
    }
  }

  // ---- when a run is due --------------------------------------------------------------------------

  // A queued run is due once it is available, a running one once its last sign of life is older than
  // the threshold.
  predicate Due(row: Row, staleSeconds: int, now: int) {
    if row.status == Queued then now >= row.availableAt else now > StaleAt(row) + staleSeconds
  }

  lemma DueIff(s: State, id: RunId, staleSeconds: int, now: int)
    requires Reachable(s) && id in s.q.runs && !Ended(s.q.runs[id])
    ensures var row := s.q.runs[id];
            Eligible(row, now) || Stale(row, now, staleSeconds) <==> Due(row, staleSeconds, now)
  {
    ReachableCell(s, id);
  }

  // ---- draining -----------------------------------------------------------------------------------

  ghost predicate Drained(s: State) {
    forall id :: id in s.q.runs ==> Ended(s.q.runs[id])
  }

  // A drainer is an idle worker.
  ghost predicate Ready(s: State, w: WorkerId) {
    Inv(s) && w in s.workers && s.workers[w].hand == Idle
  }

  // Claims and recoveries that find no row locked, and abandoned tokens: nobody ever finishes a run.
  predicate Abandons(step: Step, c: Settings) {
    || (step.Claim? && step.maxQuarantined == c.maxQuarantined && step.locks == [])
    || (step.RecoverStale? && step.staleSeconds == c.staleSeconds && step.batchSize == c.batchSize && step.locked == {})
    || step.Drop?
  }

  ghost predicate OnlyAbandons(steps: seq<Step>, c: Settings) {
    forall i :: 0 <= i < |steps| ==> Abandons(steps[i], c)
  }

  // Clock readings that start no earlier than `from` and never run backwards.
  ghost predicate Forward(nows: seq<int>, from: int) {
    (forall i :: 0 <= i < |nows| ==> nows[i] >= from) && forall i, j :: 0 <= i < j < |nows| ==> nows[i] <= nows[j]
  }

  lemma ForwardJoin(a: seq<int>, b: seq<int>, from: int, now: int)
    requires now >= from && (forall i :: 0 <= i < |a| ==> a[i] == now) && Forward(b, now)
    ensures Forward(a + b, from)
  {
  }

  lemma ClaimMoves(q: Tables, w: WorkerId, now: int, locks: seq<set<RunId>>, maxQuarantined: int,
                   retired: seq<RunId>, picked: Option<RunId>) returns (x: RunId)
    requires WellKeyed(q) && ClaimCall(q, w, now, locks, maxQuarantined, retired, picked)
             && (retired != [] || picked.Some?)
    ensures var d := AfterClaim(q, w, now, retired, picked);
            d.runs.Keys == q.runs.Keys && x in q.runs && d.runs[x].status != q.runs[x].status
  {
    ClaimContract(q, w, now, locks, maxQuarantined, retired, picked);
    if picked.Some? {
      x := picked.value;
    } else {
      x := retired[0];
      assert x in retired;
    }
  }

  lemma RecoveryMoves(q: Tables, staleSeconds: int, batchSize: nat, now: int, id: RunId) returns (x: RunId)
    requires CellsInv(q) && id in q.runs && Stale(q.runs[id], now, staleSeconds) && batchSize >= 1
    ensures var r := AfterRecovery(q, staleSeconds, batchSize, now, {});
            && r.Ok? && r.value.runs.Keys == q.runs.Keys
            && x in q.runs && r.value.runs[x].status != q.runs[x].status
  {
    RecoveryOfInv(q, staleSeconds, batchSize, now, {});
    RecoveryIsExact(q, staleSeconds, batchSize, now, {});
    BatchIsOldest(q, staleSeconds, batchSize, now, {});
    assert id in StaleRuns(q, now, staleSeconds, {});
    var ids := StaleBatch(q, staleSeconds, batchSize, now, {});
    x := ids[0];
    assert x in ids;
    assert Recovered(Get(q, x), Get(AfterRecovery(q, staleSeconds, batchSize, now, {}).value, x));
  }

  lemma RecoverSome(s: State, id: RunId, staleSeconds: int, batchSize: nat, from: int)
    returns (step: Step, now: int, x: RunId)
    requires Inv(s) && id in s.q.runs && s.q.runs[id].status == Running && staleSeconds >= 1 && batchSize >= 1
    ensures now >= from && Enabled(s, step, now) && Next(s, step, now).workers == s.workers
    ensures step.RecoverStale? && step.staleSeconds == staleSeconds && step.batchSize == batchSize && step.locked == {}
    ensures Next(s, step, now).q.runs.Keys == s.q.runs.Keys && x in s.q.runs
    ensures Next(s, step, now).q.runs[x].status != s.q.runs[x].status
  {
    var due := StaleAt(s.q.runs[id]) + staleSeconds + 1;
    now := if from >= due then from else due;
    step := RecoverStale(staleSeconds, batchSize, {});
    x := RecoveryMoves(s.q, staleSeconds, batchSize, now, id);
    RecoverNext(s, staleSeconds, batchSize, {}, now);
  }

  lemma ClaimMovesSome(q: Tables, w: WorkerId, id: RunId, maxQuarantined: int, now: int)
    returns (retired: seq<RunId>, picked: Option<RunId>, x: RunId)
    requires WellKeyed(q) && id in Claimable(q, now, {}) && maxQuarantined >= 1
    ensures ClaimCall(q, w, now, [], maxQuarantined, retired, picked)
    ensures var d := AfterClaim(q, w, now, retired, picked);
            d.runs.Keys == q.runs.Keys && x in q.runs && d.runs[x].status != q.runs[x].status
  {
    assert QuarantineAll(q, [], w, now) == q;
    retired, picked := ClaimCallFrom(q, w, now, [], maxQuarantined, []);
    x := ClaimMoves(q, w, now, [], maxQuarantined, retired, picked);
  }

  lemma ClaimSome(s: State, w: WorkerId, id: RunId, maxQuarantined: int, from: int)
    returns (step: Step, now: int, x: RunId)
    requires Ready(s, w) && id in s.q.runs && s.q.runs[id].status == Queued && maxQuarantined >= 1
    ensures now >= from && Enabled(s, step, now) && w in Next(s, step, now).workers
    ensures step.Claim? && step.worker == w && step.maxQuarantined == maxQuarantined && step.locks == []
    ensures Next(s, step, now).q.runs.Keys == s.q.runs.Keys && x in s.q.runs
    ensures Next(s, step, now).q.runs[x].status != s.q.runs[x].status
  {
    var due := s.q.runs[id].availableAt;
    now := if from >= due then from else due;
    QueuedIsClaimable(s.q, id, now);
    var retired, picked;
    retired, picked, x := ClaimMovesSome(s.q, w, id, maxQuarantined, now);
    ClaimNext(s, w, [], maxQuarantined, retired, picked, now);
    step := Claim(w, [], maxQuarantined, retired, picked, false);
  }

  // Whenever some run is unfinished, a claim or a recovery that uses up a transition is enabled at some
  // moment past any given one.
  lemma Progress(s: State, w: WorkerId, c: Settings, from: int)
    returns (step: Step, now: int)
    requires Ready(s, w) && !Drained(s) && c.Positive()
    ensures now >= from && Enabled(s, step, now)
    ensures Abandons(step, c) && !step.Drop? && (step.Claim? ==> step.worker == w)
    ensures Inv(Next(s, step, now)) && w in Next(s, step, now).workers
    ensures Shrinks(s.q, Next(s, step, now).q)
  {
    var id :| id in s.q.runs && !Ended(s.q.runs[id]);
    var x;
    if s.q.runs[id].status == Running {
      step, now, x := RecoverSome(s, id, c.staleSeconds, c.batchSize, from);
    } else {
      step, now, x := ClaimSome(s, w, id, c.maxQuarantined, from);
    }
    UsesBudget(s, step, now, Next(s, step, now).q, x);
  }

  lemma UsesBudget(s: State, step: Step, now: int, d: Tables, x: RunId)
    requires Inv(s) && Enabled(s, step, now) && d == Next(s, step, now).q
    requires d.runs.Keys == s.q.runs.Keys && x in s.q.runs && d.runs[x].status != s.q.runs[x].status
    ensures Inv(Next(s, step, now)) && Shrinks(s.q, d)
  {
    StepCosts(s, step, now, d, x);
    StepKeepsInv(s, step, now);
  }

  ghost predicate Shrinks(q: Tables, d: Tables) {
    d.runs.Keys == q.runs.Keys && TablesEvolve(q, d) && Total(d.runs, d.runs.Keys) < Total(q.runs, q.runs.Keys)
  }

  lemma DropHand(s: State, w: WorkerId, now: int) returns (tr: Trace, d: State)
    requires Inv(s) && w in s.workers
    ensures Steps(tr) && tr.steps == [Drop(w)] && tr.states == [s, d] && tr.nows == [now]
    ensures Ready(d, w) && d.q == s.q
  {
    d := Next(s, Drop(w), now);
    StepKeepsInv(s, Drop(w), now);
    tr := OneStep(s, Drop(w), now);
  }

  // A stretch of claims, dropped tokens and recoveries from s to d, from some moment on.
  ghost predicate Abandoned(tr: Trace, s: State, d: State, c: Settings, from: int) {
    && Steps(tr) && tr.states[0] == s && tr.states[|tr.states| - 1] == d
    && OnlyAbandons(tr.steps, c) && Forward(tr.nows, from)
  }

  lemma AbandonedJoin(a: Trace, b: Trace, s: State, mid: State, d: State, c: Settings, from: int, now: int)
    returns (tr: Trace)
    requires Abandoned(a, s, mid, c, from) && Abandoned(b, mid, d, c, now)
    requires now >= from && a.nows == [now, now]
    ensures Abandoned(tr, s, d, c, from) && |tr.steps| == |a.steps| + |b.steps|
  {
    tr := Join(a, b);
    OnlyAbandonsJoin(a.steps, b.steps, c);
    ForwardJoin(a.nows, b.nows, from, now);
  }

  // One step of progress, and whatever it left in the worker's hand is abandoned at once.
  lemma DrainRound(s: State, w: WorkerId, c: Settings, from: int) returns (tr: Trace, d: State, now: int)
    requires Ready(s, w) && !Drained(s) && c.Positive()
    ensures Abandoned(tr, s, d, c, from) && |tr.steps| == 2
    ensures now >= from && tr.nows == [now, now]
    ensures Ready(d, w) && Shrinks(s.q, d.q)
  {
    var step;
    step, now := Progress(s, w, c, from);
    tr, d := ThenDrop(s, step, now, w, c);
  }

  lemma ThenDrop(s: State, step: Step, now: int, w: WorkerId, c: Settings) returns (tr: Trace, d: State)
    requires Enabled(s, step, now) && Abandons(step, c) && Inv(Next(s, step, now)) && w in Next(s, step, now).workers
    ensures Abandoned(tr, s, d, c, now) && |tr.steps| == 2 && tr.nows == [now, now]
    ensures Ready(d, w) && d.q == Next(s, step, now).q
  {
    var first := OneStep(s, step, now);
    var second;
    second, d := DropHand(Next(s, step, now), w, now);
    tr := Join(first, second);
    assert tr.steps == [step, Drop(w)];
  }

  lemma OnlyAbandonsJoin(a: seq<Step>, b: seq<Step>, c: Settings)
    requires OnlyAbandons(a, c) && OnlyAbandons(b, c)
    ensures OnlyAbandons(a + b, c)
  {
  }

  // A schedule of claims, dropped tokens and recoveries that ends every run, although every claimed
  // attempt is abandoned. It starts at any given moment, its clock never runs backwards, and it takes at
  // most two steps for each transition the runs have left.
  lemma {:induction false} DrainSchedule(s: State, w: WorkerId, c: Settings, from: int) returns (tr: Trace, last: State)
    requires Ready(s, w) && c.Positive()
    ensures Abandoned(tr, s, last, c, from) && |tr.steps| <= 2 * Total(s.q.runs, s.q.runs.Keys)
    ensures Drained(last) && last.q.runs.Keys == s.q.runs.Keys && TablesEvolve(s.q, last.q)
    decreases Total(s.q.runs, s.q.runs.Keys)
  {
    TotalNonNegative(s.q, s.q.runs.Keys);
    if Drained(s) {
      TablesEvolveReflexive(s.q);
      tr, last := Trace([s], [], []), s;
    } else {
      var head, mid, now := DrainRound(s, w, c, from);
      var rest;
      rest, last := DrainSchedule(mid, w, c, now);
      tr := AbandonedJoin(head, rest, s, mid, last, c, from, now);
      TablesEvolveTransitive(s.q, mid.q, last.q);
    }
  }

  // Every reachable state can be drained by any one fresh worker, from any moment on and with any
  // positive settings.
  lemma Drains(s: State, w: WorkerId, space: Space, c: Settings, from: int) returns (tr: Trace, last: State)
    requires Reachable(s) && w !in s.workers && c.Positive()
    ensures Steps(tr) && tr.states[0] == s && tr.states[|tr.states| - 1] == last && Forward(tr.nows, from)
    ensures |tr.steps| >= 1 && tr.steps[0] == Spawn(w, space) && OnlyAbandons(tr.steps[1..], c)
    ensures |tr.steps| <= 1 + 2 * Total(s.q.runs, s.q.runs.Keys)
    ensures Drained(last) && last.q.runs.Keys == s.q.runs.Keys && TablesEvolve(s.q, last.q)
  {
    ReachableInv(s);
    StepKeepsInv(s, Spawn(w, space), from);
    var first := OneStep(s, Spawn(w, space), from);
    var rest;
    rest, last := DrainSchedule(Next(s, Spawn(w, space), from), w, c, from);
    ForwardJoin(first.nows, rest.nows, from, from);
    tr := Join(first, rest);
    assert tr.steps[1..] == rest.steps;
  }
}
