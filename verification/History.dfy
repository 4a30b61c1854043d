// What the invariant of one run says about its whole life: budget, spacing, shape of the log, and
// what can no longer change.
module History {
  import opened Prelude
  import opened Retry
  import opened Runs
  import opened Cells

  // Lifecycle transitions the run still has ahead of it, at most.
  function Measure(row: Row): int {
    2 * (row.spec.maxAttempts - row.attempts) + if row.status == Running then 1 else 0
  }

  function Lifecycle(log: seq<Event>): nat {
    if log == [] then 0
    else
      Lifecycle(log[..|log| - 1]) +
      match log[|log| - 1].kind
      case QueuedEvent(_) => 0
      case LeaseLostEvent(_, _) => 0
      case _ => 1
  }

  function Quarantines(log: seq<Event>): nat {
    if log == [] then 0
    else Quarantines(log[..|log| - 1]) + if log[|log| - 1].kind.QuarantinedEvent? then 1 else 0
  }

  lemma {:induction false} LifecycleCount(log: seq<Event>)
    requires Replay(log).At?
    ensures var p := Replay(log);
            Lifecycle(log) == 2 * p.attempts - (if p.status == Running then 1 else 0) - Quarantines(log)
    ensures Quarantines(log) <= 1 && (Quarantines(log) == 1 ==> Replay(log).status == Failed)
  {
    var front := log[..|log| - 1];
    if Replay(front).At? {
      LifecycleCount(front);
    } else {
      assert log[|log| - 1].kind == QueuedEvent(0);
      assert front == [];
    }
  }

  // Transitions made plus transitions left never change: however workers behave, a run makes at
  // most 2 * max_attempts of them.
  lemma LifecycleBudget(id: RunId, c: Cell)
    requires CellInv(id, c)
    ensures Lifecycle(c.log) + Measure(c.row) + Quarantines(c.log) == 2 * c.row.spec.maxAttempts
    ensures Lifecycle(c.log) <= 2 * c.row.spec.maxAttempts
    ensures Measure(c.row) >= 0
  {
    LifecycleCount(c.log);
  }

  // The attempt numbers of the "started" events, in order.
  function StartedAttempts(log: seq<Event>): seq<int> {
    if log == [] then []
    else
      var front := StartedAttempts(log[..|log| - 1]);
      if log[|log| - 1].kind.StartedEvent? then front + [log[|log| - 1].kind.attempt] else front
  }

  lemma {:induction false} StartedInOrder(log: seq<Event>)
    requires Replay(log).At?
    ensures |StartedAttempts(log)| == |StartTimes(log)| == Replay(log).attempts - Quarantines(log)
    ensures forall i :: 0 <= i < |StartedAttempts(log)| ==> StartedAttempts(log)[i] == i + 1
  {
    LifecycleCount(log);
    var front := log[..|log| - 1];
    if Replay(front).At? {
      StartedInOrder(front);
      LifecycleCount(front);
    } else {
      assert front == [];
    }
  }

  // A run is claimed at most max_attempts times, with attempt numbers 1, 2, 3, ...
  lemma ClaimedInOrder(id: RunId, c: Cell)
    requires CellInv(id, c)
    ensures |StartedAttempts(c.log)| <= c.row.spec.maxAttempts
    ensures forall i :: 0 <= i < |StartedAttempts(c.log)| ==> StartedAttempts(c.log)[i] == i + 1
  {
    StartedInOrder(c.log);
  }

  // Once a log has ended its run, only lease-loss notes can follow.
  lemma {:induction false} OnlyLeaseLossAfterEnd(log: seq<Event>, i: nat, j: nat)
    requires i <= j < |log| && Replay(log).At?
    requires Replay(log[..i]).At? && Replay(log[..i]).status in {Succeeded, Failed}
    ensures log[j].kind.LeaseLostEvent?
    decreases |log|
  {
    ReplayPrefix(log, i);
    var front := log[..|log| - 1];
    if i <= |front| {
      assert front[..i] == log[..i];
      EndStays(log, i);
      if j < |front| {
        ReplayPrefix(log, |front|);
        OnlyLeaseLossAfterEnd(front, i, j);
      } else {
        EndStays(front, i);
      }
    }
  }

  // A log that replays has replayable prefixes.
  lemma {:induction false} ReplayPrefix(log: seq<Event>, i: nat)
    requires i <= |log| && Replay(log) != Broken
    ensures Replay(log[..i]) != Broken
    ensures i > 0 ==> Replay(log[..i]).At?
    decreases |log|
  {
    if i == |log| {
      assert log[..i] == log;
      if i > 0 {
        ReplayPrefix(log[..i - 1], i - 1);
      }
    } else {
      assert log[..|log| - 1][..i] == log[..i];
      ReplayPrefix(log[..|log| - 1], i);
    }
  }

  lemma {:induction false} EndStays(log: seq<Event>, i: nat)
    requires i <= |log| && Replay(log) != Broken
    requires Replay(log[..i]).At? && Replay(log[..i]).status in {Succeeded, Failed}
    ensures Replay(log) == Replay(log[..i])
    decreases |log|
  {
    if i == |log| {
      assert log[..i] == log;
    } else {
      assert log[..|log| - 1][..i] == log[..i];
      EndStays(log[..|log| - 1], i);
    }
  }

  lemma {:induction false} SpacedSum(times: seq<int>, k: nat)
    requires Spaced(times) && k < |times|
    ensures times[k] - times[0] >= DelaySum(k)
  {
    if k > 0 {
      SpacedSum(times, k - 1);
    }
  }

  // The k-th retry of a run starts at least the sum of the first k delays after its first start,
  // whether the retries came from failures or from recoveries.
  lemma RetriesAreSpaced(id: RunId, c: Cell, k: nat)
    requires CellInv(id, c) && k < |StartTimes(c.log)|
    ensures StartTimes(c.log)[k] - StartTimes(c.log)[0] >= if k <= 9 then Pow2(k) - 1 else 511 + 300 * (k - 9)
  {
    SpacedSum(StartTimes(c.log), k);
    DelaySumClosedForm(k);
  }

  // ---- what a step leaves alone ----------------------------------------------------------------

  ghost predicate SameContent(a: Item, b: Item) {
    && (a.tenant, a.subject, a.namespace) == (b.tenant, b.subject, b.namespace)
    && (a.embeddingModel, a.embeddingDim) == (b.embeddingModel, b.embeddingDim)
    && (a.content, a.metadata, a.createdAt) == (b.content, b.metadata, b.createdAt)
  }

  ghost predicate Ended(row: Row) {
    row.status in {Succeeded, Failed}
  }

  ghost predicate Evolves(c: Cell, d: Cell) {
    && d.row.spec == c.row.spec && d.row.createdAt == c.row.createdAt
    && c.row.attempts <= d.row.attempts
    && (Ended(c.row) ==> d.row == c.row)
    && c.log <= d.log
    && Measure(d.row) <= Measure(c.row)
    && (d.row.status != c.row.status ==> Measure(d.row) < Measure(c.row))
    && (c.item.Some? ==>
          && d.item.Some? && SameContent(c.item.value, d.item.value)
          && c.item.value.attempts <= d.item.value.attempts
          && (c.item.value.completedAt.Some? ==> d.item == c.item))
  }

  lemma EvolvesTransitive(c: Cell, d: Cell, e: Cell)
    requires Evolves(c, d) && Evolves(d, e)
    ensures Evolves(c, e)
  {
    assert c.log <= e.log;
  }

  lemma ApplyEvolves(id: RunId, c: Cell, a: Action, now: int)
    requires CellInv(id, c) && Disciplined(id, c, a, now)
    ensures Evolves(c, Apply(c, a, now))
  {
    LifecycleBudget(id, c);
  }

  // Every action that changes the status of a run uses up at least one of its transitions.
  lemma StatusChangeCosts(id: RunId, c: Cell, a: Action, now: int)
    requires CellInv(id, c) && Disciplined(id, c, a, now)
    requires Guard(c, a, now)
    requires a.Start? || a.Quarantine? || a.Succeed? || a.Fail? || a.Recover?
    ensures Measure(Apply(c, a, now).row) < Measure(c.row)
    ensures Lifecycle(Apply(c, a, now).log) == Lifecycle(c.log) + 1
  {
    var event := EventOf(c.row, a);
    assert Append(c.log, event.value, now)[..|c.log|] == c.log;
  }
}
