// The worker's outer loop: failure counting, recovery throttling and idle waits.
module PollLoop {
  import opened Prelude

  datatype CycleEnd = Served(processed: nat) | Broke | StopRequested

  // One poll cycle: the monotonic clock at its start, and how it ended.
  datatype Cycle = Cycle(at: real, end: CycleEnd)

  datatype LoopEnd = OutOfCycles | Stopped | ThresholdExceeded

  function NextPollFailureCount(current: int, maxFailures: int): Result<int, Problem> {
    if current + 1 >= maxFailures then Err(FailureThreshold) else Ok(current + 1)
  }

  function RecoveryPeriod(staleSeconds: int): real {
    var half := staleSeconds as real / 2.0;
    if half > 10.0 then half else 10.0
  }

  // Enough has passed since the last recovery: ten seconds and half the stale threshold.
  predicate PeriodPassed(elapsed: real, staleSeconds: int) {
    elapsed >= 10.0 && elapsed >= staleSeconds as real / 2.0
  }

  lemma PeriodPassedIff(elapsed: real, staleSeconds: int)
    ensures elapsed >= RecoveryPeriod(staleSeconds) <==> elapsed >= 10.0 && elapsed >= staleSeconds as real / 2.0
  {
  }

  // Length of the failure streak that ends the first k cycles.
  function Streak(cycles: seq<Cycle>, k: nat): nat
    requires k <= |cycles|
  {
    if k == 0 || !cycles[k - 1].end.Broke? then 0 else Streak(cycles, k - 1) + 1
  }

  // The streak is at least n exactly when the last n cycles all broke.
  lemma {:induction false} StreakIff(cycles: seq<Cycle>, k: nat, n: nat)
    requires k <= |cycles|
    ensures Streak(cycles, k) >= n <==> n <= k && forall i :: k - n <= i < k ==> cycles[i].end.Broke?
  {
    if k > 0 && n > 0 {
      StreakIff(cycles, k - 1, n - 1);
    }
  }

  // A cycle is idle if it broke or processed nothing.
  lemma {:induction false} IdleCyclesAre(cycles: seq<Cycle>, k: nat)
    requires k <= |cycles|
    ensures IdleCycles(cycles, k)
            == |set i | 0 <= i < k && (!cycles[i].end.Served? || cycles[i].end.processed == 0)|
  {
    if k > 0 {
      IdleCyclesAre(cycles, k - 1);
      var all := set i | 0 <= i < k && (!cycles[i].end.Served? || cycles[i].end.processed == 0);
      var front := set i | 0 <= i < k - 1 && (!cycles[i].end.Served? || cycles[i].end.processed == 0);
      assert all == if k - 1 in all then front + {k - 1} else front;
    }
  }

  function IdleCycles(cycles: seq<Cycle>, k: nat): nat
    requires k <= |cycles|
  {
    if k == 0 then 0
    else IdleCycles(cycles, k - 1) + if cycles[k - 1].end.Served? && cycles[k - 1].end.processed > 0 then 0 else 1
  }

  ghost predicate BelowThreshold(cycles: seq<Cycle>, k: nat, maxFailures: int)
    requires k <= |cycles|
  {
    forall i :: 1 <= i <= k && cycles[i - 1].end.Broke? ==> Streak(cycles, i) < maxFailures
  }

  lemma BelowNext(cycles: seq<Cycle>, k: nat, maxFailures: int)
    requires k < |cycles| && BelowThreshold(cycles, k, maxFailures)
    ensures BelowThreshold(cycles, k + 1, maxFailures) <==> cycles[k].end.Broke? ==> Streak(cycles, k + 1) < maxFailures
  {
  }

  // The start of the last cycle before i that recovered and did not break; clock zero without one.
  function LastRecovery(cycles: seq<Cycle>, recoveries: set<nat>, i: nat): real
    requires i <= |cycles|
  {
    if i == 0 then 0.0
    else if i - 1 in recoveries && cycles[i - 1].end.Served? then cycles[i - 1].at
    else LastRecovery(cycles, recoveries, i - 1)
  }

  // Cycle i recovered exactly if it came a period after the last recovery.
  ghost predicate InTurn(cycles: seq<Cycle>, recoveries: set<nat>, i: nat, staleSeconds: int)
    requires i < |cycles|
  {
    i in recoveries <==> PeriodPassed(cycles[i].at - LastRecovery(cycles, recoveries, i), staleSeconds)
  }

  ghost predicate Throttled(cycles: seq<Cycle>, recoveries: set<nat>, n: nat, staleSeconds: int)
    requires n <= |cycles|
  {
    (forall i :: i in recoveries ==> i < n) && forall i :: 0 <= i < n ==> InTurn(cycles, recoveries, i, staleSeconds)
  }

  lemma {:induction false} LaterRecovery(cycles: seq<Cycle>, recoveries: set<nat>, n: nat, i: nat)
    requires i <= n && i <= |cycles|
    ensures LastRecovery(cycles, recoveries + {n}, i) == LastRecovery(cycles, recoveries, i)
  {
    if i > 0 {
      LaterRecovery(cycles, recoveries, n, i - 1);
    }
  }

  lemma ThrottledNext(cycles: seq<Cycle>, recoveries: set<nat>, n: nat, staleSeconds: int)
    requires n < |cycles| && Throttled(cycles, recoveries, n, staleSeconds)
    ensures var recover := PeriodPassed(cycles[n].at - LastRecovery(cycles, recoveries, n), staleSeconds);
            var after := if recover then recoveries + {n} else recoveries;
            && Throttled(cycles, after, n + 1, staleSeconds)
            && LastRecovery(cycles, after, n + 1)
               == if recover && cycles[n].end.Served? then cycles[n].at else LastRecovery(cycles, recoveries, n)
  {
    LaterRecovery(cycles, recoveries, n, n);
    forall i | 0 <= i < n
      ensures InTurn(cycles, recoveries + {n}, i, staleSeconds)
    {
      assert InTurn(cycles, recoveries, i, staleSeconds);
      LaterRecovery(cycles, recoveries, n, i);
    }
  }

  // The clock of the loop never runs backwards.
  ghost predicate Monotonic(cycles: seq<Cycle>) {
    forall i, j :: 0 <= i <= j < |cycles| ==> cycles[i].at <= cycles[j].at
  }

  lemma {:induction false} LastIsLater(cycles: seq<Cycle>, recoveries: set<nat>, j: nat, i: nat)
    requires Monotonic(cycles) && j < i <= |cycles| && j in recoveries && cycles[j].end.Served?
    ensures LastRecovery(cycles, recoveries, i) >= cycles[j].at
  {
    if j < i - 1 {
      LastIsLater(cycles, recoveries, j, i - 1);
    }
  }

  // Recoveries come a period apart, except after one whose cycle broke.
  lemma RecoveriesAreSpaced(cycles: seq<Cycle>, recoveries: set<nat>, n: nat, staleSeconds: int, j: nat, i: nat)
    requires Monotonic(cycles) && n <= |cycles| && Throttled(cycles, recoveries, n, staleSeconds)
    requires j < i && j in recoveries && i in recoveries && cycles[j].end.Served?
    ensures cycles[i].at - cycles[j].at >= 10.0 && cycles[i].at - cycles[j].at >= staleSeconds as real / 2.0
  {
    LastIsLater(cycles, recoveries, j, i);
    assert InTurn(cycles, recoveries, i, staleSeconds);
  }

  // The first recovery waits for a period after clock zero, and so does every one up to the first whose
  // cycle does not break.
  lemma FirstRecoveryWaits(cycles: seq<Cycle>, recoveries: set<nat>, n: nat, staleSeconds: int, i: nat)
    requires n <= |cycles| && Throttled(cycles, recoveries, n, staleSeconds) && i < n
    requires forall j :: j in recoveries && j < i ==> cycles[j].end.Broke?
    ensures i in recoveries <==> cycles[i].at >= 10.0 && cycles[i].at >= staleSeconds as real / 2.0
  {
    NoneYet(cycles, recoveries, i);
    assert InTurn(cycles, recoveries, i, staleSeconds);
  }

  lemma {:induction false} NoneYet(cycles: seq<Cycle>, recoveries: set<nat>, i: nat)
    requires i <= |cycles| && forall j :: j in recoveries && j < i ==> cycles[j].end.Broke?
    ensures LastRecovery(cycles, recoveries, i) == 0.0
  {
    if i > 0 {
      NoneYet(cycles, recoveries, i - 1);
    }
  }

  lemma {:induction false} LastServed(cycles: seq<Cycle>, recoveries: set<nat>, j: nat, i: nat)
    requires j < i <= |cycles| && j in recoveries && cycles[j].end.Served?
    requires forall k :: k in recoveries && j < k < i ==> cycles[k].end.Broke?
    ensures LastRecovery(cycles, recoveries, i) == cycles[j].at
  {
    if j < i - 1 {
      LastServed(cycles, recoveries, j, i - 1);
    }
  }

  // After a recovery that did not break, the first cycle that starts so much later recovers.
  lemma RecoversWhenDue(cycles: seq<Cycle>, recoveries: set<nat>, n: nat, staleSeconds: int, j: nat, i: nat)
    requires n <= |cycles| && Throttled(cycles, recoveries, n, staleSeconds)
    requires j < i < n && j in recoveries && cycles[j].end.Served?
    requires forall k :: k in recoveries && j < k < i ==> cycles[k].end.Broke?
    ensures i in recoveries <==>
            cycles[i].at - cycles[j].at >= 10.0 && cycles[i].at - cycles[j].at >= staleSeconds as real / 2.0
  {
    LastServed(cycles, recoveries, j, i);
    assert InTurn(cycles, recoveries, i, staleSeconds);
  }

  // A cycle that recovered and then broke is forgotten: the next one recovers again at once.
  lemma BrokenRecoversAgain(cycles: seq<Cycle>, recoveries: set<nat>, n: nat, staleSeconds: int, i: nat)
    requires Monotonic(cycles) && n <= |cycles| && Throttled(cycles, recoveries, n, staleSeconds)
    requires i in recoveries && cycles[i].end.Broke? && i + 1 < n
    ensures i + 1 in recoveries
  {
    assert InTurn(cycles, recoveries, i, staleSeconds) && InTurn(cycles, recoveries, i + 1, staleSeconds);
  }

  // The loop over the cycles it will see. It raises exactly when a cycle breaks that makes the streak
  // reach the threshold for the first time; it recovers in exactly the cycles that come a period after
  // the last recovery whose cycle did not break.
  method RunWorkerLoop(cycles: seq<Cycle>, maxFailures: int, staleSeconds: int)
    returns (end: LoopEnd, seen: nat, failures: int, waits: nat, recoveries: set<nat>)
    ensures seen <= |cycles|
    ensures forall i :: 0 <= i < seen ==> !cycles[i].end.StopRequested?
    ensures end == Stopped ==> seen < |cycles| && cycles[seen].end.StopRequested?
    ensures end == OutOfCycles ==> seen == |cycles|
    ensures end == ThresholdExceeded <==> !BelowThreshold(cycles, seen, maxFailures)
    ensures end == ThresholdExceeded ==>
              && seen >= 1 && cycles[seen - 1].end.Broke? && Streak(cycles, seen) >= maxFailures
              && BelowThreshold(cycles, seen - 1, maxFailures) && waits == IdleCycles(cycles, seen - 1)
    ensures end != ThresholdExceeded ==> failures == Streak(cycles, seen) && waits == IdleCycles(cycles, seen)
    ensures Throttled(cycles, recoveries, seen, staleSeconds)
  {
    var lastRecovery, period := 0.0, RecoveryPeriod(staleSeconds);
    failures, seen, waits, recoveries := 0, 0, 0, {};
    while seen < |cycles|
      invariant seen <= |cycles| && failures == Streak(cycles, seen) && waits == IdleCycles(cycles, seen)
      invariant forall i :: 0 <= i < seen ==> !cycles[i].end.StopRequested?
      invariant BelowThreshold(cycles, seen, maxFailures)
      invariant Throttled(cycles, recoveries, seen, staleSeconds)
      invariant lastRecovery == LastRecovery(cycles, recoveries, seen)
    {
      var cycle := cycles[seen];
      if cycle.end.StopRequested? {
        return Stopped, seen, failures, waits, recoveries;
      }
      var recover := cycle.at - lastRecovery >= period;
      PeriodPassedIff(cycle.at - lastRecovery, staleSeconds);
      ThrottledNext(cycles, recoveries, seen, staleSeconds);
      if recover {
        recoveries := recoveries + {seen};
      }
      BelowNext(cycles, seen, maxFailures);
      seen := seen + 1;
      var processed := 0;
      if cycle.end.Served? {
        if recover {
          lastRecovery := cycle.at;
        }
        failures := 0;
        processed := cycle.end.processed;
      } else {
        var next := NextPollFailureCount(failures, maxFailures);
        if next.Err? {
          return ThresholdExceeded, seen, failures + 1, waits, recoveries;
        }
        failures := next.value;
      }
      if processed == 0 {
        waits := waits + 1;
      }
    }
    return OutOfCycles, seen, failures, waits, recoveries;
  }
}
