// The store itself: the three tables as fields that each transaction updates in place, every method
// proved against the transitions of Cells and Queue. `now` is the transaction's clock reading and
// `locked` the rows that other transactions hold.
module RunStores {
  import opened Prelude
  import opened Retry
  import opened Runs
  import opened Cells
  import opened Queue

  class RunStore {
    var runs: map<RunId, Row>
    var events: map<RunId, seq<Event>>
    var outbox: map<RunId, Item>

    ghost function Db(): Tables
      reads this
    {
      Tables(runs, events, outbox)
    }

    ghost predicate Valid()
      reads this
    {
      WellKeyed(Db())
    }

    // The run is running under the token's worker.
    ghost predicate Leased(run: ClaimedRun)
      reads this
    {
      run.id in runs && runs[run.id].status == Running && runs[run.id].workerId == Some(run.workerId)
    }

    // The summary is open and claimed by the token's worker.
    ghost predicate InHand(summary: SummaryItem)
      reads this
    {
      summary.runId in outbox && outbox[summary.runId].completedAt == None
      && outbox[summary.runId].claimedBy == Some(summary.workerId)
    }

    constructor ()
      ensures Db() == Tables(map[], map[], map[])
    {
      runs, events, outbox := map[], map[], map[];
    }

    method AppendEvent(id: RunId, kind: EventKind, now: int)
      requires id in events
      modifies this`events
      ensures events == old(events)[id := Append(old(events)[id], kind, now)]
    {
      var log := events[id];
      events := events[id := log + [Event(MaxSequence(log) + 1, kind, now)]];
    }

    // The id is a fresh UUID; the CHECK on max_attempts refuses a non-positive budget.
    method Enqueue(id: RunId, spec: RunSpec, now: int) returns (r: Result<RunId, Problem>)
      requires Valid()
      modifies this
      ensures Valid()
      ensures r.Ok? <==> id !in old(runs) && spec.maxAttempts > 0
      ensures r.Ok? ==> r.value == id && Db() == Put(old(Db()), id, Enqueued(spec, now))
      ensures r.Ok? ==>
                && id in runs && runs[id].spec == spec && runs[id].status == Queued && runs[id].attempts == 0
                && runs[id].createdAt == runs[id].availableAt == now && runs[id].workerId == None
                && id in events && events[id] == [Event(1, QueuedEvent(0), now)]
      ensures r.Err? ==> Db() == old(Db())
    {
      if id in runs || spec.maxAttempts <= 0 {
        return Err(ConstraintViolation);
      }
      runs := runs[id := NewRow(spec, now)];
      events := events[id := []];
      AppendEvent(id, QueuedEvent(0), now);
      return Ok(id);
    }

    // SELECT ... ORDER BY available_at, created_at FOR UPDATE SKIP LOCKED LIMIT 1.
    method NextCandidate(now: int, locked: set<RunId>) returns (id: Option<RunId>)
      ensures id.None? <==> Claimable(Db(), now, locked) == {}
      ensures id.Some? ==> IsCandidate(Db(), now, locked, id.value)
      ensures forall x :: x in runs && x !in locked && runs[x].status == Queued && runs[x].availableAt <= now
                          && runs[x].attempts < runs[x].spec.maxAttempts ==>
                            && id.Some?
                            && (runs[id.value].availableAt < runs[x].availableAt
                                || (runs[id.value].availableAt == runs[x].availableAt
                                    && runs[id.value].createdAt <= runs[x].createdAt))
    {
      var among := set x | x in runs && x !in locked && Eligible(runs[x], now);
      assert among == Claimable(Db(), now, locked);
      assert forall x :: x in runs && x !in locked && Eligible(runs[x], now) ==> x in among;
      if among == {} {
        return None;
      }
      ghost var witness' := CandidateExists(Db(), now, locked, among);
      var best :| best in among && forall x :: x in among ==> !Before(runs[x], runs[best]);
      return Some(best);
    }

    method QuarantineClaim(id: RunId, worker: WorkerId, now: int)
      requires id in runs && id in events && Holds(runs[id], worker)
      modifies this`runs, this`events
      ensures runs == old(runs)[id := Released(old(runs)[id], Failed, 0, InvalidPersistedConfiguration, now)]
      ensures runs[id].status == Failed && runs[id].error == Some(InvalidPersistedConfiguration)
              && runs[id].completedAt == Some(now) && runs[id].workerId == None && runs[id].heartbeatAt == None
      ensures events == old(events)[id := Append(old(events)[id], QuarantinedEvent, now)]
    {
      var row := runs[id];
      if row.status == Running && row.workerId == Some(worker) {
        runs := runs[id := row.(status := Failed, error := Some(InvalidPersistedConfiguration),
                                completedAt := Some(now), updatedAt := now, workerId := None, heartbeatAt := None)];
      }
      AppendEvent(id, QuarantinedEvent, now);
    }

    // The whole loop is one transaction.
    method Claim(worker: WorkerId, now: int, locks: seq<set<RunId>>, maxQuarantined: int)
      returns (r: Result<Option<ClaimedRun>, Problem>, ghost retired: seq<RunId>, ghost picked: Option<RunId>)
      requires Valid()
      modifies this
      ensures Valid()
      ensures r.Err? <==> maxQuarantined < 1
      ensures r.Err? ==> Db() == old(Db())
      ensures r.Ok? ==> ClaimCall(old(Db()), worker, now, locks, maxQuarantined, retired, picked)
                        && Db() == AfterClaim(old(Db()), worker, now, retired, picked)
      ensures r.Ok? ==> r.value == if picked.Some? then
                          Some(TokenFor(picked.value, QuarantineAll(old(Db()), retired, worker, now).runs[picked.value],
                              worker, now))
                        else None
      ensures r.Ok? && r.value.Some? ==>
                && picked == Some(r.value.value.id)
                && var id := r.value.value.id;
                && id in old(runs) && id in runs && id !in LocksAt(locks, |retired|)
                && old(runs)[id].status == Queued && old(runs)[id].availableAt <= now && runs[id].status == Running
                && runs[id].workerId == Some(worker) && runs[id].attempts == old(runs)[id].attempts + 1
                && r.value.value.attempts == runs[id].attempts && r.value.value.workerId == worker
                && forall x :: x in old(runs) && x !in LocksAt(locks, |retired|) && x !in retired
                               && old(runs)[x].status == Queued && old(runs)[x].availableAt <= now
                               && old(runs)[x].attempts < old(runs)[x].spec.maxAttempts ==>
                                 || old(runs)[id].availableAt < old(runs)[x].availableAt
                                 || (old(runs)[id].availableAt == old(runs)[x].availableAt
                                     && old(runs)[id].createdAt <= old(runs)[x].createdAt)
    {
      retired, picked := [], None;
      if maxQuarantined < 1 {
        return Err(NotPositive), retired, picked;
      }
      ghost var before := Db();
      for tries := 0 to maxQuarantined
        invariant Valid() && |retired| == tries
        invariant Db() == QuarantineAll(before, retired, worker, now)
        invariant Poisoned(before, worker, now, locks, retired)
      {
        var candidate := NextCandidate(now, LocksAt(locks, tries));
        if candidate.None? {
          return Ok(None), retired, None;
        }
        var id := candidate.value;
        ghost var rest := Db();
        var decoded := ClaimRow(id, worker, now);
        if decoded.Ok? {
          assert decoded.value.id == id;
          StartedFirst(before, worker, now, locks, maxQuarantined, retired, id);
          assert before.runs[id] == rest.runs[id];
          return Ok(Some(decoded.value)), retired, Some(id);
        }
        assert (retired + [id])[..|retired|] == retired;
        retired := retired + [id];
      }
      return Ok(None), retired, None;
    }

    // One iteration of claim: take the row, then start it or, if it does not decode, retire it.
    method ClaimRow(id: RunId, worker: WorkerId, now: int) returns (decoded: Result<ClaimedRun, Problem>)
      requires Valid() && id in runs && Eligible(runs[id], now)
      modifies this
      ensures Valid()
      ensures decoded == DecodeClaimedRun(id, Claimed(old(runs)[id], worker, now), worker)
      ensures Db() == On(old(Db()), id, if decoded.Ok? then Start(worker) else Quarantine(worker), now)
      ensures id in runs && id in events && runs[id].spec == old(runs)[id].spec
      ensures runs[id].attempts == old(runs)[id].attempts + 1
      ensures decoded.Ok? ==>
                && decoded.value.id == id && decoded.value.workerId == worker
                && decoded.value.attempts == runs[id].attempts
                && runs[id].status == Running && runs[id].workerId == Some(worker) && runs[id].heartbeatAt == Some(now)
                && runs[id].startedAt == (if old(runs)[id].startedAt.Some? then old(runs)[id].startedAt else Some(now))
                && events[id] == Append(old(events)[id], StartedEvent(runs[id].attempts, worker), now)
      ensures decoded.Err? ==>
                && runs[id].status == Failed && runs[id].error == Some(InvalidPersistedConfiguration)
                && runs[id].workerId == None && events[id] == Append(old(events)[id], QuarantinedEvent, now)
    {
      ghost var rest := Db();
      var row := runs[id];
      StartRow(id, worker, now);
      decoded := DecodeClaimedRun(id, runs[id], worker);
      if decoded.Ok? {
        AppendEvent(id, StartedEvent(row.attempts + 1, worker), now);
        OnRunOnly(rest, id, Start(worker), now);
      } else {
        QuarantineClaim(id, worker, now);
        assert runs == rest.runs[id := Released(Claimed(row, worker, now), Failed, 0, InvalidPersistedConfiguration,
            now)];
        OnRunOnly(rest, id, Quarantine(worker), now);
      }
    }

    // The UPDATE of the claim statement.
    method StartRow(id: RunId, worker: WorkerId, now: int)
      requires id in runs
      modifies this`runs
      ensures runs == old(runs)[id := Claimed(old(runs)[id], worker, now)]
    {
      var row := runs[id];
      runs := runs[id := row.(status := Running, attempts := row.attempts + 1, workerId := Some(worker),
                              heartbeatAt := Some(now), updatedAt := now,
                              startedAt := if row.startedAt.Some? then row.startedAt else Some(now))];
    }

    method Heartbeat(run: ClaimedRun, now: int) returns (owned: bool)
      requires Valid()
      modifies this`runs
      ensures Valid() && Db() == On(old(Db()), run.id, Action.Heartbeat(run), now)
      ensures owned == Allowed(old(Db()), run.id, Action.Heartbeat(run), now)
      ensures owned <==> old(Leased(run))
      ensures runs == if owned then old(runs)[run.id := old(runs)[run.id].(heartbeatAt := Some(now), updatedAt := now)]
                      else old(runs)
    {
      owned := run.id in runs && Holds(runs[run.id], run.workerId);
      OnRefused(Db(), run.id, Action.Heartbeat(run), now);
      if owned {
        OnRunOnly(Db(), run.id, Action.Heartbeat(run), now);
        var row := runs[run.id];
        runs := runs[run.id := row.(heartbeatAt := Some(now), updatedAt := now)];
      }
    }

    // Status, result, outbox item and event in one transaction, or none of them. The outbox refuses a
    // token without a vector space, which rolls the transaction back.
    method Succeed(run: ClaimedRun, outcome: Outcome, content: string, metadata: Json, now: int)
      returns (r: Result<bool, Problem>)
      requires Valid()
      modifies this
      ensures Valid() && Db() == On(old(Db()), run.id, Action.Succeed(run, outcome, content, metadata), now)
      ensures r.Err? <==> run.id in old(runs) && Holds(old(runs)[run.id], run.workerId) && !SpaceOk(run.modelConfig)
      ensures r.Ok? ==> r.value == Allowed(old(Db()), run.id, Action.Succeed(run, outcome, content, metadata), now)
      ensures r != Ok(true) ==> Db() == old(Db())
      ensures r == Ok(true) <==> old(Leased(run)) && SpaceOk(run.modelConfig)
      ensures r == Ok(true) ==>
                && run.id in runs && runs[run.id].spec == old(runs)[run.id].spec && runs[run.id].status == Succeeded
                && runs[run.id].completedAt == Some(now) && runs[run.id].error == None
                && runs[run.id].workerId == None && runs[run.id].heartbeatAt == None && runs[run.id].outcome.Some?
                && var stored := runs[run.id].outcome.value;
                && stored.answer == outcome.answer && stored.evidence == outcome.evidence
                && stored.usage == outcome.usage && stored.recalled == outcome.recalled
                && (runs[run.id].spec.includeTrajectory ==> stored.trajectory == outcome.trajectory)
                && (!runs[run.id].spec.includeTrajectory ==> stored.trajectory == None)
      ensures r == Ok(true) ==>
                && events[run.id] == Append(old(events)[run.id], SucceededEvent(run.attempts), now)
                && run.id in outbox
                && (run.id !in old(outbox) || old(outbox)[run.id].completedAt == None ==>
                      && outbox[run.id].content == content && outbox[run.id].metadata == metadata
                      && outbox[run.id].completedAt == None
                      && JStr(outbox[run.id].embeddingModel) == run.modelConfig[EmbeddingModel]
                      && JInt(outbox[run.id].embeddingDim) == run.modelConfig[EmbeddingDim])
                && (run.id !in old(outbox) ==>
                      && (outbox[run.id].tenant, outbox[run.id].subject, outbox[run.id].namespace)
                         == (run.tenant, run.subject, run.namespace)
                      && outbox[run.id].availableAt == outbox[run.id].createdAt == now
                      && outbox[run.id].claimedBy == None && outbox[run.id].claimedAt == None
                      && outbox[run.id].attempts == 0)
    {
      ghost var a := Action.Succeed(run, outcome, content, metadata);
      OnRefused(Db(), run.id, a, now);
      if run.id !in runs || !Holds(runs[run.id], run.workerId) {
        return Ok(false);
      }
      var before := runs;
      var row := runs[run.id];
      var stored := outcome.(trajectory := if row.spec.includeTrajectory then outcome.trajectory else None);
      runs := runs[run.id := row.(status := Succeeded, outcome := Some(stored), error := None, completedAt := Some(now),
                                  updatedAt := now, workerId := None, heartbeatAt := None)];
      if !SpaceOk(run.modelConfig) {
        runs := before;
        return Err(ConstraintViolation);
      }
      var item := FreshItem(run, content, metadata, now);
      UpsertOutbox(run.id, item);
      AppendEvent(run.id, SucceededEvent(run.attempts), now);
      return Ok(true);
    }

    // INSERT ... ON CONFLICT (run_id) DO UPDATE ... WHERE completed_at IS NULL.
    method UpsertOutbox(id: RunId, item: Item)
      modifies this`outbox
      ensures outbox == old(outbox)[id := UpsertItem(if id in old(outbox) then Some(old(outbox)[id]) else None, item)]
      ensures id !in old(outbox) ==> outbox == old(outbox)[id := item]
      ensures id in old(outbox) && old(outbox)[id].completedAt.Some? ==> outbox == old(outbox)
      ensures id in old(outbox) && old(outbox)[id].completedAt.None? ==>
                outbox == old(outbox)[id := item.(tenant := old(outbox)[id].tenant, subject := old(outbox)[id].subject,
                                                  namespace := old(outbox)[id].namespace,
                                                  attempts := old(outbox)[id].attempts,
                                                  createdAt := old(outbox)[id].createdAt,
                                                  availableAt := old(outbox)[id].availableAt,
                                                  claimedBy := old(outbox)[id].claimedBy,
                                                  claimedAt := old(outbox)[id].claimedAt, completedAt := None,
                                                  lastError := old(outbox)[id].lastError)]
    {
      if id !in outbox {
        outbox := outbox[id := item];
      } else if outbox[id].completedAt.None? {
        outbox := outbox[id := outbox[id].(content := item.content, metadata := item.metadata,
                                           embeddingModel := item.embeddingModel, embeddingDim := item.embeddingDim,
                                           updatedAt := item.updatedAt)];
      } else {
        assert outbox == outbox[id := outbox[id]];
      }
    }

    method Fail(run: ClaimedRun, error: ErrorCode, retryable: bool, now: int)
      returns (r: Result<Option<RunStatus>, Problem>)
      requires Valid()
      modifies this
      ensures Valid() && Db() == On(old(Db()), run.id, Action.Fail(run, error, retryable), now)
      ensures r.Ok? <==> 1 <= run.attempts <= run.maxAttempts
      ensures r.Ok? ==> r.value == if Allowed(old(Db()), run.id, Action.Fail(run, error, retryable), now)
                                   then Some(runs[run.id].status) else None
      ensures r.Ok? && r.value.Some? ==>
                && r.value.value in {Queued, Failed}
                && (r.value.value == Failed <==> !retryable || run.attempts == run.maxAttempts)
                && (r.value.value == Queued ==>
                      && runs[run.id].availableAt == now + IdealDelay(run.attempts, 300)
                      && events[run.id]
                         == Append(old(events)[run.id], RetryEvent(run.attempts, IdealDelay(run.attempts, 300)), now))
                && (r.value.value == Failed ==>
                      && runs[run.id].completedAt == Some(now)
                      && events[run.id] == Append(old(events)[run.id], FailedEvent(run.attempts), now))
                && runs[run.id].error == Some(error)
                && runs[run.id].workerId == None && runs[run.id].heartbeatAt == None
                && runs[run.id].attempts == old(runs)[run.id].attempts
      ensures r.Err? || r.value.None? ==> Db() == old(Db())
      ensures r.Ok? ==> (r.value.Some? <==> old(Leased(run)))
    {
      ghost var a := Action.Fail(run, error, retryable);
      OnRefused(Db(), run.id, a, now);
      var next := FailureStatus(run.attempts, run.maxAttempts, retryable);
      if next.Err? {
        return Err(next.error);
      }
      if run.id !in runs || !Holds(runs[run.id], run.workerId) {
        return Ok(None);
      }
      DelaysInUseAreIdeal(run.attempts);
      FailRow(run, next.value, error, retryable, now);
      return Ok(Some(next.value));
    }

    method FailRow(run: ClaimedRun, next: RunStatus, error: ErrorCode, ghost retryable: bool, now: int)
      requires Valid() && run.id in runs && Holds(runs[run.id], run.workerId)
      requires FailureStatus(run.attempts, run.maxAttempts, retryable) == Ok(next)
      modifies this
      ensures Valid() && Db() == On(old(Db()), run.id, Action.Fail(run, error, retryable), now)
      ensures run.id in runs && runs[run.id].status == next
      ensures next == Queued ==> runs[run.id].availableAt == now + Delay(run.attempts)
      ensures next == Failed ==> runs[run.id].completedAt == Some(now)
      ensures runs[run.id].error == Some(error) && runs[run.id].workerId == None && runs[run.id].heartbeatAt == None
      ensures runs[run.id].attempts == old(runs)[run.id].attempts && run.id in old(events)
      ensures events == old(events)[run.id := Append(old(events)[run.id],
                if next == Queued then RetryEvent(run.attempts, Delay(run.attempts)) else FailedEvent(run.attempts),
                now)]
    {
      OnRunOnly(Db(), run.id, Action.Fail(run, error, retryable), now);
      var delay := RetryDelay(run.attempts, RUN_CAP).value;
      var row := runs[run.id];
      runs := runs[run.id := row.(status := next, error := Some(error),
                                  availableAt := if next == Queued then now + delay else row.availableAt,
                                  completedAt := if next == Failed then Some(now) else None,
                                  updatedAt := now, workerId := None, heartbeatAt := None)];
      AppendEvent(run.id, if next == Queued then RetryEvent(run.attempts, delay) else FailedEvent(run.attempts), now);
    }

    // No lease check; the foreign key refuses an unknown run. The worker only adds notes of lost leases.
    method AddEvent(id: RunId, kind: EventKind, now: int) returns (r: Result<(), Problem>)
      requires Valid()
      modifies this`events
      ensures Valid()
      ensures r.Err? <==> id !in old(runs)
      ensures events == if r.Ok? then old(events)[id := Append(old(events)[id], kind, now)] else old(events)
      ensures forall t: ClaimedRun :: t.id == id && kind == LeaseLostEvent(t.attempts, t.workerId) ==>
                                        Db() == On(old(Db()), id, LoseLease(t), now)
    {
      if id !in events {
        return Err(ConstraintViolation);
      }
      NoteIsAction(Db(), id, kind, now);
      AppendEvent(id, kind, now);
      return Ok(());
    }

    // Selected rows are updated by id alone; a row with impossible counters raises and rolls back.
    method RecoverStale(staleSeconds: int, batchSize: int, now: int, locked: set<RunId>)
      returns (r: Result<(int, int), Problem>)
      requires Valid()
      modifies this
      ensures Valid()
      ensures r.Ok? <==> staleSeconds >= 1 && batchSize >= 1
                         && AfterRecovery(old(Db()), staleSeconds, batchSize, now, locked).Ok?
      ensures r.Err? ==> Db() == old(Db())
      ensures r.Ok? ==> AfterRecovery(old(Db()), staleSeconds, batchSize, now, locked) == Ok(Db())
      ensures r.Ok? ==> var ids := StaleBatch(old(Db()), staleSeconds, batchSize, now, locked);
                        r.value == (Retried(old(Db()), ids), |ids| - Retried(old(Db()), ids))
    {
      if staleSeconds < 1 || batchSize < 1 {
        return Err(NotPositive);
      }
      var rows := StaleBatch(Tables(runs, events, outbox), staleSeconds, batchSize, now, locked);
      r := RecoverRows(rows, staleSeconds, batchSize, now, locked);
    }

    // The loop over the selected rows; a raise rolls the transaction back.
    method RecoverRows(rows: seq<RunId>, staleSeconds: int, ghost batchSize: nat, now: int, ghost locked: set<RunId>)
      returns (r: Result<(int, int), Problem>)
      requires Valid() && rows == StaleBatch(Db(), staleSeconds, batchSize, now, locked)
      modifies this
      ensures Valid()
      ensures r.Ok? <==> forall id :: id in rows ==> CountersOk(old(Db()), id)
      ensures Db() == if r.Ok? then OnAll(old(Db()), rows, Recover(staleSeconds), now) else old(Db())
      ensures r.Ok? ==> r.value == (Retried(old(Db()), rows), |rows| - Retried(old(Db()), rows))
    {
      var q := Tables(runs, events, outbox);
      var retried, failed := 0, 0;
      for i := 0 to |rows|
        invariant Valid() && Db() == OnAll(q, rows[..i], Recover(staleSeconds), now)
        invariant CountersOkUpTo(q, rows, i)
        invariant retried == Retried(q, rows[..i]) && retried + failed == i
      {
        var id := rows[i];
        SelectedRowIsIntact(q, staleSeconds, batchSize, now, locked, i);
        var next := FailureStatus(q.runs[id].attempts, q.runs[id].spec.maxAttempts, true);
        if next.Err? {
          assert id in rows;
          runs, events, outbox := q.runs, q.events, q.outbox;
          return Err(next.error);
        }
        RecoverOne(id, next.value, q.runs[id], staleSeconds, now);
        if next.value == Queued {
          retried := retried + 1;
        } else {
          failed := failed + 1;
        }
      }
      CountersOkUpToIff(q, rows, |rows|);
      assert rows[..|rows|] == rows;
      return Ok((retried, failed));
    }

    method RecoverOne(id: RunId, next: RunStatus, seen: Row, ghost staleSeconds: int, now: int)
      requires Valid() && id in runs && seen == runs[id] && Stale(seen, now, staleSeconds)
      requires FailureStatus(seen.attempts, seen.spec.maxAttempts, true) == Ok(next)
      modifies this
      ensures Valid() && Db() == On(old(Db()), id, Recover(staleSeconds), now)
    {
      OnRunOnly(Db(), id, Recover(staleSeconds), now);
      var delay := RetryDelay(seen.attempts, RUN_CAP).value;
      var row := runs[id];
      runs := runs[id := row.(status := next, error := Some(WorkerHeartbeatExpired),
                              availableAt := if next == Queued then now + delay else row.availableAt,
                              completedAt := if next == Failed then Some(now) else None,
                              workerId := None, heartbeatAt := None, updatedAt := now)];
      AppendEvent(id, if next == Queued then StaleEvent(seen.attempts) else FailedEvent(seen.attempts), now);
    }

    // ---- outbox --------------------------------------------------------------------------------

    method NextItem(now: int, staleSeconds: int, locked: set<RunId>) returns (id: Option<RunId>)
      ensures id.None? <==> ClaimableItems(Db(), now, staleSeconds, locked) == {}
      ensures id.Some? ==> IsItemCandidate(Db(), now, staleSeconds, locked, id.value)
      ensures forall x :: x in outbox && x !in locked && outbox[x].completedAt == None && outbox[x].availableAt <= now
                          && (outbox[x].claimedAt.Some? ==> outbox[x].claimedAt.value < now - staleSeconds) ==>
                            && id.Some?
                            && (outbox[id.value].availableAt < outbox[x].availableAt
                                || (outbox[id.value].availableAt == outbox[x].availableAt
                                    && outbox[id.value].createdAt <= outbox[x].createdAt))
    {
      var among := set x | x in outbox && x !in locked && ItemEligible(outbox[x], now, staleSeconds);
      assert among == ClaimableItems(Db(), now, staleSeconds, locked);
      assert forall x :: x in outbox && x !in locked && ItemEligible(outbox[x], now, staleSeconds) ==> x in among;
      if among == {} {
        return None;
      }
      ghost var witness' := ItemCandidateExists(Db(), among);
      var best :| best in among && forall x :: x in among ==> !ItemBefore(outbox[x], outbox[best]);
      return Some(best);
    }

    // Every iteration commits on its own; here they follow one another without interference.
    method ClaimSummary(worker: WorkerId, staleSeconds: int, now: int, locked: set<RunId>, maxQuarantined: int)
      returns (r: Result<Option<SummaryItem>, Problem>, ghost rejected: seq<RunId>)
      requires Valid()
      modifies this`outbox
      ensures Valid()
      ensures r.Err? <==> maxQuarantined < 1
      ensures RejectsPoison(old(Db()), worker, staleSeconds, now, locked, rejected)
      ensures var rest := RejectAll(old(Db()), rejected, worker, staleSeconds, now);
              if r.Ok? && r.value.Some? then
                var id := r.value.value.runId;
                && |rejected| < maxQuarantined && IsItemCandidate(rest, now, staleSeconds, locked, id)
                && Db() == ItemTaken(rest, id, worker, staleSeconds, now)
                && DecodeSummaryItem(id, Db().outbox[id], worker) == Ok(r.value.value)
              else
                && Db() == rest
                && (r.Ok? ==> |rejected| == maxQuarantined || ClaimableItems(Db(), now, staleSeconds, locked) == {})
      ensures r.Ok? && r.value.Some? ==>
                forall x :: x in old(outbox) && x !in locked && x !in rejected && old(outbox)[x].completedAt == None
                            && old(outbox)[x].availableAt <= now
                            && (old(outbox)[x].claimedAt.Some? ==>
                                  old(outbox)[x].claimedAt.value < now - staleSeconds) ==>
                              && r.value.value.runId in old(outbox)
                              && var first := old(outbox)[r.value.value.runId];
                              || first.availableAt < old(outbox)[x].availableAt
                              || (first.availableAt == old(outbox)[x].availableAt
                                  && first.createdAt <= old(outbox)[x].createdAt)
    {
      rejected := [];
      if maxQuarantined < 1 {
        return Err(NotPositive), rejected;
      }
      ghost var before := Db();
      for tries := 0 to maxQuarantined
        invariant Valid() && |rejected| == tries && unchanged(`runs) && unchanged(`events)
        invariant Db() == RejectAll(before, rejected, worker, staleSeconds, now)
        invariant RejectsPoison(before, worker, staleSeconds, now, locked, rejected)
      {
        var candidate := NextItem(now, staleSeconds, locked);
        if candidate.None? {
          return Ok(None), rejected;
        }
        var id := candidate.value;
        TakeItem(id, worker, staleSeconds, now);
        var decoded := DecodeSummaryItem(id, outbox[id], worker);
        if decoded.Ok? {
          TakenFirst(before, worker, staleSeconds, now, locked, rejected, id);
          return Ok(Some(decoded.value)), rejected;
        }
        RejectSummaryClaim(id, worker, now);
        assert (rejected + [id])[..|rejected|] == rejected;
        rejected := rejected + [id];
      }
      return Ok(None), rejected;
    }

    // The UPDATE of the summary claim statement.
    method TakeItem(id: RunId, worker: WorkerId, ghost staleSeconds: int, now: int)
      requires Valid() && id in outbox && ItemEligible(outbox[id], now, staleSeconds)
      modifies this`outbox
      ensures Valid() && id in outbox && Db() == ItemTaken(old(Db()), id, worker, staleSeconds, now)
      ensures outbox == old(outbox)[id := old(outbox)[id].(claimedBy := Some(worker), claimedAt := Some(now),
                                                           attempts := old(outbox)[id].attempts + 1, updatedAt := now)]
    {
      Untouched(Db(), id);
      var item := outbox[id];
      outbox := outbox[id := item.(claimedBy := Some(worker), claimedAt := Some(now), attempts := item.attempts + 1,
                                   updatedAt := now)];
    }

    method RejectSummaryClaim(id: RunId, worker: WorkerId, now: int)
      requires Valid()
      modifies this`outbox
      ensures Valid() && Db() == On(old(Db()), id, RejectItem(worker), now)
      ensures id in old(outbox) && old(outbox)[id].completedAt == None && old(outbox)[id].claimedBy == Some(worker) ==>
                && id in outbox && outbox[id].completedAt == Some(now) && outbox[id].claimedBy == None
                && outbox[id].lastError == Some(InvalidPersistedConfiguration)
    {
      OnRefused(Db(), id, RejectItem(worker), now);
      if id in outbox && ItemHeld(outbox[id], worker) {
        Untouched(Db(), id);
        var item := outbox[id];
        outbox := outbox[id := item.(completedAt := Some(now), lastError := Some(InvalidPersistedConfiguration),
                                     claimedBy := None, claimedAt := None, updatedAt := now)];
      }
    }

    method CompleteSummary(summary: SummaryItem, now: int) returns (completed: bool)
      requires Valid()
      modifies this`outbox
      ensures Valid() && Db() == On(old(Db()), summary.runId, CompleteItem(summary), now)
      ensures completed == Allowed(old(Db()), summary.runId, CompleteItem(summary), now)
      ensures completed <==> old(InHand(summary))
      ensures !completed ==> Db() == old(Db())
      ensures completed ==> summary.runId in outbox && outbox[summary.runId].completedAt == Some(now)
                            && outbox[summary.runId].lastError == None && outbox[summary.runId].claimedBy == None
    {
      OnRefused(Db(), summary.runId, CompleteItem(summary), now);
      completed := summary.runId in outbox && ItemHeld(outbox[summary.runId], summary.workerId);
      if completed {
        Untouched(Db(), summary.runId);
        var item := outbox[summary.runId];
        outbox := outbox[summary.runId := item.(completedAt := Some(now), updatedAt := now,
                                                claimedBy := None, claimedAt := None, lastError := None)];
      }
    }

    method RetrySummary(summary: SummaryItem, error: ErrorCode, now: int) returns (r: Result<bool, Problem>)
      requires Valid()
      modifies this`outbox
      ensures Valid() && Db() == On(old(Db()), summary.runId, RetryItem(summary, error), now)
      ensures r.Err? <==> summary.attempts < 1
      ensures r.Ok? ==> r.value == Allowed(old(Db()), summary.runId, RetryItem(summary, error), now)
      ensures r.Ok? ==> (r.value <==> old(InHand(summary)))
      ensures r != Ok(true) ==> Db() == old(Db())
      ensures r == Ok(true) ==>
                && summary.runId in outbox && outbox[summary.runId].completedAt == None
                && outbox[summary.runId].availableAt == now + IdealDelay(summary.attempts, 900)
                && outbox[summary.runId].lastError == Some(error)
                && outbox[summary.runId].claimedBy == None && outbox[summary.runId].claimedAt == None
    {
      OnRefused(Db(), summary.runId, RetryItem(summary, error), now);
      var delay := SummaryRetryDelay(summary.attempts);
      if delay.Err? {
        return Err(delay.error);
      }
      if summary.runId !in outbox || !ItemHeld(outbox[summary.runId], summary.workerId) {
        return Ok(false);
      }
      DelaysInUseAreIdeal(summary.attempts);
      Untouched(Db(), summary.runId);
      var item := outbox[summary.runId];
      outbox := outbox[summary.runId := item.(availableAt := now + delay.value, claimedBy := None, claimedAt := None,
                                              lastError := Some(error), updatedAt := now)];
      return Ok(true);
    }
  }

  lemma StartedFirst(q: Tables, worker: WorkerId, now: int, locks: seq<set<RunId>>, maxQuarantined: int,
                       retired: seq<RunId>, id: RunId)
    requires WellKeyed(q) && ClaimCall(q, worker, now, locks, maxQuarantined, retired, Some(id))
    ensures id in q.runs && id !in LocksAt(locks, |retired|) && q.runs[id].status == Queued
    ensures q.runs[id].availableAt <= now && QuarantineAll(q, retired, worker, now).runs[id] == q.runs[id]
    ensures forall x :: x in q.runs && x !in LocksAt(locks, |retired|) && x !in retired && q.runs[x].status == Queued
                        && q.runs[x].availableAt <= now && q.runs[x].attempts < q.runs[x].spec.maxAttempts ==>
                          || q.runs[id].availableAt < q.runs[x].availableAt
                          || (q.runs[id].availableAt == q.runs[x].availableAt
                              && q.runs[id].createdAt <= q.runs[x].createdAt)
  {
    ClaimFrame(q, worker, now, locks, maxQuarantined, retired, Some(id));
    PoisonIsClaimable(q, worker, now, locks, retired);
    RetiringRows(q, worker, now, retired);
    ClaimOrder(q, worker, now, locks, maxQuarantined, retired, Some(id), |retired|, id);
    forall x | x in q.runs && x !in LocksAt(locks, |retired|) && x !in retired && Eligible(q.runs[x], now)
      ensures || q.runs[id].availableAt < q.runs[x].availableAt
              || (q.runs[id].availableAt == q.runs[x].availableAt && q.runs[id].createdAt <= q.runs[x].createdAt)
    {
      ClaimOrder(q, worker, now, locks, maxQuarantined, retired, Some(id), |retired|, x);
    }
  }

  lemma TakenFirst(q: Tables, worker: WorkerId, staleSeconds: int, now: int, locked: set<RunId>,
                     rejected: seq<RunId>, id: RunId)
    requires WellKeyed(q) && RejectsPoison(q, worker, staleSeconds, now, locked, rejected)
    requires IsItemCandidate(RejectAll(q, rejected, worker, staleSeconds, now), now, staleSeconds, locked, id)
    ensures id in q.outbox
    ensures forall x :: x in q.outbox && x !in locked && x !in rejected && q.outbox[x].completedAt == None
                        && q.outbox[x].availableAt <= now
                        && (q.outbox[x].claimedAt.Some? ==> q.outbox[x].claimedAt.value < now - staleSeconds) ==>
                          || q.outbox[id].availableAt < q.outbox[x].availableAt
                          || (q.outbox[id].availableAt == q.outbox[x].availableAt
                              && q.outbox[id].createdAt <= q.outbox[x].createdAt)
  {
    SummaryOrder(q, worker, staleSeconds, now, locked, rejected, Some(id), |rejected|, id);
    assert rejected[..|rejected|] == rejected;
    forall x | x in q.outbox && x !in locked && x !in rejected && ItemEligible(q.outbox[x], now, staleSeconds)
      ensures || q.outbox[id].availableAt < q.outbox[x].availableAt
              || (q.outbox[id].availableAt == q.outbox[x].availableAt
                  && q.outbox[id].createdAt <= q.outbox[x].createdAt)
    {
      SummaryOrder(q, worker, staleSeconds, now, locked, rejected, Some(id), |rejected|, x);
    }
  }

  // Columns an action does not name keep their values.
  lemma Untouched(q: Tables, id: RunId)
    requires id in q.runs && id in q.events
    ensures q.events[id := q.events[id]] == q.events
    ensures q.runs[id := q.runs[id]] == q.runs
    ensures id in q.outbox ==> q.outbox[id := q.outbox[id]] == q.outbox
  {
  }

  lemma NoteIsAction(q: Tables, id: RunId, kind: EventKind, now: int)
    requires id in q.runs && id in q.events
    ensures forall t: ClaimedRun :: kind == LeaseLostEvent(t.attempts, t.workerId) ==>
                                      On(q, id, LoseLease(t), now)
                                      == q.(events := q.events[id := Append(q.events[id], kind, now)])
  {
    forall t: ClaimedRun | kind == LeaseLostEvent(t.attempts, t.workerId)
      ensures On(q, id, LoseLease(t), now) == q.(events := q.events[id := Append(q.events[id], kind, now)])
    {
      OnRunOnly(q, id, LoseLease(t), now);
      assert q.runs[id := q.runs[id]] == q.runs;
    }
  }
}
