// The same transactions split into the steps other transactions can fall between: take a snapshot, pass over
// or lock a row, update it, read the last sequence number, insert the event, commit.
module Locks {
  import opened Prelude
  import opened Retry
  import opened Runs
  import opened Cells
  import opened Queue

  type TxnId = nat

  // How far a statement is with its rows: the tables as it found them, and the rows it passed over.
  datatype Scan = Scan(view: Tables, passed: set<RunId>)

  // One run's part in a transaction. `seen` is the row as locked, `scan` where its statement stood; the
  // others fill in as it proceeds.
  datatype Job = Job(
    id: RunId, action: Action, seen: Row, scan: Scan, written: Option<Row>, lastSequence: Option<int>,
    inserted: Option<Event>)

  datatype Txn = Txn(now: int, jobs: seq<Job>, scan: Scan)

  // Committed tables, row locks of rlm_runs, and transactions in flight.
  datatype Shared = Shared(q: Tables, locks: map<RunId, TxnId>, txns: map<TxnId, Txn>)

  predicate OnRunRow(a: Action) {
    a.Start? || a.Quarantine? || a.Heartbeat? || a.Succeed? || a.Fail? || a.Recover? || a.LoseLease?
  }

  datatype MicroStep =
    | Begin(t: TxnId, now: int)
    | Snapshot(t: TxnId)
    | Pass(t: TxnId, id: RunId)
    | Select(t: TxnId, id: RunId, action: Action)
    | Update(t: TxnId, k: nat)
    | ReadLast(t: TxnId, k: nat)
    | Insert(t: TxnId, k: nat)
    | Commit(t: TxnId)
    | Abort(t: TxnId)
    | CommitEnqueue(id: RunId, spec: RunSpec, now: int)
    | OutboxStatement(id: RunId, action: Action, now: int)

  // A claim decodes the row it selected: it starts a decodable one and quarantines any other.
  predicate DecodedRight(id: RunId, seen: Row, a: Action, now: int) {
    match a
    case Start(w) => Decodes(id, seen, w, now)
    case Quarantine(w) => !Decodes(id, seen, w, now)
    case _ => true
  }

  function Own(jobs: seq<Job>): set<RunId> {
    set k | 0 <= k < |jobs| :: jobs[k].id
  }

  // The rows the current statement no longer considers: those it passed over, and the transaction's own.
  function Considered(txn: Txn): Scan {
    txn.scan.(passed := txn.scan.passed + Own(txn.jobs))
  }

  // What claim and recovery lock is the first row their statement still considers.
  ghost predicate FirstOf(scan: Scan, id: RunId, a: Action, now: int) {
    match a
    case Start(_) => IsCandidate(scan.view, now, scan.passed, id)
    case Quarantine(_) => IsCandidate(scan.view, now, scan.passed, id)
    case Recover(staleSeconds) =>
      id in StaleRuns(scan.view, now, staleSeconds, scan.passed)
      && forall x :: x in StaleRuns(scan.view, now, staleSeconds, scan.passed) ==> Older(scan.view, id, x)
    case _ => true
  }

  predicate JobDone(j: Job) {
    j.written.Some? && (EventOf(j.seen, j.action).Some? ==> j.inserted.Some?)
  }

  // The rows committed since a statement took its snapshot.
  function Changed(q: Tables, view: Tables): set<RunId> {
    set x | x in q.runs && !(x in view.runs && view.runs[x] == q.runs[x])
  }

  // A statement passes over rows that others hold or have changed; it may also take a changed row.
  ghost predicate Allows(s: Shared, step: MicroStep) {
    match step
    case Begin(t, _) => t !in s.txns
    case Snapshot(t) => t in s.txns
    case Pass(t, id) =>
      t in s.txns && id in s.q.runs
      && ((id in s.locks && s.locks[id] != t) || id in Changed(s.q, s.txns[t].scan.view))
    case Select(t, id, action) =>
      t in s.txns && id !in s.locks && OnRunRow(action) && Allowed(s.q, id, action, s.txns[t].now)
      && DecodedRight(id, s.q.runs[id], action, s.txns[t].now)
      && FirstOf(Considered(s.txns[t]), id, action, s.txns[t].now)
    case Update(t, k) =>
      t in s.txns && k < |s.txns[t].jobs| && s.txns[t].jobs[k].written.None? && s.txns[t].jobs[k].id in s.q.runs
    case ReadLast(t, k) =>
      t in s.txns && k < |s.txns[t].jobs| && s.txns[t].jobs[k].written.Some? && s.txns[t].jobs[k].lastSequence.None?
      && s.txns[t].jobs[k].id in s.q.events
    case Insert(t, k) =>
      t in s.txns && k < |s.txns[t].jobs| && s.txns[t].jobs[k].lastSequence.Some? && s.txns[t].jobs[k].inserted.None?
      && EventOf(s.txns[t].jobs[k].seen, s.txns[t].jobs[k].action).Some?
    case Commit(t) => t in s.txns && forall k :: 0 <= k < |s.txns[t].jobs| ==> JobDone(s.txns[t].jobs[k])
    case Abort(t) => t in s.txns
    case CommitEnqueue(id, spec, _) => id !in s.q.runs && spec.maxAttempts > 0
    case OutboxStatement(_, action, _) => !OnRunRow(action)
  }

  // A row update reads the committed row; a recovery decides on the counters it selected.
  function UpdatedJob(q: Tables, j: Job, now: int): Job
    requires j.id in q.runs
  {
    j.(written := Some(RowAfter(q.runs[j.id], j.seen, j.action, now)))
  }

  function InsertedJob(j: Job, now: int): Job
    requires j.lastSequence.Some? && EventOf(j.seen, j.action).Some?
  {
    j.(inserted := Some(Event(j.lastSequence.value + 1, EventOf(j.seen, j.action).value, now)))
  }

  function WithJob(s: Shared, t: TxnId, k: nat, j: Job): Shared
    requires t in s.txns && k < |s.txns[t].jobs|
  {
    s.(txns := s.txns[t := s.txns[t].(jobs := s.txns[t].jobs[k := j])])
  }

  // What becomes visible when one job of a transaction commits.
  function Publish(q: Tables, j: Job, now: int): Tables {
    if j.id !in q.runs || j.id !in q.events || j.written.None? then q
    else
      var log := q.events[j.id];
      Put(q, j.id, Cell(j.written.value, if j.inserted.Some? then log + [j.inserted.value] else log,
                        ItemAfter(Get(q, j.id).item, j.action, now)))
  }

  function PublishAll(q: Tables, jobs: seq<Job>, now: int): Tables {
    if jobs == [] then q else Publish(PublishAll(q, jobs[..|jobs| - 1], now), jobs[|jobs| - 1], now)
  }

  function Closed(s: Shared, t: TxnId): Shared {
    s.(locks := map id | id in s.locks && s.locks[id] != t :: s.locks[id], txns := s.txns - {t})
  }

  function After(s: Shared, step: MicroStep): Shared
    requires Allows(s, step)
  {
    match step
    case Begin(t, now) => s.(txns := s.txns[t := Txn(now, [], Scan(s.q, {}))])
    case Snapshot(t) => s.(txns := s.txns[t := s.txns[t].(scan := Scan(s.q, {}))])
    case Pass(t, id) =>
      var scan := s.txns[t].scan;
      s.(txns := s.txns[t := s.txns[t].(scan := scan.(passed := scan.passed + {id}))])
    case Select(t, id, action) =>
      var txn := s.txns[t];
      var job := Job(id, action, s.q.runs[id], Considered(txn), None, None, None);
      s.(locks := s.locks[id := t], txns := s.txns[t := txn.(jobs := txn.jobs + [job])])
    case Update(t, k) => WithJob(s, t, k, UpdatedJob(s.q, s.txns[t].jobs[k], s.txns[t].now))
    case ReadLast(t, k) =>
      var j := s.txns[t].jobs[k];
      WithJob(s, t, k, j.(lastSequence := Some(MaxSequence(s.q.events[j.id]))))
    case Insert(t, k) => WithJob(s, t, k, InsertedJob(s.txns[t].jobs[k], s.txns[t].now))
    case Commit(t) => Closed(s.(q := PublishAll(s.q, s.txns[t].jobs, s.txns[t].now)), t)
    case Abort(t) => Closed(s, t)
    case CommitEnqueue(id, spec, now) => s.(q := Put(s.q, id, Enqueued(spec, now)))
    case OutboxStatement(id, action, now) => s.(q := On(s.q, id, action, now))
  }

  // ---- invariant ------------------------------------------------------------------------------

  // A job under way agrees with the committed tables: the lock kept everyone else away.
  ghost predicate JobInv(q: Tables, now: int, j: Job) {
    && j.id in q.runs && j.id in q.events && OnRunRow(j.action)
    && j.seen == q.runs[j.id] && Guard(Get(q, j.id), j.action, now) && DecodedRight(j.id, j.seen, j.action, now)
    && FirstOf(j.scan, j.id, j.action, now)
    && (j.written.Some? ==> j.written.value == RowAfter(q.runs[j.id], q.runs[j.id], j.action, now))
    && (j.lastSequence.Some? ==> j.lastSequence.value == MaxSequence(q.events[j.id]))
    && (j.inserted.Some? ==>
          && EventOf(j.seen, j.action).Some?
          && j.inserted.value == Event(MaxSequence(q.events[j.id]) + 1, EventOf(j.seen, j.action).value, now))
  }

  ghost predicate JobsDistinct(jobs: seq<Job>) {
    forall i, k :: 0 <= i < k < |jobs| ==> jobs[i].id != jobs[k].id
  }

  ghost predicate TxnInv(s: Shared, t: TxnId, txn: Txn) {
    && JobsDistinct(txn.jobs)
    && forall k :: 0 <= k < |txn.jobs| ==>
         JobInv(s.q, txn.now, txn.jobs[k]) && txn.jobs[k].id in s.locks && s.locks[txn.jobs[k].id] == t
  }

  ghost predicate AllNumbered(q: Tables) {
    WellKeyed(q) && forall id :: id in q.events ==> Numbered(q.events[id])
  }

  ghost predicate SharedInv(s: Shared) {
    && AllNumbered(s.q)
    && (forall id :: id in s.locks ==> s.locks[id] in s.txns)
    && forall t :: t in s.txns ==> TxnInv(s, t, s.txns[t])
  }

  // ---- commit is atomic -----------------------------------------------------------------------

  ghost predicate Untaken(jobs: seq<Job>, x: RunId) {
    forall k :: 0 <= k < |jobs| ==> jobs[k].id != x
  }

  function Atomically(q: Tables, jobs: seq<Job>, now: int): Tables {
    if jobs == [] then q
    else On(Atomically(q, jobs[..|jobs| - 1], now), jobs[|jobs| - 1].id, jobs[|jobs| - 1].action, now)
  }

  lemma PublishIsApply(q: Tables, j: Job, now: int)
    requires JobInv(q, now, j) && JobDone(j)
    ensures Publish(q, j, now) == On(q, j.id, j.action, now)
  {
  }

  lemma JobInvCongruent(q: Tables, d: Tables, j: Job, now: int)
    requires JobInv(q, now, j) && j.id in d.runs && j.id in d.events
    requires d.runs[j.id] == q.runs[j.id] && d.events[j.id] == q.events[j.id]
    ensures JobInv(d, now, j)
  {
  }

  // Publishing the finished jobs of a transaction is the same as performing its actions one after
  // the other, atomically, on the tables as they are at commit.
  lemma {:induction false} CommitIsAtomic(q: Tables, jobs: seq<Job>, now: int)
    requires WellKeyed(q) && JobsDistinct(jobs)
    requires forall k :: 0 <= k < |jobs| ==> JobInv(q, now, jobs[k]) && JobDone(jobs[k])
    ensures PublishAll(q, jobs, now) == Atomically(q, jobs, now) && WellKeyed(Atomically(q, jobs, now))
    ensures Atomically(q, jobs, now).runs.Keys == q.runs.Keys
    ensures forall x :: x in q.runs && Untaken(jobs, x) ==> Get(Atomically(q, jobs, now), x) == Get(q, x)
  {
    if jobs != [] {
      var front, last := jobs[..|jobs| - 1], jobs[|jobs| - 1];
      CommitIsAtomic(q, front, now);
      var mid := Atomically(q, front, now);
      assert Untaken(front, last.id);
      assert Get(mid, last.id) == Get(q, last.id);
      JobInvCongruent(q, mid, last, now);
      PublishIsApply(mid, last, now);
      OnFrame(mid, last.id, last.action, now);
      forall x | x in q.runs && Untaken(jobs, x)
        ensures Get(Atomically(q, jobs, now), x) == Get(q, x)
      {
        assert Untaken(front, x) && jobs[|jobs| - 1].id != x;
      }
    }
  }

  lemma {:induction false} AtomicKeepsNumbering(q: Tables, jobs: seq<Job>, now: int)
    requires AllNumbered(q)
    ensures AllNumbered(Atomically(q, jobs, now))
  {
    if jobs != [] {
      AtomicKeepsNumbering(q, jobs[..|jobs| - 1], now);
      OnKeepsNumbering(Atomically(q, jobs[..|jobs| - 1], now), jobs[|jobs| - 1].id, jobs[|jobs| - 1].action, now);
    }
  }

  lemma OnKeepsNumbering(q: Tables, id: RunId, a: Action, now: int)
    requires AllNumbered(q)
    ensures AllNumbered(On(q, id, a, now))
  {
    if id in q.runs {
      OnFrame(q, id, a, now);
      var d := On(q, id, a, now);
      forall x | x in d.events
        ensures Numbered(d.events[x])
      {
        assert Get(d, x).log == d.events[x];
        var event := EventOf(q.runs[id], a);
        if x == id && event.Some? {
          AppendNumbered(q.events[id], event.value, now);
        }
      }
    }
  }

  // ---- every step keeps the invariant -----------------------------------------------------------

  lemma WithJobKeepsInv(s: Shared, t: TxnId, k: nat, j: Job)
    requires SharedInv(s) && t in s.txns && k < |s.txns[t].jobs|
    requires j.id == s.txns[t].jobs[k].id && JobInv(s.q, s.txns[t].now, j)
    ensures SharedInv(WithJob(s, t, k, j))
  {
    var d := WithJob(s, t, k, j);
    forall u | u in d.txns
      ensures TxnInv(d, u, d.txns[u])
    {
      assert TxnInv(s, u, s.txns[u]);
    }
  }

  lemma ScanKeepsInv(s: Shared, t: TxnId, scan: Scan)
    requires SharedInv(s) && t in s.txns
    ensures SharedInv(s.(txns := s.txns[t := s.txns[t].(scan := scan)]))
  {
    var d := s.(txns := s.txns[t := s.txns[t].(scan := scan)]);
    forall u | u in d.txns
      ensures TxnInv(d, u, d.txns[u])
    {
      assert TxnInv(s, u, s.txns[u]);
    }
  }

  lemma SelectKeepsInv(s: Shared, t: TxnId, id: RunId, action: Action)
    requires SharedInv(s) && Allows(s, Select(t, id, action))
    ensures SharedInv(After(s, Select(t, id, action)))
  {
    var d := After(s, Select(t, id, action));
    forall u | u in d.txns
      ensures TxnInv(d, u, d.txns[u])
    {
      assert TxnInv(s, u, s.txns[u]);
    }
  }

  lemma EndKeepsInv(s: Shared, t: TxnId)
    requires SharedInv(s)
    ensures SharedInv(Closed(s, t))
  {
    var d := Closed(s, t);
    forall u | u in d.txns
      ensures TxnInv(d, u, d.txns[u])
    {
      assert TxnInv(s, u, s.txns[u]);
    }
  }

  // Tables may change under a transaction wherever it holds no lock.
  lemma OthersKeepTxn(s: Shared, d: Shared, u: TxnId)
    requires SharedInv(s) && u in s.txns && u in d.txns && d.txns[u] == s.txns[u] && WellKeyed(d.q)
    requires forall id :: id in s.locks && s.locks[id] == u ==> id in d.locks && d.locks[id] == u
    requires forall id :: id in s.locks && s.locks[id] == u && id in s.q.runs ==>
               id in d.q.runs && d.q.runs[id] == s.q.runs[id] && d.q.events[id] == s.q.events[id]
    ensures TxnInv(d, u, d.txns[u])
  {
    assert TxnInv(s, u, s.txns[u]);
    forall k | 0 <= k < |s.txns[u].jobs|
      ensures JobInv(d.q, s.txns[u].now, s.txns[u].jobs[k])
    {
      JobInvCongruent(s.q, d.q, s.txns[u].jobs[k], s.txns[u].now);
    }
  }

  lemma CommitKeepsInv(s: Shared, t: TxnId)
    requires SharedInv(s) && Allows(s, Commit(t))
    ensures SharedInv(After(s, Commit(t)))
    ensures After(s, Commit(t)).q == Atomically(s.q, s.txns[t].jobs, s.txns[t].now)
  {
    var txn := s.txns[t];
    assert TxnInv(s, t, txn);
    CommitIsAtomic(s.q, txn.jobs, txn.now);
    AtomicKeepsNumbering(s.q, txn.jobs, txn.now);
    var d := After(s, Commit(t));
    forall u | u in d.txns
      ensures TxnInv(d, u, d.txns[u])
    {
      forall id | id in s.locks && s.locks[id] == u && id in s.q.runs
        ensures id in d.q.runs && d.q.runs[id] == s.q.runs[id] && d.q.events[id] == s.q.events[id]
      {
        assert Get(d.q, id) == Get(s.q, id);
      }
      OthersKeepTxn(s, d, u);
    }
  }

  lemma OutboxKeepsInv(s: Shared, id: RunId, a: Action, now: int)
    requires SharedInv(s) && !OnRunRow(a)
    ensures SharedInv(s.(q := On(s.q, id, a, now)))
  {
    OnKeepsNumbering(s.q, id, a, now);
    var d := s.(q := On(s.q, id, a, now));
    if id in s.q.runs {
      OnFrame(s.q, id, a, now);
    }
    forall u | u in d.txns
      ensures TxnInv(d, u, d.txns[u])
    {
      forall x | x in s.q.runs
        ensures d.q.runs[x] == s.q.runs[x] && d.q.events[x] == s.q.events[x]
      {
      }
      OthersKeepTxn(s, d, u);
    }
  }

  lemma EnqueueKeepsShared(s: Shared, id: RunId, spec: RunSpec, now: int)
    requires SharedInv(s) && id !in s.q.runs && spec.maxAttempts > 0
    ensures SharedInv(s.(q := Put(s.q, id, Enqueued(spec, now))))
  {
    var d := s.(q := Put(s.q, id, Enqueued(spec, now)));
    AppendNumbered([], QueuedEvent(0), now);
    forall u | u in d.txns
      ensures TxnInv(d, u, d.txns[u])
    {
      OthersKeepTxn(s, d, u);
    }
  }

  lemma MicroStepKeepsInv(s: Shared, step: MicroStep)
    requires SharedInv(s) && Allows(s, step)
    ensures SharedInv(After(s, step))
  {
    match step
    case Begin(t, now) =>
      var d := After(s, step);
      forall u | u in d.txns
        ensures TxnInv(d, u, d.txns[u])
      {
        assert u != t ==> TxnInv(s, u, s.txns[u]);
      }
    case Snapshot(t) => ScanKeepsInv(s, t, Scan(s.q, {}));
    case Pass(t, id) => ScanKeepsInv(s, t, s.txns[t].scan.(passed := s.txns[t].scan.passed + {id}));
    case Select(t, id, action) => SelectKeepsInv(s, t, id, action);
    case Update(t, k) =>
      assert TxnInv(s, t, s.txns[t]);
      WithJobKeepsInv(s, t, k, UpdatedJob(s.q, s.txns[t].jobs[k], s.txns[t].now));
    case ReadLast(t, k) =>
      assert TxnInv(s, t, s.txns[t]);
      var j := s.txns[t].jobs[k];
      WithJobKeepsInv(s, t, k, j.(lastSequence := Some(MaxSequence(s.q.events[j.id]))));
    case Insert(t, k) =>
      assert TxnInv(s, t, s.txns[t]);
      WithJobKeepsInv(s, t, k, InsertedJob(s.txns[t].jobs[k], s.txns[t].now));
    case Commit(t) => CommitKeepsInv(s, t);
    case Abort(t) => EndKeepsInv(s, t);
    case CommitEnqueue(id, spec, now) => EnqueueKeepsShared(s, id, spec, now);
    case OutboxStatement(id, action, now) => OutboxKeepsInv(s, id, action, now);
  }

  // ---- executions -------------------------------------------------------------------------------

  ghost predicate MicroExecution(states: seq<Shared>, steps: seq<MicroStep>) {
    && |states| == |steps| + 1 && states[0] == Shared(Tables(map[], map[], map[]), map[], map[])
    && forall i :: 0 <= i < |steps| ==> Allows(states[i], steps[i]) && states[i + 1] == After(states[i], steps[i])
  }

  lemma {:induction false} MicroExecutionKeepsInv(states: seq<Shared>, steps: seq<MicroStep>, i: nat)
    requires MicroExecution(states, steps) && i < |states|
    ensures SharedInv(states[i])
  {
    if i > 0 {
      MicroExecutionKeepsInv(states, steps, i - 1);
      MicroStepKeepsInv(states[i - 1], steps[i - 1]);
    }
  }

  // In every interleaving the committed sequence numbers of each run are exactly 1..n.
  lemma SequencesAreGapless(states: seq<Shared>, steps: seq<MicroStep>, i: nat, id: RunId)
    requires MicroExecution(states, steps) && i < |states| && id in states[i].q.events
    ensures Numbered(states[i].q.events[id])
  {
    MicroExecutionKeepsInv(states, steps, i);
  }

  // In every interleaving each step either leaves the committed tables alone or changes them as one
  // atomic transaction whose guards all hold at that moment.
  lemma InterleavingRefinesAtomic(states: seq<Shared>, steps: seq<MicroStep>, i: nat)
    requires MicroExecution(states, steps) && i < |steps|
    ensures var q, d := states[i].q, states[i + 1].q;
            match steps[i]
            case Commit(t) =>
              var txn := states[i].txns[t];
              d == Atomically(q, txn.jobs, txn.now)
              && forall k :: 0 <= k < |txn.jobs| ==> Allowed(q, txn.jobs[k].id, txn.jobs[k].action, txn.now)
            case CommitEnqueue(id, spec, now) => id !in q.runs && d == Put(q, id, Enqueued(spec, now))
            case OutboxStatement(id, action, now) => d == On(q, id, action, now)
            case _ => d == q
  {
    MicroExecutionKeepsInv(states, steps, i);
    if steps[i].Commit? {
      CommitKeepsInv(states[i], steps[i].t);
      assert TxnInv(states[i], steps[i].t, states[i].txns[steps[i].t]);
    }
  }

  // The update of recovery names a run by id alone. Between its select and its commit nobody else
  // can heartbeat, finish or reclaim that run: the row it overwrites is the one it selected, still
  // running and still stale.
  lemma RecoveryOverwritesOnlyStale(states: seq<Shared>, steps: seq<MicroStep>, i: nat, t: TxnId, k: nat)
    requires MicroExecution(states, steps) && i < |states| && t in states[i].txns && k < |states[i].txns[t].jobs|
    requires states[i].txns[t].jobs[k].action.Recover?
    ensures var j := states[i].txns[t].jobs[k];
            && j.id in states[i].q.runs && states[i].q.runs[j.id] == j.seen
            && Stale(states[i].q.runs[j.id], states[i].txns[t].now, j.action.staleSeconds)
  {
    MicroExecutionKeepsInv(states, steps, i);
    assert TxnInv(states[i], t, states[i].txns[t]);
  }

  // ---- the whole recovery -----------------------------------------------------------------------

  ghost predicate IdsOf(jobs: seq<Job>, ids: seq<RunId>, a: Action) {
    |jobs| == |ids| && forall k :: 0 <= k < |ids| ==> jobs[k].id == ids[k] && jobs[k].action == a
  }

  lemma {:induction false} AtomicIsOnAll(q: Tables, jobs: seq<Job>, ids: seq<RunId>, a: Action, now: int)
    requires IdsOf(jobs, ids, a)
    ensures Atomically(q, jobs, now) == OnAll(q, ids, a, now)
  {
    if jobs != [] {
      AtomicIsOnAll(q, jobs[..|jobs| - 1], ids[..|ids| - 1], a, now);
    }
  }

  // The order in which distinct rows are updated does not matter.
  lemma OnAllPermuted(q: Tables, ids: seq<RunId>, others: seq<RunId>, a: Action, now: int)
    requires WellKeyed(q) && Distinct(ids) && Distinct(others) && Known(q, ids)
    requires forall x :: x in ids <==> x in others
    ensures OnAll(q, ids, a, now) == OnAll(q, others, a, now)
  {
    OnAllFrame(q, ids, a, now);
    OnAllFrame(q, others, a, now);
    SameCells(OnAll(q, ids, a, now), OnAll(q, others, a, now));
  }

  lemma SameCells(d: Tables, e: Tables)
    requires WellKeyed(d) && WellKeyed(e) && d.runs.Keys == e.runs.Keys
    requires forall x :: x in d.runs ==> Get(d, x) == Get(e, x)
    ensures d == e
  {
    forall x | x in d.runs
      ensures d.runs[x] == e.runs[x] && d.events[x] == e.events[x]
      ensures x in d.outbox <==> x in e.outbox
      ensures x in d.outbox ==> d.outbox[x] == e.outbox[x]
    {
      assert Get(d, x) == Get(e, x);
    }
    assert d.runs == e.runs && d.events == e.events && d.outbox == e.outbox;
  }

  // What a statement did not take into account: the rows it passed over and those changed since its
  // snapshot.
  function Missed(q: Tables, scan: Scan): set<RunId> {
    scan.passed + Changed(q, scan.view)
  }

  // The row was locked as the snapshot showed it.
  predicate Steady(j: Job) {
    j.id in j.scan.view.runs && j.scan.view.runs[j.id] == j.seen
  }

  // What the statements of a transaction missed, each by the time it locked its row and the last one at
  // the end. If one locked a row that had changed, its place in the order is anyone's guess, and all
  // rows that were not taken count as missed.
  function MissedByAll(q: Tables, txn: Txn): set<RunId> {
    if forall k :: 0 <= k < |txn.jobs| ==> Steady(txn.jobs[k]) then
      (set k, x | 0 <= k < |txn.jobs| && x in Missed(q, txn.jobs[k].scan) :: x)
      + Missed(q, Considered(txn)) - Own(txn.jobs)
    else q.runs.Keys - Own(txn.jobs)
  }

  // The rows among which recovery may have chosen in q, whatever it missed.
  lemma ChosenAreOldest(q: Tables, txn: Txn, ids: seq<RunId>, staleSeconds: int, k: nat, x: RunId)
    requires IdsOf(txn.jobs, ids, Recover(staleSeconds)) && k < |ids| && JobInv(q, txn.now, txn.jobs[k])
    requires x in StaleRuns(q, txn.now, staleSeconds, MissedByAll(q, txn)) && x !in ids
    ensures ids[k] in q.runs && Older(q, ids[k], x)
  {
    OwnIds(txn.jobs, ids, Recover(staleSeconds));
    var j := txn.jobs[k];
    assert forall i :: 0 <= i < |txn.jobs| ==> Steady(txn.jobs[i]);
    assert x !in Missed(q, j.scan);
    assert x in StaleRuns(j.scan.view, txn.now, staleSeconds, j.scan.passed);
  }

  lemma OwnIds(jobs: seq<Job>, ids: seq<RunId>, a: Action)
    requires IdsOf(jobs, ids, a)
    ensures Own(jobs) == Elements(ids)
  {
    assert forall x :: x in ids <==> exists k :: 0 <= k < |jobs| && jobs[k].id == x;
  }

  // Two equally large choices of oldest rows are the same.
  lemma OldestAreUnique(q: Tables, all: set<RunId>, a: set<RunId>, b: set<RunId>)
    requires all <= q.runs.Keys && a <= all && b <= all && |a| == |b|
    requires forall x, y :: x in a && y in all && y !in a ==> Older(q, x, y)
    requires forall x, y :: x in b && y in all && y !in b ==> Older(q, x, y)
    ensures a == b
  {
    if x :| x in a && x !in b {
      if b <= a {
        SubsetOfSameSize(b, a);
      } else {
        var y :| y in b && y !in a;
        assert false;
      }
    } else {
      SubsetOfSameSize(a, b);
    }
  }

  // Nothing is left for the statement at hand.
  predicate NoStaleLeft(txn: Txn, staleSeconds: int) {
    StaleRuns(txn.scan.view, txn.now, staleSeconds, Considered(txn).passed) == {}
  }

  lemma LeftForLast(q: Tables, txn: Txn, ids: seq<RunId>, staleSeconds: int)
    requires IdsOf(txn.jobs, ids, Recover(staleSeconds))
    ensures StaleRuns(q, txn.now, staleSeconds, MissedByAll(q, txn)) - Elements(ids)
            <= StaleRuns(txn.scan.view, txn.now, staleSeconds, Considered(txn).passed)
  {
    OwnIds(txn.jobs, ids, Recover(staleSeconds));
    forall x | x in StaleRuns(q, txn.now, staleSeconds, MissedByAll(q, txn)) && x !in Elements(ids)
      ensures x in StaleRuns(txn.scan.view, txn.now, staleSeconds, Considered(txn).passed)
    {
      assert x !in Missed(q, Considered(txn));
    }
  }

  lemma BatchSize(q: Tables, txn: Txn, ids: seq<RunId>, staleSeconds: int, batchSize: nat)
    requires IdsOf(txn.jobs, ids, Recover(staleSeconds)) && Distinct(ids) && Known(q, ids) && |ids| <= batchSize
    requires forall x :: x in ids ==> Stale(q.runs[x], txn.now, staleSeconds)
    requires |ids| == batchSize || NoStaleLeft(txn, staleSeconds)
    ensures var stale := StaleRuns(q, txn.now, staleSeconds, MissedByAll(q, txn));
            Elements(ids) <= stale && |Elements(ids)| == Min(batchSize, |stale|)
  {
    var stale := StaleRuns(q, txn.now, staleSeconds, MissedByAll(q, txn));
    OwnIds(txn.jobs, ids, Recover(staleSeconds));
    DistinctCardinality(ids);
    SubsetIsSmaller(Elements(ids), stale);
    if |ids| < batchSize {
      LeftForLast(q, txn, ids, staleSeconds);
      assert stale - Elements(ids) == {};
      assert stale == Elements(ids) + (stale - Elements(ids));
    }
  }

  // Recovery that finds what the transaction missed locked selects what the transaction took.
  lemma SameBatch(q: Tables, txn: Txn, ids: seq<RunId>, staleSeconds: int, batchSize: nat)
    requires IdsOf(txn.jobs, ids, Recover(staleSeconds)) && Distinct(ids) && Known(q, ids) && |ids| <= batchSize
    requires forall x :: x in ids ==> Stale(q.runs[x], txn.now, staleSeconds)
    requires forall k :: 0 <= k < |txn.jobs| ==> JobInv(q, txn.now, txn.jobs[k])
    requires |ids| == batchSize || NoStaleLeft(txn, staleSeconds)
    ensures Elements(StaleBatch(q, staleSeconds, batchSize, txn.now, MissedByAll(q, txn))) == Elements(ids)
  {
    var locked := MissedByAll(q, txn);
    var stale := StaleRuns(q, txn.now, staleSeconds, locked);
    BatchIsOldest(q, staleSeconds, batchSize, txn.now, locked);
    BatchSize(q, txn, ids, staleSeconds, batchSize);
    forall x, y | x in Elements(ids) && y in stale && y !in Elements(ids)
      ensures Older(q, x, y)
    {
      var k :| 0 <= k < |ids| && ids[k] == x;
      ChosenAreOldest(q, txn, ids, staleSeconds, k, y);
    }
    OldestAreUnique(q, stale, Elements(StaleBatch(q, staleSeconds, batchSize, txn.now, locked)), Elements(ids));
  }

  lemma RecoveryJobs(q: Tables, jobs: seq<Job>, ids: seq<RunId>, staleSeconds: int, now: int)
    requires JobsDistinct(jobs) && IdsOf(jobs, ids, Recover(staleSeconds))
    requires forall k :: 0 <= k < |jobs| ==> JobInv(q, now, jobs[k])
    ensures Distinct(ids) && Known(q, ids)
    ensures forall x :: x in ids ==> Stale(q.runs[x], now, staleSeconds) && CountersOk(q, x)
  {
    forall x | x in ids
      ensures x in q.runs && Stale(q.runs[x], now, staleSeconds) && CountersOk(q, x)
    {
      var k :| 0 <= k < |ids| && ids[k] == x;
      assert JobInv(q, now, jobs[k]);
    }
  }

  // A recovery that locked its rows one at a time, in any interleaving, commits exactly what the atomic
  // recovery does when the rows that the transaction missed are locked. They are rows that another
  // transaction held when it came by, or that changed after its snapshot.
  lemma RecoveryRefinesAtomic(states: seq<Shared>, steps: seq<MicroStep>, i: nat, t: TxnId, ids: seq<RunId>,
                              staleSeconds: int, batchSize: nat)
    requires MicroExecution(states, steps) && i < |steps| && steps[i] == Commit(t)
    requires IdsOf(states[i].txns[t].jobs, ids, Recover(staleSeconds)) && |ids| <= batchSize
    requires |ids| == batchSize || NoStaleLeft(states[i].txns[t], staleSeconds)
    ensures var q, txn := states[i].q, states[i].txns[t];
            AfterRecovery(q, staleSeconds, batchSize, txn.now, MissedByAll(q, txn)) == Ok(states[i + 1].q)
  {
    MicroExecutionKeepsInv(states, steps, i);
    var s, txn := states[i], states[i].txns[t];
    CommitKeepsInv(s, t);
    assert TxnInv(s, t, txn);
    AtomicIsOnAll(s.q, txn.jobs, ids, Recover(staleSeconds), txn.now);
    RecoveryJobs(s.q, txn.jobs, ids, staleSeconds, txn.now);
    SameBatch(s.q, txn, ids, staleSeconds, batchSize);
    RecoversSame(s.q, ids, staleSeconds, batchSize, txn.now, MissedByAll(s.q, txn));
  }

  lemma RecoversSame(q: Tables, ids: seq<RunId>, staleSeconds: int, batchSize: nat, now: int, locked: set<RunId>)
    requires WellKeyed(q) && Distinct(ids) && Known(q, ids)
    requires forall x :: x in ids ==> CountersOk(q, x)
    requires Elements(StaleBatch(q, staleSeconds, batchSize, now, locked)) == Elements(ids)
    ensures AfterRecovery(q, staleSeconds, batchSize, now, locked) == Ok(OnAll(q, ids, Recover(staleSeconds), now))
  {
    var batch := StaleBatch(q, staleSeconds, batchSize, now, locked);
    BatchIsOldest(q, staleSeconds, batchSize, now, locked);
    assert forall x :: x in ids <==> x in Elements(ids);
    assert forall x :: x in batch <==> x in Elements(batch);
    OnAllPermuted(q, batch, ids, Recover(staleSeconds), now);
  }

  // ---- the whole claim --------------------------------------------------------------------------

  // The jobs of a claim: the rows it retired, then perhaps the one it started.
  ghost predicate ClaimJobs(jobs: seq<Job>, w: WorkerId, retired: seq<RunId>, picked: Option<RunId>) {
    && |jobs| == |retired| + (if picked.Some? then 1 else 0)
    && (forall k :: 0 <= k < |retired| ==> jobs[k].id == retired[k] && jobs[k].action == Quarantine(w))
    && (picked.Some? ==> jobs[|retired|].id == picked.value && jobs[|retired|].action == Start(w))
  }

  // What one statement of a claim missed, seen from the tables q.
  function MissedBy(q: Tables, j: Job): set<RunId> {
    if Steady(j) then Missed(q, j.scan) else q.runs.Keys - {j.id}
  }

  // The same for each statement, the last of which may have found no row.
  function ClaimLocks(q: Tables, txn: Txn): seq<set<RunId>> {
    seq(|txn.jobs|, k requires 0 <= k < |txn.jobs| => MissedBy(q, txn.jobs[k])) + [Missed(q, Considered(txn))]
  }

  // The row a claim took is still the first once all before it are retired and all it missed are locked.
  lemma TakenIsCandidate(q: Tables, rest: Tables, now: int, j: Job)
    requires JobInv(q, now, j) && (j.action.Start? || j.action.Quarantine?)
    requires rest.runs.Keys == q.runs.Keys && rest.runs[j.id] == q.runs[j.id]
    requires forall x :: x in q.runs ==> rest.runs[x] == q.runs[x] || rest.runs[x].status != Queued
    ensures IsCandidate(rest, now, MissedBy(q, j), j.id)
  {
    var locked := MissedBy(q, j);
    assert j.id in Claimable(rest, now, locked);
    forall x | x in Claimable(rest, now, locked)
      ensures !Before(rest.runs[x], rest.runs[j.id])
    {
      if Steady(j) {
        assert x in Claimable(j.scan.view, now, j.scan.passed);
      }
    }
  }

  lemma LocksOfStatement(q: Tables, txn: Txn, k: nat)
    requires k < |txn.jobs|
    ensures LocksAt(ClaimLocks(q, txn), k) == MissedBy(q, txn.jobs[k])
  {
  }

  lemma RetiringLeaves(q: Tables, now: int, w: WorkerId, retired: seq<RunId>)
    requires WellKeyed(q) && Distinct(retired)
    requires forall x :: x in retired ==> x in Claimable(q, now, {})
    ensures var rest := QuarantineAll(q, retired, w, now);
            && rest.runs.Keys == q.runs.Keys
            && forall x :: x in q.runs ==>
                 if x in retired then rest.runs[x].status != Queued else rest.runs[x] == q.runs[x]
  {
    RetiringRows(q, w, now, retired);
  }

  lemma TakenThen(q: Tables, now: int, j: Job, w: WorkerId, retired: seq<RunId>)
    requires WellKeyed(q) && Distinct(retired) && j.id !in retired && JobInv(q, now, j)
    requires j.action == Start(w) || j.action == Quarantine(w)
    requires forall x :: x in retired ==> x in Claimable(q, now, {})
    ensures var rest := QuarantineAll(q, retired, w, now);
            && IsCandidate(rest, now, MissedBy(q, j), j.id)
            && (j.action.Start? <==> Decodes(j.id, rest.runs[j.id], w, now))
  {
    var rest := QuarantineAll(q, retired, w, now);
    RetiringLeaves(q, now, w, retired);
    TakenIsCandidate(q, rest, now, j);
  }

  lemma TakenAfter(q: Tables, txn: Txn, w: WorkerId, retired: seq<RunId>)
    requires WellKeyed(q) && Distinct(retired) && |retired| < |txn.jobs|
    requires forall x :: x in retired ==> x in Claimable(q, txn.now, {})
    requires var j := txn.jobs[|retired|];
             JobInv(q, txn.now, j) && j.id !in retired && (j.action == Start(w) || j.action == Quarantine(w))
    ensures var rest, j := QuarantineAll(q, retired, w, txn.now), txn.jobs[|retired|];
            && IsCandidate(rest, txn.now, LocksAt(ClaimLocks(q, txn), |retired|), j.id)
            && (j.action.Start? <==> Decodes(j.id, rest.runs[j.id], w, txn.now))
  {
    TakenThen(q, txn.now, txn.jobs[|retired|], w, retired);
    LocksOfStatement(q, txn, |retired|);
  }

  // The first n rows a claim took are retired.
  ghost predicate Retires(q: Tables, txn: Txn, w: WorkerId, ids: seq<RunId>) {
    && Distinct(ids) && |ids| <= |txn.jobs|
    && forall k :: 0 <= k < |ids| ==>
         txn.jobs[k].id == ids[k] && txn.jobs[k].action == Quarantine(w) && JobInv(q, txn.now, txn.jobs[k])
  }

  lemma RetiresClaimable(q: Tables, txn: Txn, w: WorkerId, ids: seq<RunId>)
    requires Retires(q, txn, w, ids)
    ensures forall x :: x in ids ==> x in Claimable(q, txn.now, {})
  {
    forall x | x in ids
      ensures x in Claimable(q, txn.now, {})
    {
      var k :| 0 <= k < |ids| && ids[k] == x;
    }
  }

  lemma {:induction false} TakenArePoisoned(q: Tables, txn: Txn, w: WorkerId, ids: seq<RunId>)
    requires WellKeyed(q) && Retires(q, txn, w, ids)
    ensures Poisoned(q, w, txn.now, ClaimLocks(q, txn), ids)
  {
    if ids != [] {
      var front, last := ids[..|ids| - 1], ids[|ids| - 1];
      SplitLast(ids);
      TakenArePoisoned(q, txn, w, front);
      RetiresClaimable(q, txn, w, front);
      TakenAfter(q, txn, w, front);
    }
  }

  lemma {:induction false} AtomicPrefix(q: Tables, jobs: seq<Job>, w: WorkerId, retired: seq<RunId>, now: int)
    requires |retired| <= |jobs|
    requires forall k :: 0 <= k < |retired| ==> jobs[k].id == retired[k] && jobs[k].action == Quarantine(w)
    ensures Atomically(q, jobs[..|retired|], now) == QuarantineAll(q, retired, w, now)
  {
    if retired != [] {
      var n := |retired|;
      AtomicPrefix(q, jobs, w, retired[..n - 1], now);
      assert jobs[..n][..n - 1] == jobs[..n - 1];
    }
  }

  lemma AtomicIsAfterClaim(q: Tables, jobs: seq<Job>, w: WorkerId, retired: seq<RunId>, picked: Option<RunId>, now: int)
    requires ClaimJobs(jobs, w, retired, picked)
    ensures Atomically(q, jobs, now) == AfterClaim(q, w, now, retired, picked)
  {
    AtomicPrefix(q, jobs, w, retired, now);
    if picked.Some? {
      assert jobs[..|jobs| - 1] == jobs[..|retired|];
    } else {
      assert jobs == jobs[..|retired|];
    }
  }

  lemma RetiredJobs(q: Tables, txn: Txn, w: WorkerId, retired: seq<RunId>, picked: Option<RunId>)
    requires JobsDistinct(txn.jobs) && ClaimJobs(txn.jobs, w, retired, picked)
    requires forall k :: 0 <= k < |txn.jobs| ==> JobInv(q, txn.now, txn.jobs[k])
    ensures Retires(q, txn, w, retired) && (picked.Some? ==> picked.value !in retired)
  {
  }

  // A claim answers None after a full quarantine, or when its last statement finds no row.
  predicate NoneLeft(txn: Txn) {
    Claimable(txn.scan.view, txn.now, Considered(txn).passed) == {}
  }

  lemma NothingClaimable(q: Tables, txn: Txn, w: WorkerId, retired: seq<RunId>)
    requires WellKeyed(q) && Distinct(retired) && NoneLeft(txn)
    requires forall x :: x in retired ==> x in Claimable(q, txn.now, {})
    ensures Claimable(QuarantineAll(q, retired, w, txn.now), txn.now, Missed(q, Considered(txn))) == {}
  {
    var missed := Missed(q, Considered(txn));
    RetiringClaimable(q, w, txn.now, missed, retired);
    assert Claimable(q, txn.now, missed) <= Claimable(txn.scan.view, txn.now, Considered(txn).passed);
  }

  lemma CallOfJobs(q: Tables, txn: Txn, w: WorkerId, retired: seq<RunId>, picked: Option<RunId>, maxQuarantined: int)
    requires WellKeyed(q) && JobsDistinct(txn.jobs) && ClaimJobs(txn.jobs, w, retired, picked)
    requires |txn.jobs| <= maxQuarantined
    requires picked.None? ==> |retired| == maxQuarantined || NoneLeft(txn)
    requires forall k :: 0 <= k < |txn.jobs| ==> JobInv(q, txn.now, txn.jobs[k])
    ensures ClaimCall(q, w, txn.now, ClaimLocks(q, txn), maxQuarantined, retired, picked)
  {
    RetiredJobs(q, txn, w, retired, picked);
    RetiresClaimable(q, txn, w, retired);
    TakenArePoisoned(q, txn, w, retired);
    if picked.Some? {
      TakenAfter(q, txn, w, retired);
    } else if NoneLeft(txn) {
      NothingClaimable(q, txn, w, retired);
    }
  }

  // A claim whose statements ran one at a time, in any interleaving, commits exactly one atomic claim,
  // whose statements find locked what those of the transaction missed: rows that another transaction held
  // when they came by, or that changed after their snapshot.
  lemma ClaimRefinesAtomic(states: seq<Shared>, steps: seq<MicroStep>, i: nat, t: TxnId, w: WorkerId,
                           retired: seq<RunId>, picked: Option<RunId>, maxQuarantined: int)
    requires MicroExecution(states, steps) && i < |steps| && steps[i] == Commit(t)
    requires ClaimJobs(states[i].txns[t].jobs, w, retired, picked) && |states[i].txns[t].jobs| <= maxQuarantined
    requires picked.None? ==> |retired| == maxQuarantined || NoneLeft(states[i].txns[t])
    ensures var q, txn := states[i].q, states[i].txns[t];
            && ClaimCall(q, w, txn.now, ClaimLocks(q, txn), maxQuarantined, retired, picked)
            && states[i + 1].q == AfterClaim(q, w, txn.now, retired, picked)
  {
    MicroExecutionKeepsInv(states, steps, i);
    var s, txn := states[i], states[i].txns[t];
    CommitKeepsInv(s, t);
    assert TxnInv(s, t, txn);
    CallOfJobs(s.q, txn, w, retired, picked, maxQuarantined);
    AtomicIsAfterClaim(s.q, txn.jobs, w, retired, picked, txn.now);
  }
}
