// The three tables of the store, the order in which it picks rows, and its multi-row transactions.
module Queue {
  import opened Prelude
  import opened Retry
  import opened Runs
  import opened Cells

  datatype Tables = Tables(runs: map<RunId, Row>, events: map<RunId, seq<Event>>, outbox: map<RunId, Item>)

  ghost predicate WellKeyed(q: Tables) {
    q.events.Keys == q.runs.Keys && q.outbox.Keys <= q.runs.Keys
  }

  function Get(q: Tables, id: RunId): Cell
    requires id in q.runs && id in q.events
  {
    Cell(q.runs[id], q.events[id], if id in q.outbox then Some(q.outbox[id]) else None)
  }

  function Put(q: Tables, id: RunId, c: Cell): Tables {
    Tables(q.runs[id := c.row], q.events[id := c.log],
           if c.item.Some? then q.outbox[id := c.item.value] else q.outbox)
  }

  // One single-run transaction; an unknown run changes nothing.
  function On(q: Tables, id: RunId, a: Action, now: int): Tables {
    if id in q.runs && id in q.events then Put(q, id, Apply(Get(q, id), a, now)) else q
  }

  ghost predicate Allowed(q: Tables, id: RunId, a: Action, now: int) {
    id in q.runs && id in q.events && Guard(Get(q, id), a, now)
  }

  lemma PutFrame(q: Tables, id: RunId, c: Cell)
    requires WellKeyed(q) && id in q.runs && (id in q.outbox ==> c.item.Some?)
    ensures WellKeyed(Put(q, id, c)) && Put(q, id, c).runs.Keys == q.runs.Keys
    ensures forall x :: x in q.runs ==> Get(Put(q, id, c), x) == if x == id then c else Get(q, x)
  {
  }

  lemma ItemStays(c: Cell, a: Action, now: int)
    ensures c.item.Some? ==> Apply(c, a, now).item.Some?
  {
  }

  lemma OnFrame(q: Tables, id: RunId, a: Action, now: int)
    requires WellKeyed(q) && id in q.runs
    ensures WellKeyed(On(q, id, a, now))
    ensures On(q, id, a, now).runs.Keys == q.runs.Keys
    ensures forall x :: x in q.runs ==>
              Get(On(q, id, a, now), x) == if x == id then Apply(Get(q, id), a, now) else Get(q, x)
  {
    ItemStays(Get(q, id), a, now);
    PutFrame(q, id, Apply(Get(q, id), a, now));
  }

  lemma OnRefused(q: Tables, id: RunId, a: Action, now: int)
    ensures !Allowed(q, id, a, now) ==> On(q, id, a, now) == q
  {
    if id in q.runs && id in q.events {
      assert q.runs[id := q.runs[id]] == q.runs;
      assert q.events[id := q.events[id]] == q.events;
      if id in q.outbox {
        assert q.outbox[id := q.outbox[id]] == q.outbox;
      }
    }
  }

  // An action that leaves the outbox alone, column by column.
  lemma OnRunOnly(q: Tables, id: RunId, a: Action, now: int)
    requires Allowed(q, id, a, now)
    requires a.Start? || a.Quarantine? || a.Heartbeat? || a.Fail? || a.Recover? || a.LoseLease?
    ensures On(q, id, a, now) ==
            Tables(q.runs[id := RowAfter(q.runs[id], q.runs[id], a, now)],
                   if EventOf(q.runs[id], a).Some?
                   then q.events[id := Append(q.events[id], EventOf(q.runs[id], a).value, now)] else q.events,
                   q.outbox)
  {
    assert q.events[id := q.events[id]] == q.events;
    assert id in q.outbox ==> q.outbox[id := q.outbox[id]] == q.outbox;
  }

  // The same action on several runs, one after the other in one transaction.
  function OnAll(q: Tables, ids: seq<RunId>, a: Action, now: int): Tables {
    if ids == [] then q else On(OnAll(q, ids[..|ids| - 1], a, now), ids[|ids| - 1], a, now)
  }

  ghost predicate Known(q: Tables, ids: seq<RunId>) {
    forall x :: x in ids ==> x in q.runs
  }

  lemma {:induction false} OnAllFrame(q: Tables, ids: seq<RunId>, a: Action, now: int)
    requires WellKeyed(q) && Distinct(ids) && Known(q, ids)
    ensures WellKeyed(OnAll(q, ids, a, now)) && OnAll(q, ids, a, now).runs.Keys == q.runs.Keys
    ensures forall x :: x in q.runs ==>
              Get(OnAll(q, ids, a, now), x) == if x in ids then Apply(Get(q, x), a, now) else Get(q, x)
  {
    if ids != [] {
      var front, last := ids[..|ids| - 1], ids[|ids| - 1];
      SplitLast(ids);
      OnAllFrame(q, front, a, now);
      OnFrame(OnAll(q, front, a, now), last, a, now);
    }
  }

  // ---- claim ----------------------------------------------------------------------------------

  // ORDER BY available_at, created_at.
  predicate Before(a: Row, b: Row) {
    a.availableAt < b.availableAt || (a.availableAt == b.availableAt && a.createdAt < b.createdAt)
  }

  // Rows the claim statement considers; SKIP LOCKED passes over those other transactions hold.
  function Claimable(q: Tables, now: int, locked: set<RunId>): set<RunId> {
    set id | id in q.runs && id !in locked && Eligible(q.runs[id], now)
  }

  ghost predicate IsCandidate(q: Tables, now: int, locked: set<RunId>, id: RunId) {
    id in Claimable(q, now, locked)
    && forall x :: x in Claimable(q, now, locked) ==> !Before(q.runs[x], q.runs[id])
  }

  // The decoder sees the row as the claim statement returned it.
  predicate Decodes(id: RunId, row: Row, worker: WorkerId, now: int) {
    DecodeClaimedRun(id, Claimed(row, worker, now), worker).Ok?
  }

  function TokenFor(id: RunId, row: Row, worker: WorkerId, now: int): ClaimedRun
    requires Decodes(id, row, worker, now)
  {
    DecodeClaimedRun(id, Claimed(row, worker, now), worker).value
  }

  function QuarantineAll(q: Tables, ids: seq<RunId>, worker: WorkerId, now: int): Tables {
    OnAll(q, ids, Quarantine(worker), now)
  }

  // The row locks that the i-th statement of a loop meets; past the list nobody holds any.
  function LocksAt(locks: seq<set<RunId>>, i: nat): set<RunId> {
    if i < |locks| then locks[i] else {}
  }

  // One call of claim: `retired` are the poison rows its loop met, in order; `picked` is its answer.
  // Each statement of the loop meets locks of its own.
  ghost predicate ClaimCall(q: Tables, worker: WorkerId, now: int, locks: seq<set<RunId>>, maxQuarantined: int,
                            retired: seq<RunId>, picked: Option<RunId>) {
    && 0 <= |retired| <= maxQuarantined
    && Poisoned(q, worker, now, locks, retired)
    && var rest, locked := QuarantineAll(q, retired, worker, now), LocksAt(locks, |retired|);
    && (picked.Some? ==>
          |retired| < maxQuarantined && IsCandidate(rest, now, locked, picked.value)
          && Decodes(picked.value, rest.runs[picked.value], worker, now))
    && (picked.None? ==> |retired| == maxQuarantined || Claimable(rest, now, locked) == {})
  }

  // Each poison row was the candidate left by those before it.
  ghost predicate Poisoned(q: Tables, worker: WorkerId, now: int, locks: seq<set<RunId>>, retired: seq<RunId>) {
    retired == []
    || var front, last := retired[..|retired| - 1], retired[|retired| - 1];
       && Poisoned(q, worker, now, locks, front)
       && var rest := QuarantineAll(q, front, worker, now);
       && IsCandidate(rest, now, LocksAt(locks, |front|), last) && !Decodes(last, rest.runs[last], worker, now)
  }

  function AfterClaim(q: Tables, worker: WorkerId, now: int, retired: seq<RunId>, picked: Option<RunId>): Tables {
    var rest := QuarantineAll(q, retired, worker, now);
    if picked.Some? then On(rest, picked.value, Start(worker), now) else rest
  }

  lemma {:induction false} CandidateExists(q: Tables, now: int, locked: set<RunId>, among: set<RunId>)
    returns (id: RunId)
    requires among <= Claimable(q, now, locked) && among != {}
    ensures id in among && forall x :: x in among ==> !Before(q.runs[x], q.runs[id])
    decreases |among|
  {
    id :| id in among;
    if among != {id} {
      var best := CandidateExists(q, now, locked, among - {id});
      if !Before(q.runs[id], q.runs[best]) {
        id := best;
      }
    }
  }

  // Retiring eligible rows removes exactly them from consideration and touches nothing else.
  lemma RetiringRows(q: Tables, worker: WorkerId, now: int, ids: seq<RunId>)
    requires WellKeyed(q) && Distinct(ids)
    requires forall x :: x in ids ==> x in Claimable(q, now, {})
    ensures var rest := QuarantineAll(q, ids, worker, now);
            && WellKeyed(rest) && rest.runs.Keys == q.runs.Keys
            && (forall x :: x in q.runs && x !in ids ==> Get(rest, x) == Get(q, x) && rest.runs[x] == q.runs[x])
            && (forall x :: x in q.runs && x in ids ==>
                  rest.runs[x].status == Failed && rest.runs[x].error == Some(InvalidPersistedConfiguration))
  {
    OnAllFrame(q, ids, Quarantine(worker), now);
    var rest := QuarantineAll(q, ids, worker, now);
    forall x | x in q.runs
      ensures x in ids ==> rest.runs[x].status == Failed && rest.runs[x].error == Some(InvalidPersistedConfiguration)
      ensures x !in ids ==> rest.runs[x] == q.runs[x]
    {
      assert rest.runs[x] == Get(rest, x).row;
    }
  }

  lemma RetiringClaimable(q: Tables, worker: WorkerId, now: int, locked: set<RunId>, ids: seq<RunId>)
    requires WellKeyed(q) && Distinct(ids)
    requires forall x :: x in ids ==> x in Claimable(q, now, {})
    ensures var rest := QuarantineAll(q, ids, worker, now);
            forall x :: x in Claimable(rest, now, locked) <==> x in Claimable(q, now, locked) && x !in ids
  {
    RetiringRows(q, worker, now, ids);
  }

  // x is a poison row with no better candidate outside ids.
  ghost predicate PoisonRow(q: Tables, worker: WorkerId, now: int, locked: set<RunId>, ids: seq<RunId>, x: RunId) {
    && x in Claimable(q, now, locked) && !Decodes(x, q.runs[x], worker, now)
    && forall y :: y in Claimable(q, now, locked) && Before(q.runs[y], q.runs[x]) ==> y in ids
  }

  ghost predicate PoisonRows(q: Tables, worker: WorkerId, now: int, locks: seq<set<RunId>>, retired: seq<RunId>) {
    && Distinct(retired)
    && (forall x :: x in retired ==> x in Claimable(q, now, {}) && !Decodes(x, q.runs[x], worker, now))
    && forall i :: 0 <= i < |retired| ==> PoisonRow(q, worker, now, LocksAt(locks, i), retired, retired[i])
  }

  lemma {:induction false} PoisonIsClaimable(q: Tables, worker: WorkerId, now: int, locks: seq<set<RunId>>,
                                             retired: seq<RunId>)
    requires WellKeyed(q) && Poisoned(q, worker, now, locks, retired)
    ensures PoisonRows(q, worker, now, locks, retired)
  {
    if retired != [] {
      var front, last := retired[..|retired| - 1], retired[|retired| - 1];
      PoisonIsClaimable(q, worker, now, locks, front);
      NextPoison(q, worker, now, locks, front, last);
      assert retired == front + [last];
    }
  }

  lemma NextPoison(q: Tables, worker: WorkerId, now: int, locks: seq<set<RunId>>, front: seq<RunId>, last: RunId)
    requires WellKeyed(q) && PoisonRows(q, worker, now, locks, front)
    requires var rest := QuarantineAll(q, front, worker, now);
             IsCandidate(rest, now, LocksAt(locks, |front|), last) && !Decodes(last, rest.runs[last], worker, now)
    ensures PoisonRows(q, worker, now, locks, front + [last])
  {
    RetiringRows(q, worker, now, front);
    RetiringClaimable(q, worker, now, LocksAt(locks, |front|), front);
    var mid := QuarantineAll(q, front, worker, now);
    assert last in Claimable(mid, now, LocksAt(locks, |front|));
    DistinctSnoc(front, last);
    PoisonRowSnoc(q, mid, worker, now, locks, front, last);
  }

  lemma PoisonRowSnoc(q: Tables, mid: Tables, worker: WorkerId, now: int, locks: seq<set<RunId>>,
                      front: seq<RunId>, last: RunId)
    requires var locked := LocksAt(locks, |front|);
             && (forall x :: x in Claimable(mid, now, locked) <==> x in Claimable(q, now, locked) && x !in front)
             && IsCandidate(mid, now, locked, last) && !Decodes(last, mid.runs[last], worker, now)
    requires forall x :: x in q.runs && x !in front ==> x in mid.runs && mid.runs[x] == q.runs[x]
    requires forall i :: 0 <= i < |front| ==> PoisonRow(q, worker, now, LocksAt(locks, i), front, front[i])
    ensures var all := front + [last];
            && last in Claimable(q, now, {}) && !Decodes(last, q.runs[last], worker, now)
            && forall i :: 0 <= i < |all| ==> PoisonRow(q, worker, now, LocksAt(locks, i), all, all[i])
  {
    var all, locked := front + [last], LocksAt(locks, |front|);
    assert last in Claimable(mid, now, locked);
    forall y | y in Claimable(q, now, locked) && Before(q.runs[y], q.runs[last])
      ensures y in front
    {
      assert y !in front ==> y in Claimable(mid, now, locked);
    }
    forall i | 0 <= i < |all|
      ensures PoisonRow(q, worker, now, LocksAt(locks, i), all, all[i])
    {
      if i < |front| {
        assert PoisonRow(q, worker, now, LocksAt(locks, i), front, front[i]);
      }
    }
  }

  lemma StartingPicked(q: Tables, worker: WorkerId, now: int, id: RunId)
    requires WellKeyed(q) && id in q.runs && Eligible(q.runs[id], now)
    ensures var done := On(q, id, Start(worker), now);
            && WellKeyed(done) && done.runs.Keys == q.runs.Keys
            && done.runs[id] == Claimed(q.runs[id], worker, now)
            && forall x :: x in q.runs && x != id ==> Get(done, x) == Get(q, x) && done.runs[x] == q.runs[x]
  {
    OnFrame(q, id, Start(worker), now);
  }

  lemma ClaimFrame(q: Tables, worker: WorkerId, now: int, locks: seq<set<RunId>>, maxQuarantined: int,
                   retired: seq<RunId>, picked: Option<RunId>)
    requires WellKeyed(q) && ClaimCall(q, worker, now, locks, maxQuarantined, retired, picked)
    ensures var rest := QuarantineAll(q, retired, worker, now);
            var done := AfterClaim(q, worker, now, retired, picked);
            && WellKeyed(done) && done.runs.Keys == q.runs.Keys && WellKeyed(rest) && rest.runs.Keys == q.runs.Keys
            && (picked.Some? ==> picked.value in Claimable(q, now, LocksAt(locks, |retired|))
                                 && picked.value !in retired
                                 && done.runs[picked.value] == Claimed(q.runs[picked.value], worker, now))
            && (forall x :: x in q.runs && Some(x) != picked ==>
                  Get(done, x) == Get(rest, x) && done.runs[x] == rest.runs[x])
  {
    PoisonIsClaimable(q, worker, now, locks, retired);
    RetiringRows(q, worker, now, retired);
    RetiringClaimable(q, worker, now, LocksAt(locks, |retired|), retired);
    if picked.Some? {
      StartingPicked(QuarantineAll(q, retired, worker, now), worker, now, picked.value);
    }
  }

  lemma CandidateOutside(q: Tables, rest: Tables, now: int, locked: set<RunId>, retired: seq<RunId>, id: RunId)
    requires IsCandidate(rest, now, locked, id)
    requires forall x :: x in Claimable(rest, now, locked) <==> x in Claimable(q, now, locked) && x !in retired
    requires forall x :: x in q.runs && x !in retired ==> x in rest.runs && rest.runs[x] == q.runs[x]
    ensures id in Claimable(q, now, locked) && id !in retired && rest.runs[id] == q.runs[id]
    ensures forall x :: x in Claimable(q, now, locked) && Before(q.runs[x], q.runs[id]) ==> x in retired
  {
    forall x | x in Claimable(q, now, locked) && Before(q.runs[x], q.runs[id])
      ensures x in retired
    {
      assert x !in retired ==> x in Claimable(rest, now, locked);
    }
  }

  lemma PickedIsMinimal(q: Tables, worker: WorkerId, now: int, locks: seq<set<RunId>>, maxQuarantined: int,
                        retired: seq<RunId>, id: RunId)
    requires WellKeyed(q) && ClaimCall(q, worker, now, locks, maxQuarantined, retired, Some(id))
    ensures var locked := LocksAt(locks, |retired|);
            && id in Claimable(q, now, locked) && Decodes(id, q.runs[id], worker, now)
            && (forall x :: x in Claimable(q, now, locked) && Before(q.runs[x], q.runs[id]) ==> x in retired)
            && forall x :: x in Claimable(q, now, locked) && Decodes(x, q.runs[x], worker, now) ==>
                 !Before(q.runs[x], q.runs[id])
  {
    PoisonIsClaimable(q, worker, now, locks, retired);
    RetiringRows(q, worker, now, retired);
    RetiringClaimable(q, worker, now, LocksAt(locks, |retired|), retired);
    CandidateOutside(q, QuarantineAll(q, retired, worker, now), now, LocksAt(locks, |retired|), retired, id);
  }

  // The contract of claim, free of its loop: the run it returns decodes and is minimal in
  // (available_at, created_at) among the decodable rows its last statement found unlocked; every such
  // row strictly before it did not decode and is now failed, and so is every row retired on the way,
  // each the first of what its own statement found unlocked; None means that nothing was left or that
  // the quarantine is full.
  lemma ClaimContract(q: Tables, worker: WorkerId, now: int, locks: seq<set<RunId>>, maxQuarantined: int,
                      retired: seq<RunId>, picked: Option<RunId>)
    requires WellKeyed(q) && ClaimCall(q, worker, now, locks, maxQuarantined, retired, picked)
    ensures var done := AfterClaim(q, worker, now, retired, picked);
            && WellKeyed(done) && done.runs.Keys == q.runs.Keys
            && (forall x :: x in q.runs && x in retired ==>
                  && x in Claimable(q, now, {}) && !Decodes(x, q.runs[x], worker, now)
                  && done.runs[x].status == Failed && done.runs[x].error == Some(InvalidPersistedConfiguration))
            && (forall x :: x in q.runs && x !in retired && Some(x) != picked ==> Get(done, x) == Get(q, x))
    ensures PoisonRows(q, worker, now, locks, retired)
    ensures picked.Some? ==>
              var locked := LocksAt(locks, |retired|);
              && picked.value in Claimable(q, now, locked) && Decodes(picked.value, q.runs[picked.value], worker, now)
              && AfterClaim(q, worker, now, retired, picked).runs[picked.value]
                  == Claimed(q.runs[picked.value], worker, now)
              && (forall x :: x in Claimable(q, now, locked) && Before(q.runs[x], q.runs[picked.value]) ==>
                    x in retired)
              && (forall x :: x in Claimable(q, now, locked) && Decodes(x, q.runs[x], worker, now) ==>
                    !Before(q.runs[x], q.runs[picked.value]))
    ensures picked.None? ==>
              |Elements(retired)| == maxQuarantined
              || Claimable(AfterClaim(q, worker, now, retired, picked), now, LocksAt(locks, |retired|)) == {}
  {
    ClaimFrame(q, worker, now, locks, maxQuarantined, retired, picked);
    PoisonIsClaimable(q, worker, now, locks, retired);
    RetiringRows(q, worker, now, retired);
    DistinctCardinality(retired);
    if picked.Some? {
      PickedIsMinimal(q, worker, now, locks, maxQuarantined, retired, picked.value);
    }
  }

  // The order of claim, on the columns: each run it retires, and the one it starts, was queued, available
  // and had attempts left, and is no later by (available_at, created_at) than any other such run that its
  // statement found unlocked and the call does not retire.
  lemma ClaimOrder(q: Tables, worker: WorkerId, now: int, locks: seq<set<RunId>>, maxQuarantined: int,
                   retired: seq<RunId>, picked: Option<RunId>, i: nat, x: RunId)
    requires WellKeyed(q) && ClaimCall(q, worker, now, locks, maxQuarantined, retired, picked)
    requires i < |retired| || (i == |retired| && picked.Some?)
    ensures var first := if i < |retired| then retired[i] else picked.value;
            && first in q.runs && q.runs[first].status == Queued
            && q.runs[first].availableAt <= now && q.runs[first].attempts < q.runs[first].spec.maxAttempts
            && first !in LocksAt(locks, i)
            && (x in q.runs && x !in LocksAt(locks, i) && x !in retired && q.runs[x].status == Queued
                && q.runs[x].availableAt <= now && q.runs[x].attempts < q.runs[x].spec.maxAttempts ==>
                  || q.runs[first].availableAt < q.runs[x].availableAt
                  || (q.runs[first].availableAt == q.runs[x].availableAt
                      && q.runs[first].createdAt <= q.runs[x].createdAt))
  {
    PoisonIsClaimable(q, worker, now, locks, retired);
    if i < |retired| {
      assert PoisonRow(q, worker, now, LocksAt(locks, i), retired, retired[i]);
    } else {
      PickedIsMinimal(q, worker, now, locks, maxQuarantined, retired, picked.value);
    }
    if x in q.runs && x !in LocksAt(locks, i) && Eligible(q.runs[x], now) {
      assert x in Claimable(q, now, LocksAt(locks, i));
    }
  }

  // A claim that answers None before its quarantine is full has left nothing behind.
  lemma EmptyClaim(q: Tables, worker: WorkerId, now: int, locks: seq<set<RunId>>, maxQuarantined: int,
                   retired: seq<RunId>, x: RunId)
    requires WellKeyed(q) && ClaimCall(q, worker, now, locks, maxQuarantined, retired, None)
    requires |retired| < maxQuarantined
    requires x in q.runs && q.runs[x].status == Queued && q.runs[x].availableAt <= now
    requires q.runs[x].attempts < q.runs[x].spec.maxAttempts
    ensures x in retired || x in LocksAt(locks, |retired|)
  {
    PoisonIsClaimable(q, worker, now, locks, retired);
    RetiringClaimable(q, worker, now, LocksAt(locks, |retired|), retired);
  }

  // A call always has an outcome.
  lemma {:induction false} ClaimCallFrom(q: Tables, worker: WorkerId, now: int, locks: seq<set<RunId>>,
                                         maxQuarantined: nat,
                                         front: seq<RunId>) returns (retired: seq<RunId>, picked: Option<RunId>)
    requires |front| <= maxQuarantined && Poisoned(q, worker, now, locks, front)
    ensures ClaimCall(q, worker, now, locks, maxQuarantined, retired, picked)
    ensures |retired| >= |front|
    ensures |retired| > |front| || picked.Some? || |front| == maxQuarantined
            || Claimable(QuarantineAll(q, front, worker, now), now, LocksAt(locks, |front|)) == {}
    decreases maxQuarantined - |front|
  {
    retired, picked := front, None;
    var rest, locked := QuarantineAll(q, front, worker, now), LocksAt(locks, |front|);
    if |front| < maxQuarantined && Claimable(rest, now, locked) != {} {
      var id := CandidateExists(rest, now, locked, Claimable(rest, now, locked));
      if Decodes(id, rest.runs[id], worker, now) {
        picked := Some(id);
      } else {
        assert (front + [id])[..|front|] == front;
        retired, picked := ClaimCallFrom(q, worker, now, locks, maxQuarantined, front + [id]);
      }
    }
  }

  // Poison rows that stand in the way of a decodable row d.
  function Ahead(q: Tables, worker: WorkerId, now: int, d: RunId): set<RunId>
    requires d in q.runs
  {
    set x | x in Claimable(q, now, {}) && !Decodes(x, q.runs[x], worker, now) && !Before(q.runs[d], q.runs[x])
  }

  lemma AheadShrinks(q: Tables, done: Tables, worker: WorkerId, now: int, retired: seq<RunId>, d: RunId)
    requires d in q.runs && d in done.runs && d !in retired && done.runs[d] == q.runs[d]
    requires forall x :: x in Claimable(done, now, {}) <==> x in Claimable(q, now, {}) && x !in retired
    requires forall x :: x in q.runs && x !in retired ==> x in done.runs && done.runs[x] == q.runs[x]
    requires forall x :: x in retired ==> x in Ahead(q, worker, now, d)
    requires Distinct(retired)
    ensures |Ahead(done, worker, now, d)| == |Ahead(q, worker, now, d)| - |retired|
  {
    DistinctCardinality(retired);
    assert Ahead(done, worker, now, d) == Ahead(q, worker, now, d) - Elements(retired);
  }

  ghost predicate NeverLocked(locks: seq<set<RunId>>, d: RunId) {
    forall i: nat :: d !in LocksAt(locks, i)
  }

  // A call that answers None although d could be claimed has cleared a full batch of the poison ahead of d.
  lemma EmptyCallClearsBatch(q: Tables, worker: WorkerId, now: int, locks: seq<set<RunId>>, maxQuarantined: int,
                             retired: seq<RunId>, d: RunId)
    requires WellKeyed(q) && ClaimCall(q, worker, now, locks, maxQuarantined, retired, None) && NeverLocked(locks, d)
    requires d in Claimable(q, now, {}) && Decodes(d, q.runs[d], worker, now)
    ensures var done := AfterClaim(q, worker, now, retired, None);
            && WellKeyed(done) && d in Claimable(done, now, {}) && Decodes(d, done.runs[d], worker, now)
            && |Ahead(done, worker, now, d)| == |Ahead(q, worker, now, d)| - maxQuarantined
  {
    PoisonIsClaimable(q, worker, now, locks, retired);
    RetiringRows(q, worker, now, retired);
    RetiringClaimable(q, worker, now, {}, retired);
    RetiringClaimable(q, worker, now, LocksAt(locks, |retired|), retired);
    var done := QuarantineAll(q, retired, worker, now);
    assert d !in retired && d in Claimable(done, now, LocksAt(locks, |retired|));
    forall x | x in retired
      ensures x in Ahead(q, worker, now, d)
    {
      var i :| 0 <= i < |retired| && retired[i] == x;
      assert PoisonRow(q, worker, now, LocksAt(locks, i), retired, x);
      assert d in Claimable(q, now, LocksAt(locks, i));
    }
    AheadShrinks(q, done, worker, now, retired, d);
  }

  // Successive calls on one backlog, each answering None though nobody locked d.
  ghost predicate EmptyCall(q: Tables, done: Tables, worker: WorkerId, now: int, maxQuarantined: int, d: RunId) {
    exists locks, retired ::
      NeverLocked(locks, d) && ClaimCall(q, worker, now, locks, maxQuarantined, retired, None)
      && done == AfterClaim(q, worker, now, retired, None)
  }

  lemma EmptyCallCount(q: Tables, done: Tables, worker: WorkerId, now: int, maxQuarantined: int, d: RunId)
    requires WellKeyed(q) && EmptyCall(q, done, worker, now, maxQuarantined, d)
    requires d in Claimable(q, now, {}) && Decodes(d, q.runs[d], worker, now)
    ensures WellKeyed(done) && d in Claimable(done, now, {}) && Decodes(d, done.runs[d], worker, now)
    ensures |Ahead(done, worker, now, d)| == |Ahead(q, worker, now, d)| - maxQuarantined
  {
    var locks, retired :|
      NeverLocked(locks, d) && ClaimCall(q, worker, now, locks, maxQuarantined, retired, None)
      && done == AfterClaim(q, worker, now, retired, None);
    EmptyCallClearsBatch(q, worker, now, locks, maxQuarantined, retired, d);
  }

  lemma {:induction false} EmptyCallsCount(qs: seq<Tables>, worker: WorkerId, now: int, maxQuarantined: int, d: RunId,
                                           n: nat)
    requires n < |qs| && WellKeyed(qs[0])
    requires d in Claimable(qs[0], now, {}) && Decodes(d, qs[0].runs[d], worker, now)
    requires forall i :: 0 < i < |qs| ==> EmptyCall(qs[i - 1], qs[i], worker, now, maxQuarantined, d)
    ensures WellKeyed(qs[n]) && d in Claimable(qs[n], now, {}) && Decodes(d, qs[n].runs[d], worker, now)
    ensures |Ahead(qs[n], worker, now, d)| == |Ahead(qs[0], worker, now, d)| - n * maxQuarantined
  {
    if n > 0 {
      EmptyCallsCount(qs, worker, now, maxQuarantined, d, n - 1);
      EmptyCallCount(qs[n - 1], qs[n], worker, now, maxQuarantined, d);
      MulStep(n - 1, maxQuarantined);
    }
  }

  lemma MulStep(n: int, m: int)
    ensures (n + 1) * m == n * m + m
  {
  }

  lemma MulGrows(k: int, m: int)
    requires m >= 1
    ensures k >= 1 ==> k * m >= m
  {
  }

  lemma QuotientBound(n: int, m: int, p: int)
    requires m >= 1 && n * m <= p
    ensures n <= p / m
  {
    assert (n - p / m) * m == n * m - p / m * m;
    MulGrows(n - p / m, m);
  }

  // p poison rows ahead of a decodable row that nobody locks are cleared within
  // floor(p / max_quarantined) + 1 calls, whatever else is locked: at most floor(p / max_quarantined)
  // of them answer None.
  lemma PoisonBacklogClears(qs: seq<Tables>, worker: WorkerId, now: int, maxQuarantined: int, d: RunId)
    requires |qs| >= 1 && WellKeyed(qs[0]) && maxQuarantined >= 1
    requires d in Claimable(qs[0], now, {}) && Decodes(d, qs[0].runs[d], worker, now)
    requires forall i :: 0 < i < |qs| ==> EmptyCall(qs[i - 1], qs[i], worker, now, maxQuarantined, d)
    ensures |qs| - 1 <= |Ahead(qs[0], worker, now, d)| / maxQuarantined
  {
    EmptyCallsCount(qs, worker, now, maxQuarantined, d, |qs| - 1);
    QuotientBound(|qs| - 1, maxQuarantined, |Ahead(qs[0], worker, now, d)|);
  }

  // ---- claim_summary --------------------------------------------------------------------------

  predicate ItemBefore(a: Item, b: Item) {
    a.availableAt < b.availableAt || (a.availableAt == b.availableAt && a.createdAt < b.createdAt)
  }

  function ClaimableItems(q: Tables, now: int, staleSeconds: int, locked: set<RunId>): set<RunId> {
    set id | id in q.outbox && id !in locked && ItemEligible(q.outbox[id], now, staleSeconds)
  }

  ghost predicate IsItemCandidate(q: Tables, now: int, staleSeconds: int, locked: set<RunId>, id: RunId) {
    id in ClaimableItems(q, now, staleSeconds, locked)
    && forall x :: x in ClaimableItems(q, now, staleSeconds, locked) ==> !ItemBefore(q.outbox[x], q.outbox[id])
  }

  lemma {:induction false} ItemCandidateExists(q: Tables, among: set<RunId>) returns (id: RunId)
    requires among <= q.outbox.Keys && among != {}
    ensures id in among && forall x :: x in among ==> !ItemBefore(q.outbox[x], q.outbox[id])
    decreases |among|
  {
    id :| id in among;
    if among != {id} {
      var best := ItemCandidateExists(q, among - {id});
      if !ItemBefore(q.outbox[id], q.outbox[best]) {
        id := best;
      }
    }
  }

  function ItemTaken(q: Tables, id: RunId, worker: WorkerId, staleSeconds: int, now: int): Tables {
    On(q, id, ClaimItem(worker, staleSeconds), now)
  }

  predicate ItemDecodes(id: RunId, item: Item, worker: WorkerId) {
    DecodeSummaryItem(id, item, worker).Ok?
  }

  // The outbox after the loop of claim_summary claimed and rejected the given items.
  function RejectAll(q: Tables, ids: seq<RunId>, worker: WorkerId, staleSeconds: int, now: int): Tables {
    if ids == [] then q
    else
      var id := ids[|ids| - 1];
      On(ItemTaken(RejectAll(q, ids[..|ids| - 1], worker, staleSeconds, now), id, worker, staleSeconds, now),
         id, RejectItem(worker), now)
  }

  ghost predicate RejectsPoison(q: Tables, worker: WorkerId, staleSeconds: int, now: int, locked: set<RunId>,
                                ids: seq<RunId>) {
    ids == []
    || var front, last := ids[..|ids| - 1], ids[|ids| - 1];
       && RejectsPoison(q, worker, staleSeconds, now, locked, front)
       && var rest := RejectAll(q, front, worker, staleSeconds, now);
       && IsItemCandidate(rest, now, staleSeconds, locked, last)
       && var taken := ItemTaken(rest, last, worker, staleSeconds, now);
       && last in taken.outbox && !ItemDecodes(last, taken.outbox[last], worker)
  }

  // Exactly the given items were completed with an error.
  ghost predicate OnlyRejects(q: Tables, d: Tables, ids: seq<RunId>, now: int) {
    && WellKeyed(d) && d.runs == q.runs && d.events == q.events && d.outbox.Keys == q.outbox.Keys
    && (forall x :: x in ids ==>
          && x in q.outbox && d.outbox[x].completedAt == Some(now)
          && d.outbox[x].lastError == Some(InvalidPersistedConfiguration))
    && forall x :: x in q.outbox && x !in ids ==> d.outbox[x] == q.outbox[x]
  }

  lemma RejectingItem(q: Tables, worker: WorkerId, staleSeconds: int, now: int, id: RunId)
    requires WellKeyed(q) && id in q.outbox && ItemEligible(q.outbox[id], now, staleSeconds)
    ensures OnlyRejects(q, On(ItemTaken(q, id, worker, staleSeconds, now), id, RejectItem(worker), now), [id], now)
  {
  }

  lemma RejectsJoin(q: Tables, mid: Tables, d: Tables, front: seq<RunId>, last: RunId, now: int)
    requires OnlyRejects(q, mid, front, now) && OnlyRejects(mid, d, [last], now)
    ensures OnlyRejects(q, d, front + [last], now)
  {
    assert last in [last];
  }

  lemma {:induction false} RejectingItems(q: Tables, worker: WorkerId, staleSeconds: int, now: int, locked: set<RunId>,
                                          ids: seq<RunId>)
    requires WellKeyed(q) && RejectsPoison(q, worker, staleSeconds, now, locked, ids)
    ensures OnlyRejects(q, RejectAll(q, ids, worker, staleSeconds, now), ids, now)
  {
    if ids != [] {
      var front, last := ids[..|ids| - 1], ids[|ids| - 1];
      assert ids == front + [last];
      RejectingItems(q, worker, staleSeconds, now, locked, front);
      var mid := RejectAll(q, front, worker, staleSeconds, now);
      RejectingItem(mid, worker, staleSeconds, now, last);
      RejectsJoin(q, mid, RejectAll(q, ids, worker, staleSeconds, now), front, last, now);
    }
  }

  lemma {:induction false} RejectedAtTurn(q: Tables, worker: WorkerId, staleSeconds: int, now: int, locked: set<RunId>,
                                          ids: seq<RunId>, i: nat)
    requires RejectsPoison(q, worker, staleSeconds, now, locked, ids) && i < |ids|
    ensures RejectsPoison(q, worker, staleSeconds, now, locked, ids[..i])
    ensures IsItemCandidate(RejectAll(q, ids[..i], worker, staleSeconds, now), now, staleSeconds, locked, ids[i])
    decreases |ids|
  {
    if i < |ids| - 1 {
      RejectedAtTurn(q, worker, staleSeconds, now, locked, ids[..|ids| - 1], i);
      assert ids[..|ids| - 1][..i] == ids[..i];
    }
  }

  // The order of claim_summary, on the columns: each item it rejects, and the one it takes, was open,
  // available, unlocked and unclaimed or claimed too long ago, and is no later by (available_at, created_at)
  // than any other such item not rejected before it.
  lemma SummaryOrder(q: Tables, worker: WorkerId, staleSeconds: int, now: int, locked: set<RunId>,
                     rejected: seq<RunId>, taken: Option<RunId>, i: nat, x: RunId)
    requires WellKeyed(q) && RejectsPoison(q, worker, staleSeconds, now, locked, rejected)
    requires var rest := RejectAll(q, rejected, worker, staleSeconds, now);
             taken.Some? ==> IsItemCandidate(rest, now, staleSeconds, locked, taken.value)
    requires i < |rejected| || (i == |rejected| && taken.Some?)
    ensures var first := if i < |rejected| then rejected[i] else taken.value;
            && first in q.outbox && first !in locked && first !in rejected[..i]
            && q.outbox[first].completedAt == None && q.outbox[first].availableAt <= now
            && (q.outbox[first].claimedAt.Some? ==> q.outbox[first].claimedAt.value < now - staleSeconds)
            && (x in q.outbox && x !in locked && x !in rejected[..i] && q.outbox[x].completedAt == None
                && q.outbox[x].availableAt <= now
                && (q.outbox[x].claimedAt.Some? ==> q.outbox[x].claimedAt.value < now - staleSeconds) ==>
                  || q.outbox[first].availableAt < q.outbox[x].availableAt
                  || (q.outbox[first].availableAt == q.outbox[x].availableAt
                      && q.outbox[first].createdAt <= q.outbox[x].createdAt))
  {
    if i < |rejected| {
      RejectedAtTurn(q, worker, staleSeconds, now, locked, rejected, i);
    } else {
      assert rejected[..i] == rejected;
    }
    var first := if i < |rejected| then rejected[i] else taken.value;
    var rest := RejectAll(q, rejected[..i], worker, staleSeconds, now);
    RejectingItems(q, worker, staleSeconds, now, locked, rejected[..i]);
    assert first in ClaimableItems(rest, now, staleSeconds, locked);
    if x in q.outbox && x !in rejected[..i] && x !in locked && ItemEligible(q.outbox[x], now, staleSeconds) {
      assert x in ClaimableItems(rest, now, staleSeconds, locked);
    }
  }

  // When nothing is left for claim_summary, every such item was rejected or locked.
  lemma EmptySummaryClaim(q: Tables, worker: WorkerId, staleSeconds: int, now: int, locked: set<RunId>,
                          rejected: seq<RunId>, x: RunId)
    requires WellKeyed(q) && RejectsPoison(q, worker, staleSeconds, now, locked, rejected)
    requires ClaimableItems(RejectAll(q, rejected, worker, staleSeconds, now), now, staleSeconds, locked) == {}
    requires x in q.outbox && q.outbox[x].completedAt == None && q.outbox[x].availableAt <= now
    requires q.outbox[x].claimedAt.Some? ==> q.outbox[x].claimedAt.value < now - staleSeconds
    ensures x in rejected || x in locked
  {
    RejectingItems(q, worker, staleSeconds, now, locked, rejected);
    assert x !in ClaimableItems(RejectAll(q, rejected, worker, staleSeconds, now), now, staleSeconds, locked);
  }

  // ---- recover_stale --------------------------------------------------------------------------

  function StaleRuns(q: Tables, now: int, staleSeconds: int, locked: set<RunId>): set<RunId> {
    set id | id in q.runs && id !in locked && Stale(q.runs[id], now, staleSeconds)
  }

  // ORDER BY stale_at, id.
  predicate Older(q: Tables, a: RunId, b: RunId)
    requires a in q.runs && b in q.runs
  {
    StaleAt(q.runs[a]) < StaleAt(q.runs[b]) || (StaleAt(q.runs[a]) == StaleAt(q.runs[b]) && a <= b)
  }

  lemma {:induction false} FindOldest(q: Tables, ids: set<RunId>) returns (a: RunId)
    requires ids != {} && ids <= q.runs.Keys
    ensures a in ids && forall b :: b in ids ==> Older(q, a, b)
    decreases |ids|
  {
    a :| a in ids;
    if ids != {a} {
      var best := FindOldest(q, ids - {a});
      var x := a;
      a := if Older(q, best, x) then best else x;
      forall b | b in ids
        ensures Older(q, a, b)
      {
        assert b == x || b in ids - {x};
      }
    }
  }

  lemma OldestExists(q: Tables, ids: set<RunId>)
    requires ids != {} && ids <= q.runs.Keys
    ensures exists a :: a in ids && forall b :: b in ids ==> Older(q, a, b)
  {
    var a := FindOldest(q, ids);
  }

  function Oldest(q: Tables, ids: set<RunId>): (a: RunId)
    requires ids != {} && ids <= q.runs.Keys
    ensures a in ids && forall b :: b in ids ==> Older(q, a, b)
  {
    OldestExists(q, ids);
    var a :| a in ids && forall b :: b in ids ==> Older(q, a, b);
    a
  }

  // SELECT ... ORDER BY stale_at, id LIMIT limit.
  function Sorted(q: Tables, ids: set<RunId>, limit: nat): seq<RunId>
    requires ids <= q.runs.Keys
    decreases limit
  {
    if limit == 0 || ids == {} then []
    else
      var a := Oldest(q, ids);
      [a] + Sorted(q, ids - {a}, limit - 1)
  }

  lemma {:induction false} SortedFacts(q: Tables, ids: set<RunId>, limit: nat)
    requires ids <= q.runs.Keys
    ensures var s := Sorted(q, ids, limit);
            && Distinct(s) && Elements(s) <= ids && |s| == Min(limit, |ids|)
            && (forall i, j :: 0 <= i < j < |s| ==> Older(q, s[i], s[j]))
            && (forall i, b :: 0 <= i < |s| && b in ids && b !in s ==> Older(q, s[i], b))
    decreases limit
  {
    if limit > 0 && ids != {} {
      var a := Oldest(q, ids);
      var tail := Sorted(q, ids - {a}, limit - 1);
      SortedFacts(q, ids - {a}, limit - 1);
      assert forall j :: 0 <= j < |tail| ==> tail[j] in Elements(tail);
    }
  }

  predicate CountersOk(q: Tables, id: RunId) {
    id in q.runs && 1 <= q.runs[id].attempts <= q.runs[id].spec.maxAttempts
  }

  ghost predicate CountersOkUpTo(q: Tables, ids: seq<RunId>, n: nat)
    requires n <= |ids|
  {
    n == 0 || (CountersOkUpTo(q, ids, n - 1) && CountersOk(q, ids[n - 1]))
  }

  lemma {:induction false} CountersOkUpToIff(q: Tables, ids: seq<RunId>, n: nat)
    requires n <= |ids|
    ensures CountersOkUpTo(q, ids, n) <==> forall k :: 0 <= k < n ==> CountersOk(q, ids[k])
  {
    if n > 0 {
      CountersOkUpToIff(q, ids, n - 1);
    }
  }

  function StaleBatch(q: Tables, staleSeconds: int, batchSize: nat, now: int, locked: set<RunId>): seq<RunId> {
    Sorted(q, StaleRuns(q, now, staleSeconds, locked), batchSize)
  }

  // Recovery raises, and rolls back, when a selected row has impossible counters.
  function AfterRecovery(q: Tables, staleSeconds: int, batchSize: nat, now: int, locked: set<RunId>)
    : Result<Tables, Problem>
  {
    var ids := StaleBatch(q, staleSeconds, batchSize, now, locked);
    if forall id :: id in ids ==> CountersOk(q, id)
    then Ok(OnAll(q, ids, Recover(staleSeconds), now))
    else Err(InvalidCounters)
  }

  // How many of the selected runs recovery retries; the others it fails.
  function Retried(q: Tables, ids: seq<RunId>): nat {
    if ids == [] then 0
    else
      var id := ids[|ids| - 1];
      Retried(q, ids[..|ids| - 1]) + if id in q.runs && q.runs[id].attempts < q.runs[id].spec.maxAttempts then 1 else 0
  }

  lemma BatchIsOldest(q: Tables, staleSeconds: int, batchSize: nat, now: int, locked: set<RunId>)
    ensures var ids := StaleBatch(q, staleSeconds, batchSize, now, locked);
            var stale := StaleRuns(q, now, staleSeconds, locked);
            && Distinct(ids) && Elements(ids) <= stale && |Elements(ids)| == |ids| == Min(batchSize, |stale|)
            && (forall x :: x in ids ==> x in stale)
            && (forall a, b :: a in stale && a in ids && b in stale && b !in ids ==> Older(q, a, b))
  {
    var ids := StaleBatch(q, staleSeconds, batchSize, now, locked);
    SortedFacts(q, StaleRuns(q, now, staleSeconds, locked), batchSize);
    DistinctCardinality(ids);
    assert forall x :: x in ids ==> x in Elements(ids);
  }

  // Recovering distinct stale runs changes them and no others.
  lemma RecoveringRuns(q: Tables, ids: seq<RunId>, staleSeconds: int, now: int)
    requires WellKeyed(q) && Distinct(ids)
    requires forall x :: x in ids ==> CountersOk(q, x) && Stale(q.runs[x], now, staleSeconds)
    ensures var done := OnAll(q, ids, Recover(staleSeconds), now);
            && WellKeyed(done) && done.runs.Keys == q.runs.Keys
            && (forall x :: x in q.runs && x !in ids ==> Get(done, x) == Get(q, x) && done.runs[x] == q.runs[x])
            && (forall x :: x in q.runs && x in ids ==>
                  Recovered(Get(q, x), Get(done, x)) && done.runs[x].status != Running)
  {
    OnAllFrame(q, ids, Recover(staleSeconds), now);
    var done := OnAll(q, ids, Recover(staleSeconds), now);
    forall x | x in q.runs
      ensures x in ids ==> Recovered(Get(q, x), Get(done, x)) && done.runs[x].status != Running
      ensures x !in ids ==> done.runs[x] == q.runs[x]
    {
      assert Get(done, x).row == done.runs[x];
      if x in ids {
        RecoveredByApply(Get(q, x), staleSeconds, now);
      }
    }
  }

  // recover_stale changes exactly the oldest min(batch_size, number stale) unlocked stale rows, once
  // each: retried below the budget, failed at it; attempts and all other runs stay as they are.
  lemma RecoveryIsExact(q: Tables, staleSeconds: int, batchSize: nat, now: int, locked: set<RunId>)
    requires WellKeyed(q) && AfterRecovery(q, staleSeconds, batchSize, now, locked).Ok?
    ensures var ids := StaleBatch(q, staleSeconds, batchSize, now, locked);
            var stale := StaleRuns(q, now, staleSeconds, locked);
            var done := AfterRecovery(q, staleSeconds, batchSize, now, locked).value;
            && WellKeyed(done) && done.runs.Keys == q.runs.Keys
            && Elements(ids) <= stale && |Elements(ids)| == |ids| == Min(batchSize, |stale|)
            && (forall a, b :: a in stale && a in ids && b in stale && b !in ids ==> Older(q, a, b))
            && (forall x :: x in q.runs && x !in ids ==> Get(done, x) == Get(q, x))
            && (forall x :: x in q.runs && x in ids ==> Recovered(Get(q, x), Get(done, x)))
            && StaleRuns(done, now, staleSeconds, locked) == stale - Elements(ids)
  {
    BatchIsOldest(q, staleSeconds, batchSize, now, locked);
    RecoveringRuns(q, StaleBatch(q, staleSeconds, batchSize, now, locked), staleSeconds, now);
  }

  lemma RecoveredByApply(c: Cell, staleSeconds: int, now: int)
    requires Stale(c.row, now, staleSeconds) && 1 <= c.row.attempts <= c.row.spec.maxAttempts
    ensures Recovered(c, Apply(c, Recover(staleSeconds), now))
    ensures Apply(c, Recover(staleSeconds), now).row.status != Running
  {
  }

  lemma PrefixLeavesNext(q: Tables, ids: seq<RunId>, a: Action, now: int, i: nat)
    requires WellKeyed(q) && Distinct(ids) && Known(q, ids) && i < |ids|
    ensures var mid := OnAll(q, ids[..i], a, now);
            && WellKeyed(mid) && ids[i] in mid.runs && mid.runs[ids[i]] == q.runs[ids[i]]
            && OnAll(q, ids[..i + 1], a, now) == On(mid, ids[i], a, now)
  {
    OnAllFrame(q, ids[..i], a, now);
    assert ids[..i + 1][..i] == ids[..i];
    assert ids[i] in ids && ids[i] !in ids[..i];
    var mid := OnAll(q, ids[..i], a, now);
    assert Get(mid, ids[i]) == Get(q, ids[i]);
  }

  lemma RetriedSnoc(q: Tables, ids: seq<RunId>, i: nat)
    requires i < |ids| && ids[i] in q.runs
    ensures Retried(q, ids[..i + 1]) == Retried(q, ids[..i])
                                        + if q.runs[ids[i]].attempts < q.runs[ids[i]].spec.maxAttempts then 1 else 0
  {
    assert ids[..i + 1][..i] == ids[..i];
  }

  // The i-th selected row, when its turn to be updated comes, is still as the SELECT read it.
  lemma SelectedRowIsIntact(q: Tables, staleSeconds: int, batchSize: nat, now: int, locked: set<RunId>, i: nat)
    requires WellKeyed(q) && i < |StaleBatch(q, staleSeconds, batchSize, now, locked)|
    ensures var ids := StaleBatch(q, staleSeconds, batchSize, now, locked);
            var mid := OnAll(q, ids[..i], Recover(staleSeconds), now);
            && WellKeyed(mid) && ids[i] in q.runs && ids[i] in mid.runs && Stale(q.runs[ids[i]], now, staleSeconds)
            && mid.runs[ids[i]] == q.runs[ids[i]]
            && OnAll(q, ids[..i + 1], Recover(staleSeconds), now) == On(mid, ids[i], Recover(staleSeconds), now)
            && (FailureStatus(q.runs[ids[i]].attempts, q.runs[ids[i]].spec.maxAttempts, true).Ok? <==>
                  CountersOk(q, ids[i]))
            && Retried(q, ids[..i + 1]) == Retried(q, ids[..i])
                                           + if q.runs[ids[i]].attempts < q.runs[ids[i]].spec.maxAttempts then 1 else 0
  {
    var ids := StaleBatch(q, staleSeconds, batchSize, now, locked);
    BatchIsOldest(q, staleSeconds, batchSize, now, locked);
    assert ids[i] in ids;
    PrefixLeavesNext(q, ids, Recover(staleSeconds), now, i);
    RetriedSnoc(q, ids, i);
  }

  // The runs that recovery counts as retried.
  function WithAttemptsLeft(q: Tables, ids: seq<RunId>): set<RunId> {
    set x | x in ids && x in q.runs && q.runs[x].attempts < q.runs[x].spec.maxAttempts
  }

  lemma LeftSnoc(q: Tables, front: seq<RunId>, last: RunId)
    requires last !in front
    ensures var last' := if last in q.runs && q.runs[last].attempts < q.runs[last].spec.maxAttempts then {last} else {};
            && WithAttemptsLeft(q, front + [last]) == WithAttemptsLeft(q, front) + last'
            && last !in WithAttemptsLeft(q, front)
  {
  }

  lemma {:induction false} RetriedCount(q: Tables, ids: seq<RunId>)
    requires Distinct(ids)
    ensures Retried(q, ids) == |WithAttemptsLeft(q, ids)|
  {
    if ids != [] {
      var front, last := ids[..|ids| - 1], ids[|ids| - 1];
      SplitLast(ids);
      RetriedCount(q, front);
      LeftSnoc(q, front, last);
    } else {
      assert WithAttemptsLeft(q, ids) == {};
    }
  }

  // What recovery does to a run: one more event, a retry below the budget and failure at it.
  ghost predicate Recovered(c: Cell, d: Cell) {
    && d.row.attempts == c.row.attempts && d.row.spec == c.row.spec
    && d.row.status == (if c.row.attempts < c.row.spec.maxAttempts then Queued else Failed)
    && d.row.workerId == None && d.row.heartbeatAt == None && d.row.error == Some(WorkerHeartbeatExpired)
    && |d.log| == |c.log| + 1 && c.log <= d.log
    && d.log[|c.log|].kind
        == (if d.row.status == Queued then StaleEvent(c.row.attempts) else FailedEvent(c.row.attempts))
    && d.item == c.item
  }

  // Recovery on the columns: who is taken, in which order, and what becomes of them.
  lemma RecoveryColumns(q: Tables, staleSeconds: int, batchSize: nat, now: int, locked: set<RunId>, x: RunId, y: RunId)
    requires WellKeyed(q) && AfterRecovery(q, staleSeconds, batchSize, now, locked).Ok? && x in q.runs && y in q.runs
    requires q.runs[x].heartbeatAt.Some? && q.runs[y].heartbeatAt.Some?
    ensures var d := AfterRecovery(q, staleSeconds, batchSize, now, locked).value;
            && x in d.runs && y in d.runs
            && (d.runs[x] != q.runs[x] ==>
                  && q.runs[x].status == Running && q.runs[x].heartbeatAt.value < now - staleSeconds && x !in locked
                  && d.runs[x].error == Some(WorkerHeartbeatExpired) && d.runs[x].workerId == None
                  && 1 <= d.runs[x].attempts == q.runs[x].attempts
                  && if q.runs[x].attempts < q.runs[x].spec.maxAttempts
                     then d.runs[x].status == Queued
                          && d.runs[x].availableAt == now + IdealDelay(q.runs[x].attempts, 300)
                     else d.runs[x].status == Failed && d.runs[x].completedAt == Some(now))
            && (d.runs[x] != q.runs[x] && d.runs[y] == q.runs[y] && q.runs[y].status == Running && y !in locked
                && q.runs[y].heartbeatAt.value < now - staleSeconds ==>
                  || q.runs[x].heartbeatAt.value < q.runs[y].heartbeatAt.value
                  || (q.runs[x].heartbeatAt.value == q.runs[y].heartbeatAt.value && x < y))
  {
    var ids := StaleBatch(q, staleSeconds, batchSize, now, locked);
    BatchIsOldest(q, staleSeconds, batchSize, now, locked);
    RecoveringRuns(q, ids, staleSeconds, now);
    OnAllFrame(q, ids, Recover(staleSeconds), now);
    var d := OnAll(q, ids, Recover(staleSeconds), now);
    assert Get(d, x).row == d.runs[x] && Get(q, x).row == q.runs[x];
    if x in ids {
      RecoveredColumns(Get(q, x), staleSeconds, now);
    }
    assert y in StaleRuns(q, now, staleSeconds, locked) && y !in ids && x in ids ==> Older(q, x, y);
  }

  lemma RecoveredColumns(c: Cell, staleSeconds: int, now: int)
    requires Stale(c.row, now, staleSeconds) && 1 <= c.row.attempts <= c.row.spec.maxAttempts
    ensures var d := Apply(c, Recover(staleSeconds), now).row;
            && d != c.row && d.attempts == c.row.attempts && d.error == Some(WorkerHeartbeatExpired)
            && d.workerId == None
            && if c.row.attempts < c.row.spec.maxAttempts
               then d.status == Queued && d.availableAt == now + IdealDelay(c.row.attempts, 300)
               else d.status == Failed && d.completedAt == Some(now)
  {
    DelaysInUseAreIdeal(c.row.attempts);
  }

  lemma RecoveryShrinksStale(q: Tables, d: Tables, staleSeconds: int, batchSize: nat, now: int, locked: set<RunId>)
    requires WellKeyed(q) && AfterRecovery(q, staleSeconds, batchSize, now, locked) == Ok(d)
    ensures WellKeyed(d)
    ensures var stale := |StaleRuns(q, now, staleSeconds, locked)|;
            |StaleRuns(d, now, staleSeconds, locked)| == stale - Min(batchSize, stale)
  {
    RecoveryIsExact(q, staleSeconds, batchSize, now, locked);
  }

  // Repeating recovery at one clock reading: n calls leave max(0, stale - n * batch_size) stale rows,
  // so ceil(stale / batch_size) calls leave none.
  lemma {:induction false} RepeatedRecoveryDrains(qs: seq<Tables>, staleSeconds: int, batchSize: nat, now: int,
                                                  locked: set<RunId>, n: nat)
    requires n < |qs| && WellKeyed(qs[0])
    requires forall i :: 0 < i < |qs| ==> AfterRecovery(qs[i - 1], staleSeconds, batchSize, now, locked) == Ok(qs[i])
    ensures WellKeyed(qs[n])
    ensures var left := |StaleRuns(qs[0], now, staleSeconds, locked)| - n * batchSize;
            |StaleRuns(qs[n], now, staleSeconds, locked)| == if left > 0 then left else 0
  {
    if n > 0 {
      RepeatedRecoveryDrains(qs, staleSeconds, batchSize, now, locked, n - 1);
      RecoveryShrinksStale(qs[n - 1], qs[n], staleSeconds, batchSize, now, locked);
      MulStep(n - 1, batchSize);
    }
  }
}
