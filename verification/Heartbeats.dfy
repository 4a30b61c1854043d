// The heartbeat loop of a claimed run, in real time. A call takes some duration; a confirmed call
// stamps the row at some moment within it; a call that raises confirms nothing.
module Heartbeats {
  import opened Prelude

  datatype Reply = Confirmed(stamp: real) | Refused | Raised

  // One heartbeat call; `stamp` is how long after the start of the call the database clock was read.
  datatype Renewal = Renewal(duration: real, reply: Reply)

  function Interval(staleSeconds: int): real {
    var third := staleSeconds as real / 3.0;
    var capped := if third < 30.0 then third else 30.0;
    if capped > 1.0 then capped else 1.0
  }

  // A third of the stale threshold, kept between one and thirty seconds.
  lemma IntervalInSeconds(s: int)
    ensures 1.0 <= Interval(s) <= 30.0
    ensures Interval(s) * 3.0 < s as real ==> Interval(s) == 30.0
    ensures Interval(s) * 3.0 > s as real ==> Interval(s) == 1.0
  {
  }

  function Deadline(staleSeconds: int): real {
    0.9 * staleSeconds as real
  }

  // When the k-th call returned (calls counted from 1); each is preceded by a sleep of one interval.
  function Returned(start: real, s: int, calls: seq<Renewal>, k: nat): real
    requires k <= |calls|
  {
    if k == 0 then start else Returned(start, s, calls, k - 1) + Interval(s) + calls[k - 1].duration
  }

  function LastConfirmed(start: real, s: int, calls: seq<Renewal>, k: nat): real
    requires k <= |calls|
  {
    if k == 0 then start
    else if calls[k - 1].reply.Confirmed? then Returned(start, s, calls, k)
    else LastConfirmed(start, s, calls, k - 1)
  }

  // The loop goes on after the k-th call.
  predicate Continues(start: real, s: int, calls: seq<Renewal>, k: nat)
    requires 1 <= k <= |calls|
  {
    match calls[k - 1].reply
    case Confirmed(_) => true
    case Refused => false
    case Raised => Returned(start, s, calls, k) - LastConfirmed(start, s, calls, k - 1) < Deadline(s)
  }

  lemma ContinuesIff(start: real, s: int, calls: seq<Renewal>, k: nat)
    requires 1 <= k <= |calls|
    ensures Continues(start, s, calls, k) <==>
            || calls[k - 1].reply.Confirmed?
            || (calls[k - 1].reply.Raised?
                && Returned(start, s, calls, k) - LastConfirmed(start, s, calls, k - 1) < 0.9 * s as real)
  {
  }

  ghost predicate RunsThrough(start: real, s: int, calls: seq<Renewal>, k: nat)
    requires k <= |calls|
  {
    forall i :: 1 <= i <= k ==> Continues(start, s, calls, i)
  }

  // The loop itself, fed with the calls it will make; execution is cancelled once the lease-loss
  // note is written.
  method HeartbeatLoop(start: real, staleSeconds: int, calls: seq<Renewal>, noteDuration: real)
    returns (cancelledAt: Option<real>, made: nat)
    ensures made <= |calls|
    ensures cancelledAt.None? ==> made == |calls| && RunsThrough(start, staleSeconds, calls, made)
    ensures cancelledAt.Some? ==>
              && made >= 1 && RunsThrough(start, staleSeconds, calls, made - 1)
              && !Continues(start, staleSeconds, calls, made)
              && (calls[made - 1].reply.Refused?
                  || (calls[made - 1].reply.Raised?
                      && Returned(start, staleSeconds, calls, made)
                         - LastConfirmed(start, staleSeconds, calls, made - 1) >= 0.9 * staleSeconds as real))
              && cancelledAt.value == Returned(start, staleSeconds, calls, made) + noteDuration
  {
    var clock := start;
    var lastConfirmed := start;
    made := 0;
    while made < |calls|
      invariant made <= |calls| && RunsThrough(start, staleSeconds, calls, made)
      invariant clock == Returned(start, staleSeconds, calls, made)
      invariant lastConfirmed == LastConfirmed(start, staleSeconds, calls, made)
    {
      clock := clock + Interval(staleSeconds);
      clock := clock + calls[made].duration;
      var reply := calls[made].reply;
      made := made + 1;
      if reply.Confirmed? {
        lastConfirmed := clock;
      } else if reply.Refused? || !(clock - lastConfirmed < Deadline(staleSeconds)) {
        return Some(clock + noteDuration), made;
      }
    }
    return None, made;
  }

  // ---- the row's heartbeat --------------------------------------------------------------------

  // The row's worker_heartbeat_at after k calls, at least; the claim stamped it first.
  function RowHeartbeat(claimed: real, start: real, s: int, calls: seq<Renewal>, k: nat): real
    requires k <= |calls|
  {
    if k == 0 then claimed
    else if calls[k - 1].reply.Confirmed? then
      Returned(start, s, calls, k - 1) + Interval(s) + calls[k - 1].reply.stamp
    else RowHeartbeat(claimed, start, s, calls, k - 1)
  }

  // Both clocks stand where the j-th call left them as long as no later one is confirmed.
  lemma {:induction false} SinceLastConfirmed(claimed: real, start: real, s: int, calls: seq<Renewal>, j: nat, k: nat)
    requires j <= k <= |calls| && (j > 0 ==> calls[j - 1].reply.Confirmed?)
    requires forall i :: j <= i < k ==> !calls[i].reply.Confirmed?
    ensures LastConfirmed(start, s, calls, k) == if j == 0 then start else Returned(start, s, calls, j)
    ensures RowHeartbeat(claimed, start, s, calls, k)
            == if j == 0 then claimed
               else Returned(start, s, calls, j) - calls[j - 1].duration + calls[j - 1].reply.stamp
  {
    if j < k {
      SinceLastConfirmed(claimed, start, s, calls, j, k - 1);
    }
  }

  // Every database call, the claim included, takes at most d.
  ghost predicate Timely(claimed: real, start: real, calls: seq<Renewal>, d: real) {
    && start - d <= claimed <= start && d >= 0.0
    && forall i :: 0 <= i < |calls| ==>
         0.0 <= calls[i].duration <= d
         && (calls[i].reply.Confirmed? ==> 0.0 <= calls[i].reply.stamp <= calls[i].duration)
  }

  lemma {:induction false} LeaseBound(claimed: real, start: real, s: int, calls: seq<Renewal>, d: real, k: nat)
    requires Timely(claimed, start, calls, d) && k <= |calls| && s >= 1 && RunsThrough(start, s, calls, k)
    ensures LastConfirmed(start, s, calls, k) <= RowHeartbeat(claimed, start, s, calls, k) + d
    ensures Returned(start, s, calls, k) - LastConfirmed(start, s, calls, k) < Deadline(s)
  {
    if k > 0 {
      assert Continues(start, s, calls, k);
      LeaseBound(claimed, start, s, calls, d, k - 1);
    }
  }

  // While the loop goes on, and until its cancellation after the last call has happened, less than
  // 0.9 S + I + 3 d has passed since the row's last heartbeat.
  lemma CancelledInTime(claimed: real, start: real, s: int, calls: seq<Renewal>, d: real, k: nat, noteDuration: real)
    requires Timely(claimed, start, calls, d) && 1 <= k <= |calls| && s >= 1 && noteDuration <= d
    requires RunsThrough(start, s, calls, k - 1)
    ensures Returned(start, s, calls, k) + noteDuration
            < RowHeartbeat(claimed, start, s, calls, k - 1) + Deadline(s) + Interval(s) + 3.0 * d
  {
    LeaseBound(claimed, start, s, calls, d, k - 1);
  }

  // If I + 3 d fits into a tenth of S, no recovery can find the row stale before the cancellation.
  lemma NoRecoveryBeforeCancel(claimed: real, start: real, s: int, calls: seq<Renewal>, d: real, k: nat,
                               noteDuration: real, moment: real)
    requires Timely(claimed, start, calls, d) && 1 <= k <= |calls| && s >= 1 && noteDuration <= d
    requires RunsThrough(start, s, calls, k - 1) && Interval(s) + 3.0 * d <= s as real / 10.0
    requires moment <= Returned(start, s, calls, k) + noteDuration
    ensures !(RowHeartbeat(claimed, start, s, calls, k - 1) < moment - s as real)
  {
    CancelledInTime(claimed, start, s, calls, d, k, noteDuration);
  }

  // If every call is confirmed and I + 2 d <= S, the run is never stale while it executes.
  lemma NeverStaleWhileConfirmed(claimed: real, start: real, s: int, calls: seq<Renewal>, d: real, k: nat, moment: real)
    requires Timely(claimed, start, calls, d) && 1 <= k <= |calls| && s >= 1
    requires forall i :: 0 <= i < |calls| ==> calls[i].reply.Confirmed?
    requires Interval(s) + 2.0 * d <= s as real && moment <= Returned(start, s, calls, k)
    ensures !(RowHeartbeat(claimed, start, s, calls, k - 1) < moment - s as real)
  {
    LeaseBound(claimed, start, s, calls, d, k - 1);
    assert LastConfirmed(start, s, calls, k - 1) == Returned(start, s, calls, k - 1);
  }

  // A single exception after a confirmed call (or the start) is survived exactly when the interval
  // and the call fit below 0.9 S; for quick calls that is every threshold except one second.
  lemma TransientExceptionIff(start: real, s: int, calls: seq<Renewal>, k: nat)
    requires 1 <= k <= |calls| && s >= 1 && calls[k - 1].reply.Raised?
    requires k == 1 || calls[k - 2].reply.Confirmed?
    ensures Continues(start, s, calls, k) <==> Interval(s) + calls[k - 1].duration < Deadline(s)
    ensures calls[k - 1].duration == 0.0 ==> (Continues(start, s, calls, k) <==> s >= 2)
  {
    assert Returned(start, s, calls, k) == Returned(start, s, calls, k - 1) + Interval(s) + calls[k - 1].duration;
    assert LastConfirmed(start, s, calls, k - 1) == Returned(start, s, calls, k - 1);
  }

  // ---- rounds -----------------------------------------------------------------------------------

  // How long n rounds take.
  function Lasting(n: nat, round: real): real {
    if n == 0 then 0.0 else Lasting(n - 1, round) + round
  }

  lemma {:induction false} LastingIsProduct(n: nat, round: real)
    ensures Lasting(n, round) == n as real * round
  {
    if n > 0 {
      LastingIsProduct(n - 1, round);
      Distributed((n - 1) as real, round);
    }
  }

  lemma Distributed(a: real, f: real)
    ensures (a + 1.0) * f == a * f + f
  {
  }

  lemma {:induction false} LastingGrows(n: nat, m: nat, round: real)
    requires n <= m && round >= 0.0
    ensures Lasting(n, round) <= Lasting(m, round)
    decreases m
  {
    if n < m {
      LastingGrows(n, m - 1, round);
    }
  }

  lemma {:induction false} LastingLonger(n: nat, a: real, b: real)
    requires a <= b
    ensures Lasting(n, a) <= Lasting(n, b)
    ensures n >= 1 && a < b ==> Lasting(n, a) < Lasting(n, b)
  {
    if n > 0 {
      LastingLonger(n - 1, a, b);
    }
  }

  // n rounds of one length.
  function Even(n: nat, duration: real): seq<Renewal> {
    seq(n, i => Renewal(duration, Raised))
  }

  lemma {:induction false} EvenTimes(claimed: real, start: real, s: int, calls: seq<Renewal>, duration: real, k: nat)
    requires k <= |calls| && forall i :: 0 <= i < k ==> calls[i] == Renewal(duration, Raised)
    ensures Returned(start, s, calls, k) == start + Lasting(k, Interval(s) + duration)
    ensures LastConfirmed(start, s, calls, k) == start && RowHeartbeat(claimed, start, s, calls, k) == claimed
  {
    if k > 0 {
      EvenTimes(claimed, start, s, calls, duration, k - 1);
    }
  }

  lemma EvenRunsThrough(start: real, s: int, calls: seq<Renewal>, duration: real, n: nat)
    requires n <= |calls| && forall i :: 0 <= i < n ==> calls[i] == Renewal(duration, Raised)
    requires duration >= 0.0 && Lasting(n, Interval(s) + duration) < Deadline(s)
    ensures RunsThrough(start, s, calls, n)
  {
    forall k | 1 <= k <= n
      ensures Continues(start, s, calls, k)
    {
      EvenTimes(start, start, s, calls, duration, k);
      EvenTimes(start, start, s, calls, duration, k - 1);
      LastingGrows(k, n, Interval(s) + duration);
    }
  }

  function Instant(n: nat): seq<Renewal> {
    Even(n, 0.0)
  }

  // ---- which stale thresholds leave a margin ----------------------------------------------------

  // Even with instantaneous calls the margin exists exactly for thresholds of five minutes or more.
  lemma MarginIff(s: int)
    ensures Interval(s) <= s as real / 10.0 <==> s >= 300
  {
    var third := s as real / 3.0;
    if s >= 300 {
      assert third >= 30.0 && Interval(s) == 30.0;
    } else if s >= 90 {
      assert third >= 30.0 && Interval(s) == 30.0;
    }
  }

  ghost predicate InWindow(s: int, n: nat) {
    Deadline(s) <= Lasting(n, Interval(s)) <= s as real
  }

  // With instantaneous calls that all raise, the loop cancels at its first multiple of I past 0.9 S,
  // and that comes no later than the earliest recovery exactly when some multiple of I lies in [0.9 S, S].
  lemma InstantSafeIff(start: real, s: int, n: nat)
    requires s >= 1 && n >= 1
    requires RunsThrough(start, s, Instant(n), n - 1) && !Continues(start, s, Instant(n), n)
    ensures Returned(start, s, Instant(n), n) <= start + s as real <==> exists m: nat :: InWindow(s, m)
  {
    EvenTimes(start, start, s, Instant(n), 0.0, n);
    EvenTimes(start, start, s, Instant(n), 0.0, n - 1);
    forall m: nat | m < n
      ensures Lasting(m, Interval(s)) < Deadline(s)
    {
      if m >= 1 {
        assert Continues(start, s, Instant(n), m);
        EvenTimes(start, start, s, Instant(n), 0.0, m);
        EvenTimes(start, start, s, Instant(n), 0.0, m - 1);
      }
    }
    if exists m: nat :: InWindow(s, m) {
      var m: nat :| InWindow(s, m);
      assert n <= m;
      LastingGrows(n, m, Interval(s));
    }
    if Returned(start, s, Instant(n), n) <= start + s as real {
      assert InWindow(s, n);
    }
  }

  // ---- the exact condition ----------------------------------------------------------------------

  // Consecutive calls that raised, up to the k-th.
  function SinceConfirmed(calls: seq<Renewal>, k: nat): nat
    requires k <= |calls|
  {
    if k == 0 || calls[k - 1].reply.Confirmed? then 0 else SinceConfirmed(calls, k - 1) + 1
  }

  // An execution that the loop gives up because its last call raised too late.
  ghost predicate GivesUp(claimed: real, start: real, s: int, calls: seq<Renewal>, d: real, noteDuration: real) {
    && Timely(claimed, start, calls, d) && 0.0 <= noteDuration <= d
    && calls != [] && calls[|calls| - 1].reply.Raised?
    && RunsThrough(start, s, calls, |calls| - 1) && !Continues(start, s, calls, |calls|)
  }

  // The cancellation comes no later than the earliest moment at which recovery can find the row stale.
  ghost predicate InTime(claimed: real, start: real, s: int, calls: seq<Renewal>, noteDuration: real)
    requires calls != []
  {
    Returned(start, s, calls, |calls|) + noteDuration <= RowHeartbeat(claimed, start, s, calls, |calls| - 1) + s as real
  }

  // Every execution with calls of at most d is cancelled before it can be recovered.
  ghost predicate AlwaysInTime(s: int, d: real) {
    forall claimed: real, start: real, calls: seq<Renewal>, noteDuration: real ::
      GivesUp(claimed, start, s, calls, d, noteDuration) ==> InTime(claimed, start, s, calls, noteDuration)
  }

  // m slowest rounds fit below the deadline, m + 1 do not.
  predicate Rounds(s: int, d: real, m: nat) {
    Lasting(m, Interval(s) + d) < Deadline(s) <= Lasting(m + 1, Interval(s) + d)
  }

  lemma RoundsExist(s: int, d: real) returns (m: nat)
    requires s >= 1 && d >= 0.0
    ensures Rounds(s, d, m)
  {
    m := FirstPast(Deadline(s), Interval(s) + d);
  }

  lemma FirstPast(deadline: real, round: real) returns (m: nat)
    requires deadline > 0.0 && round > 0.0
    ensures Lasting(m, round) < deadline <= Lasting(m + 1, round)
  {
    var q := deadline / round;
    var up := -((-q).Floor);
    assert q * round == deadline && up as real - 1.0 < q <= up as real;
    assert q > 0.0;
    m := up - 1;
    LastingIsProduct(m, round);
    LastingIsProduct(m + 1, round);
    assert m as real * round < q * round;
    assert q * round <= (m + 1) as real * round;
  }

  // Whether m + 1 quick rounds can stay below the deadline decides which execution is the slowest.
  predicate Margin(s: int, d: real, m: nat) {
    if Lasting(m + 1, Interval(s)) < Deadline(s) then Interval(s) + 3.0 * d <= s as real / 10.0
    else Lasting(m + 1, Interval(s) + d) + 2.0 * d <= s as real
  }

  // After j calls since the last confirmed one, the clock has moved j rounds.
  lemma {:induction false} RoundsPass(claimed: real, start: real, s: int, calls: seq<Renewal>, d: real, k: nat)
    requires Timely(claimed, start, calls, d) && k <= |calls| && s >= 1
    requires forall i :: 0 <= i < k ==> !calls[i].reply.Refused?
    ensures var j := SinceConfirmed(calls, k);
            var passed := Returned(start, s, calls, k) - LastConfirmed(start, s, calls, k);
            Lasting(j, Interval(s)) <= passed <= Lasting(j, Interval(s) + d)
    ensures LastConfirmed(start, s, calls, k) <= RowHeartbeat(claimed, start, s, calls, k) + d
  {
    if k > 0 {
      RoundsPass(claimed, start, s, calls, d, k - 1);
    }
  }

  lemma NoneRefused(start: real, s: int, calls: seq<Renewal>, k: nat)
    requires k <= |calls| && RunsThrough(start, s, calls, k)
    ensures forall i :: 0 <= i < k ==> !calls[i].reply.Refused?
  {
    forall i | 0 <= i < k
      ensures !calls[i].reply.Refused?
    {
      assert Continues(start, s, calls, i + 1);
    }
  }

  // With the margin, no moment before the k-th call returns, and none within a note's time after it,
  // finds the row stale, whatever that call replies.
  lemma NoStaleBeforeReturn(s: int, d: real, m: nat, claimed: real, start: real, calls: seq<Renewal>, k: nat,
                            moment: real)
    requires s >= 1 && d >= 0.0 && Rounds(s, d, m) && Margin(s, d, m) && Timely(claimed, start, calls, d)
    requires 1 <= k <= |calls| && RunsThrough(start, s, calls, k - 1)
    requires moment <= Returned(start, s, calls, k) + d
    ensures !(RowHeartbeat(claimed, start, s, calls, k - 1) < moment - s as real)
  {
    if Lasting(m + 1, Interval(s)) < Deadline(s) {
      CancelledInTime(claimed, start, s, calls, d, k, d);
    } else {
      NoneRefused(start, s, calls, k - 1);
      RoundsPass(claimed, start, s, calls, d, k - 1);
      LeaseBound(claimed, start, s, calls, d, k - 1);
      var j := SinceConfirmed(calls, k - 1);
      if j > m {
        LastingGrows(m + 1, j, Interval(s));
        assert false;
      }
      LastingGrows(j, m, Interval(s) + d);
    }
  }

  lemma MarginSuffices(s: int, d: real, m: nat, claimed: real, start: real, calls: seq<Renewal>, noteDuration: real)
    requires s >= 1 && d >= 0.0 && Rounds(s, d, m) && Margin(s, d, m)
    requires GivesUp(claimed, start, s, calls, d, noteDuration)
    ensures InTime(claimed, start, s, calls, noteDuration)
  {
    var cancelled := Returned(start, s, calls, |calls|) + noteDuration;
    NoStaleBeforeReturn(s, d, m, claimed, start, calls, |calls|, cancelled);
  }

  // n even rounds that still fit, then one of the longest: how long that takes.
  lemma LateExecution(s: int, d: real, n: nat, duration: real) returns (calls: seq<Renewal>)
    requires s >= 1 && 0.0 <= duration <= d
    requires Lasting(n, Interval(s) + duration) < Deadline(s) <= Lasting(n, Interval(s) + duration) + Interval(s) + d
    ensures |calls| == n + 1 && GivesUp(0.0, d, s, calls, d, d)
    ensures Returned(d, s, calls, n + 1) == d + Lasting(n, Interval(s) + duration) + Interval(s) + d
    ensures RowHeartbeat(0.0, d, s, calls, n) == 0.0
  {
    calls := Even(n, duration) + [Renewal(d, Raised)];
    assert forall i :: 0 <= i < n ==> calls[i] == Even(n, duration)[i];
    EvenTimes(0.0, d, s, calls, duration, n);
    EvenRunsThrough(d, s, calls, duration, n);
  }

  // The two ways the margin can fail: quick rounds that come close to the deadline, or the slowest
  // rounds throughout.
  lemma MarginIsNeeded(s: int, d: real, m: nat)
    requires s >= 1 && d >= 0.0 && Rounds(s, d, m) && !Margin(s, d, m)
    ensures !AlwaysInTime(s, d)
  {
    var calls;
    if Lasting(m + 1, Interval(s)) < Deadline(s) {
      var late := s as real - Interval(s) - 3.0 * d;
      var soon := Deadline(s) - Interval(s) - d;
      var least := Lasting(m + 1, Interval(s));
      least := if least >= late then least else late;
      least := if least >= soon then least else soon;
      var duration := SharedBy((least + Deadline(s)) / 2.0, m + 1, Interval(s), d);
      calls := LateExecution(s, d, m + 1, duration);
    } else {
      calls := LateExecution(s, d, m, d);
    }
    assert GivesUp(0.0, d, s, calls, d, d) && !InTime(0.0, d, s, calls, d);
  }

  lemma SharedBy(y: real, n: nat, interval: real, d: real) returns (duration: real)
    requires n >= 1 && Lasting(n, interval) <= y < Lasting(n, interval + d)
    ensures 0.0 <= duration <= d && Lasting(n, interval + duration) == y
  {
    var round := y / n as real;
    duration := round - interval;
    LastingIsProduct(n, round);
    assert interval + duration == round && Lasting(n, round) == y;
    if round < interval {
      LastingLonger(n, round, interval);
      assert false;
    }
    if round > interval + d {
      LastingLonger(n, interval + d, round);
      assert false;
    }
  }

  // For every threshold and every bound on the calls: cancellation always precedes recovery exactly
  // when the margin is kept.
  lemma LeaseSafeIff(s: int, d: real, m: nat)
    requires s >= 1 && d >= 0.0 && Rounds(s, d, m)
    ensures AlwaysInTime(s, d) <==> Margin(s, d, m)
  {
    if Margin(s, d, m) {
      forall claimed: real, start: real, calls: seq<Renewal>, noteDuration: real |
        GivesUp(claimed, start, s, calls, d, noteDuration)
        ensures InTime(claimed, start, s, calls, noteDuration)
      {
        MarginSuffices(s, d, m, claimed, start, calls, noteDuration);
      }
    } else {
      MarginIsNeeded(s, d, m);
    }
  }

  // With instantaneous calls the condition is that some multiple of I lies in [0.9 S, S].
  lemma InstantLeaseSafeIff(s: int)
    requires s >= 1
    ensures AlwaysInTime(s, 0.0) <==> exists m: nat :: InWindow(s, m)
  {
    var m := RoundsExist(s, 0.0);
    LeaseSafeIff(s, 0.0, m);
    if Margin(s, 0.0, m) {
      assert InWindow(s, m + 1);
    }
    if exists n: nat :: InWindow(s, n) {
      var n: nat :| InWindow(s, n);
      if n <= m {
        LastingGrows(n, m, Interval(s));
        assert false;
      }
      LastingGrows(m + 1, n, Interval(s));
    }
  }

  // A threshold of 110 seconds has no such multiple: the execution outlives its lease by ten seconds.
  lemma ShortThresholdOutlivesLease(start: real)
    ensures RunsThrough(start, 110, Instant(4), 3) && !Continues(start, 110, Instant(4), 4)
    ensures Returned(start, 110, Instant(4), 4) == start + 120.0
  {
    assert Interval(110) == 30.0;
    EvenTimes(start, start, 110, Instant(4), 0.0, 3);
    EvenTimes(start, start, 110, Instant(4), 0.0, 4);
    EvenRunsThrough(start, 110, Instant(4), 0.0, 3);
  }

  // The default threshold of 600 seconds is safe exactly for calls of at most 10 seconds; the database
  // client gives up a call only after 30.
  lemma DefaultThresholdIff(d: real)
    requires d >= 0.0
    ensures AlwaysInTime(600, d) <==> d <= 10.0
  {
    assert Interval(600) == 30.0;
    var m := RoundsExist(600, d);
    LeaseSafeIff(600, d, m);
    LastingIsProduct(17, 30.0 + d);
    LastingIsProduct(18, 30.0 + d);
    LastingIsProduct(17, 30.0);
    LastingIsProduct(18, 30.0);
    if m >= 17 {
      LastingGrows(17, m, 30.0 + d);
      LastingGrows(18, m + 1, 30.0);
      if m > 17 {
        LastingGrows(18, m, 30.0 + d);
        assert false;
      }
    } else {
      LastingGrows(m + 1, 17, 30.0);
    }
  }

  // Concretely: ten calls of 29.9 seconds that raise, and a note of 30, end 29 seconds after the run
  // may be recovered.
  lemma DefaultThresholdOutlivesLease()
    ensures GivesUp(0.0, 0.0, 600, Even(10, 29.9), 30.0, 30.0)
    ensures Returned(0.0, 600, Even(10, 29.9), 10) + 30.0 == 629.0
    ensures RowHeartbeat(0.0, 0.0, 600, Even(10, 29.9), 9) == 0.0
  {
    assert Interval(600) == 30.0;
    var calls := Even(10, 29.9);
    EvenTimes(0.0, 0.0, 600, calls, 29.9, 10);
    EvenTimes(0.0, 0.0, 600, calls, 29.9, 9);
    LastingIsProduct(9, 59.9);
    LastingIsProduct(10, 59.9);
    EvenRunsThrough(0.0, 600, calls, 29.9, 9);
  }
}
