# Verification of the leased run queue

A durable queue of model runs: an API enqueues runs in PostgreSQL, any number of
workers claim them under a lease, execute them in a child process, and deliver a
summary of each finished run into a memory table through an outbox. This project
models that protocol and proves what it keeps in every execution, together with
the timing rules, the child-process hand-off, the JSON normalisers and the hybrid
search the system relies on.

`dafny verify dfyconfig.toml` checks everything.

## Layout

| file | what it holds |
|---|---|
| `Prelude`, `Retry`, `Runs` | values, retry arithmetic, rows and the decoders that turn rows into tokens |
| `Cells`, `History` | one run (row, event log, outbox item), what each statement group does to it, its invariant and life |
| `Queue`, `RunStore` | the three tables as values with the multi-row transactions; the class whose methods update them in place |
| `Memories`, `Fusion`, `MemoryStore` | the memory table, the search statement, the class over both |
| `System`, `Safety`, `Theorems` | any number of workers as a step machine, its invariant, what holds in every reachable state |
| `Liveness`, `Fairness` | draining every reachable state; how many claims and recoveries can pass one run over |
| `Spaces`, `Deliveries` | which vector space each summary and recall belongs to; settling every outbox |
| `Locks` | the same transactions split into snapshot, lock, update, read, insert and commit steps |
| `Worker`, `PollCycle`, `PollLoop` | the worker's calls, one poll cycle as an execution of the step machine, the outer loop |
| `Heartbeats` | the heartbeat loop in real time |
| `Normalise`, `Subprocess` | the trajectory normalisers and the parent's polling of the child |

Each committed statement group is an `Action` on one run (`Cells.Apply`). The methods of
`RunStores.RunStore` are proved to perform exactly that action on the tables, `Locks` proves that their
interleaved steps commit as that action, and `System` runs it among workers that crash, lose
replies, drop tokens and keep calling with stale ones. `PollCycles` closes the circle: a poll cycle, run by
the methods, is an execution of the step machine in which the worker holds one token at a time.
Every transaction has its own clock reading; nothing orders the readings of different transactions
except that a worker's calls about a run come after the claim that started it. What is proved to exist,
the schedules that drain the queue and settle the outbox, has a clock that never runs backwards and meets
no lock.

The system model allows more than the workers do: a worker may repeat its calls after a success, and a
crashed worker's identity may return, empty-handed. Safety holds for all of that. API processes are part of
it because they write memories, each in the vector space it is configured with. A process may have any
dimension, although none starts with another than the memory table's (memory.py:88-112); the executions
that mix spaces are built with one dimension.

## Where code and documentation differ

The model follows the code.

- The documentation says rolling deployments never mix vector spaces (README.md:207-209). Recorded
  configurations are respected (`Spaces.SummaryInRecordedSpace`, `Spaces.RecallInRecordedSpace`), but the memory
  table has no model column and search filters by scope alone, so a recall can rank and return a
  summary embedded by another model (`Spaces.DeploymentMixesSpaces`) or a memory that an API process of
  another model wrote (`Spaces.ApiMixesSpaces`). `Spaces.OneSpaceIff` says exactly when neither can happen.
- The documentation says one transient heartbeat exception does not imply lease loss (README.md:21).
  That depends on the interval and the call fitting below 0.9 of the stale threshold; with a threshold of one
  second it fails even for instantaneous calls (`Heartbeats.TransientExceptionIff`).
- The documentation says continuous uncertainty near the stale deadline cancels the child defensively
  (README.md:21-22). Whether that always comes before another worker may recover the run depends on the
  threshold S and on how long a call may take, D. `Heartbeats.LeaseSafeIff` is the exact condition for all S
  and D: with m the number of slowest rounds I + D that fit below 0.9 S, the margin is I + 3 D <= S / 10 if
  m + 1 intervals alone fit below 0.9 S, and (m + 1)(I + D) + 2 D <= S otherwise. The default threshold of
  600 seconds is safe exactly for calls of at most 10 seconds, while the database client gives up a call
  only after 30 (`Heartbeats.DefaultThresholdIff`; `Heartbeats.DefaultThresholdOutlivesLease` is an execution
  that ends 29 seconds late). With instantaneous calls the condition is that some multiple of I lies
  in [0.9 S, S] (`Heartbeats.InstantLeaseSafeIff`), which a threshold of 110 seconds misses
  (`Heartbeats.ShortThresholdOutlivesLease`).
- The clamped delay equals min(cap, 2^(a-1)) for every attempt exactly when the cap is at most 2^20
  (`Retry.DelayIsIdealIff`); both caps in use are.
- `poll()` is true at end of file, so a child that dies silently normally surfaces as `EOFError` from
  `recv()`. `Subprocess.ExecuteSubprocess` says exactly when: a hand-off that ends without a message ends in
  `ChildProcessExit` if the sending end of the pipe was still open at the last look, and in `EOFError` if not;
  where death closes that end, `ChildProcessExit` is never raised.
- The timeout of a run does not cover the receive: `receiver.recv()` (model_runtime.py:109, 113) is a
  synchronous call inside a coroutine, so a child that stops in the middle of a message blocks the event
  loop, with the timeout and the heartbeats that run on it. The same method keeps such an end (`Blocked`)
  apart from one between two polls (`Waiting`).
- A poll cycle that raises after recovering does not move `last_recovery`, so the next cycle recovers
  again at once (`PollLoop.BrokenRecoversAgain`); all others come ten seconds and half the threshold apart
  (`PollLoop.RecoveriesAreSpaced`).
- The API asks for one character, the decoder for a visible one: an accepted run of white space is
  quarantined at its first claim (`Runs.AcceptedRunDecodesIff`).
- Workers deliver the summaries of the outbox (README.md:12-14), but not every success becomes a memory: an
  answer whose first 12,000 characters are white space makes an outbox item that does not decode. A completed item has its
  memory if and only if the answer is not blank (`Theorems.DeliveredIffNotBlank`), a blank answer never has one
  (`Theorems.BlankIsNeverDelivered`), and `Deliveries.BlankAnswerIsRejected` is an execution that ends so.

## Model

| member | source | states |
|---|---|---|
| Retry.DelayIsIdealIff | run_store.py:85-89 | The clamped delay is the ideal capped power of two for all attempts if and only if the cap is at most 2^20 |
| Retry.DelaysInUseAreIdeal | run_store.py:85-93 | With the caps in use, 300 for runs and 900 for summaries, every delay is min(cap, 2^(a-1)) |
| Retry.DelayMonotone | run_store.py:85-93 | Later attempts never wait less, and no wait exceeds the cap |
| Retry.DelaySumClosedForm | run_store.py:85-89 | The first n delays sum to 2^n - 1 up to n = 9 and to 511 + 300(n - 9) from there on |
| Runs.CompatibleIsSameSpace | worker.py:517-527 | For a decodable configuration the worker's check passes exactly when the recorded model and dimension are its own |
| Runs.WhiteSpace | run_store.py:677 | A text counts as blank if it consists of the 29 characters that str.strip removes |
| Runs.AcceptedRunDecodesIff | run_store.py:593-634 | A run with limits and texts the API accepts decodes if and only if none of its texts is blank, and then limits, models, texts and counters come back unchanged |
| Runs.RunDecodesIff | run_store.py:593-634 | A claimed row decodes if and only if its limits are whole numbers in range, its models are named, its dimension and counters make sense and each text shows something; the token repeats its columns |
| Runs.SummaryDecodesIff | run_store.py:424-437 | The same for a claimed summary |
| Cells.AppendNumbered | run_store.py:564-582 | Appending MAX + 1 to a log numbered 1..n gives a log numbered 1..n+1 |
| Cells.ApplyInv | run_store.py:128-582 | Every statement group, called as the worker calls it, keeps the whole invariant of a run: row shape, gapless log that replays to the row, spaced starts, outbox item exactly on success with the run's own content |
| Cells.RowFollowsEvent | run_store.py:213-383 | The row's new status and attempts are what the event written in the same transaction says |
| Cells.RowStaysTimed | run_store.py:63-79 | No start comes earlier than the delay after the start before it, through fail, recovery and heartbeat alike |
| History.LifecycleBudget | run_store.py:96-101 | Transitions made plus transitions left is constant: at most 2 * max_attempts of them in a run's life |
| History.StartedInOrder | run_store.py:224-234 | The started events of a log carry attempts 1, 2, 3, ... and there is one for every claimed, unquarantined attempt |
| History.ClaimedInOrder | run_store.py:63-66 | A run is started at most max_attempts times |
| History.OnlyLeaseLossAfterEnd | worker.py:252-257 | After the event that ends a run its log can only receive lease-loss notes |
| History.RetriesAreSpaced | run_store.py:347-357 | The k-th retry starts at least the sum of the first k delays after the first start |
| History.ApplyEvolves | run_store.py:284-335 | No action changes a finished row, a request, logged events, an outbox item's content or a completed item |
| History.StatusChangeCosts | run_store.py:337-383 | Every claim, quarantine, success, failure and recovery writes one lifecycle event and strictly lowers the remaining budget |
| Queue.OnFrame | run_store.py:564-582 | A transaction on one run leaves every other run, log and item as it was |
| Queue.RetiringRows | run_store.py:237-259 | Quarantining eligible rows fails exactly them, with the fixed error, and leaves every other run as it was |
| Queue.PoisonIsClaimable | run_store.py:217-223 | Each row the loop retires was eligible, did not decode, and was the first of what its own statement found unlocked; none is retired twice |
| Queue.ClaimContract | run_store.py:213-259 | Whatever each statement of the loop finds locked: claim returns a decodable run minimal in (available_at, created_at) among the decodable rows its last statement found unlocked; what stood strictly before it did not decode and is failed; None means nothing is left or a full quarantine |
| Queue.ClaimOrder | run_store.py:59-70 | On the columns: each run a claim retires and the one it starts is no later by (available_at, created_at) than any other queued, available run with attempts left that its statement found unlocked |
| Queue.EmptyClaim | run_store.py:216-219 | A claim that answers None before its quarantine is full has retired or met locked every run it could have taken |
| Queue.SummaryOrder | run_store.py:396-413 | On the columns: each item claim_summary rejects, and the one it takes, is no later by (available_at, created_at) than any other open, available, unlocked item that is unclaimed or claimed longer ago than the threshold |
| Queue.EmptySummaryClaim | run_store.py:421-422 | When claim_summary finds nothing, every such item was rejected or is locked |
| Queue.ClaimCallFrom | run_store.py:216-235 | The loop always has an outcome, and with an eligible unlocked row it starts or retires at least one |
| Queue.EmptyCallClearsBatch | run_store.py:213-235 | A call that answers None although a decodable row waits has retired max_quarantined of the poison rows ahead of it |
| Queue.PoisonBacklogClears | run_store.py:213-235 | p poison rows ahead of a decodable one that nobody locks make at most floor(p / max_quarantined) calls answer None, whatever else is locked in each statement |
| Queue.BatchIsOldest | run_store.py:502-525 | The selected batch is the min(batch_size, number stale) oldest unlocked stale rows by (stale_at, id), each once |
| Queue.RecoveryIsExact | run_store.py:496-558 | Recovery changes exactly that batch, retrying below the budget and failing at it; attempts and all other runs stay |
| Queue.RecoveryColumns | run_store.py:501-546 | On the columns: only running, unlocked runs silent for longer than the threshold change, oldest heartbeat first and then by id; a retry waits min(300, 2^(a-1)) seconds, the last attempt fails now |
| Queue.RetriedCount | run_store.py:530-558 | The first count is the number of selected runs with attempts left |
| Queue.RepeatedRecoveryDrains | run_store.py:496-558 | n recoveries at one clock reading leave max(0, stale - n * batch_size) stale rows |
| RunStores.RunStore.AppendEvent | run_store.py:564-582 | Adds one event, numbered one past the largest sequence, to one log |
| RunStores.RunStore.Enqueue | run_store.py:128-168 | Adds the queued row, available at once and with no attempt, and its first event together; a non-positive budget is refused by the CHECK constraint |
| RunStores.RunStore.QuarantineClaim | run_store.py:237-259 | Fails the claimed row, releases its lease and logs it |
| RunStores.RunStore.NextCandidate | run_store.py:59-70 | Finds a claimable row no other one precedes, or none when there is none |
| RunStores.RunStore.Claim | run_store.py:213-235 | The loop performs a claim call in the sense of ClaimContract, in one transaction whose statements each meet locks of their own, and returns the token of the run it started, first by (available_at, created_at) among what it found unlocked and did not retire |
| RunStores.RunStore.ClaimRow | run_store.py:218-234 | One iteration starts a decodable row or retires one that does not decode |
| RunStores.RunStore.Heartbeat | run_store.py:261-271 | Renews the lease exactly when the run is running under the caller's identity, and answers whether it was |
| RunStores.RunStore.Succeed | run_store.py:273-335 | Exactly for the lease holder the row stores the given answer, evidence, usage and recalls, the trajectory if and only if the request asks for it, and row, outbox item and event appear together; a token without a vector space rolls everything back |
| RunStores.RunStore.UpsertOutbox | run_store.py:304-328 | Inserts the item, or rewrites the content of an uncompleted one, or leaves a completed one |
| RunStores.RunStore.Fail | run_store.py:337-383 | Impossible counters raise; under the fence the row fails exactly when it may not be retried or its budget is used up, else it is requeued after min(300, 2^(a-1)) seconds, with its event; otherwise nothing changes |
| RunStores.RunStore.AddEvent | run_store.py:560-562 | Logs any event of a known run without a lease check and raises for an unknown one; a lease-loss note is exactly the action the system model knows |
| RunStores.RunStore.RecoverStale | run_store.py:496-558 | Performs the exact recovery, returns how many runs were retried and how many failed, and rolls back if a selected row has impossible counters |
| RunStores.RunStore.RecoverRows | run_store.py:526-558 | The row loop with its two counters equals recovery of the whole selection |
| RunStores.RunStore.NextItem | run_store.py:396-413 | Finds the first claimable outbox item by (available_at, created_at), or none when there is none |
| RunStores.RunStore.ClaimSummary | run_store.py:385-441 | Rejects undecodable items one by one and takes the first decodable one by (available_at, created_at), or finds nothing left or the quarantine full |
| RunStores.RunStore.RejectSummaryClaim | run_store.py:443-458 | Completes a held undecodable item with the fixed error; otherwise nothing changes |
| RunStores.RunStore.CompleteSummary | run_store.py:460-473 | Completes the item exactly when it is open and claimed by the caller |
| RunStores.RunStore.RetrySummary | run_store.py:475-494 | Puts a held item back for min(900, 2^(a-1)) seconds; otherwise nothing changes |
| Memories.UpsertKeepsUnique | memory.py:169-199 | The write keeps one row for each source run in a scope, keeps every row there was, and leaves a row for its own source |
| MemoryStores.MemoryStore.Write | memory.py:156-201 | First write wins: a conflicting write changes nothing and answers the present row; wrong vectors and misplaced sources raise |
| MemoryStores.MemoryStore.Search | memory.py:109-154 | Answers the search statement's result, at most as many as asked for, and counts one access of exactly the returned rows; a wrong vector raises and counts nothing |
| Safety.NewTokenIsGood | run_store.py:63-82 | The token of a fresh claim matches the row, its attempt and its start |
| Safety.TokenKept | run_store.py:261-383 | Whatever another party does to a run, a token in hand passes the fence only in its own attempt |
| Safety.ItemKept | run_store.py:394-494 | The same for a claimed summary and its attempt |
| Safety.StepKeepsInv | worker.py:303-507 | Every step of any number of workers keeps the invariant tying tables, memories, recalls and hands together |
| Theorems.FenceIsAttemptCheck | run_store.py:261-383 | In every reachable state the SQL fence on status and worker, asked with a token in hand, is equivalent to the run being in that token's attempt |
| Theorems.SummaryFenceIsAttemptCheck | run_store.py:460-494 | The same for a summary in hand |
| Theorems.AcceptedCallIsCurrent | worker.py:90-145 | Every call changes nothing, or is a lease-loss note or a rejection, or comes from the current attempt |
| Theorems.SharedIdentityDefeatsFence | worker.py:311 | Without unique identities the fence is unsound: after recovery and reclaim under the same identity the old token passes |
| Theorems.LogReplaysToState | run_store.py:560-582 | In every reachable state each log is numbered 1..n and folds, lease-loss notes ignored, to the row's status and attempts, with the transition budget balanced |
| Theorems.NoLimbo | run_store.py:63-66 | A queued run always has attempts left, so the attempts filter strands none; a running one has between 1 and max_attempts |
| Theorems.RecoveryNeverRaises | run_store.py:526-529 | In every reachable state recovery meets no impossible counters |
| Theorems.OutboxIffSucceeded | run_store.py:284-335 | An outbox item exists exactly for the succeeded runs and repeats the run's scope, recorded space, answer and recalled memories |
| Theorems.SuccessIsFirst | run_store.py:304-328 | In every reachable state a run that can still succeed has no outbox item, so the update branch of the insert is unreachable |
| Theorems.StartsAreNumberedAndSpaced | run_store.py:59-89 | In every reachable state starts are attempts 1, 2, 3, ..., at most max_attempts, and the k-th retry waited the sum of the first k delays |
| Theorems.AtMostOneSummary | worker.py:445-507 | Each source run has at most one memory |
| Theorems.SummaryColumns | worker.py:105-119 | It holds the first 12,000 characters of the answer stored at the run's success, the run's id and its recalled ids, in the run's own scope, with importance 0.55 and no expiry |
| Theorems.TrajectoryOnlyIfAsked | run_store.py:287-288 | In every reachable state a stored trajectory belongs to a run that asked for one |
| Theorems.CompletionMeansDelivered | worker.py:470-485 | A completed outbox item has its memory if and only if it was completed without an error, that is not by quarantine |
| Theorems.DeliveredIffNotBlank | run_store.py:424-440 | A completed outbox item has its memory if and only if its run's answer is not blank |
| Theorems.BlankIsNeverDelivered | run_store.py:424-440 | A run with a blank answer has no memory in any reachable state |
| Theorems.StepEvolves | run_store.py:128-582 | No step loses a run or rewrites what is final in it |
| Theorems.NothingIsUndone | run_store.py:284-335 | Between any two moments of an execution: no run or memory is lost, finished rows and outbox contents never change, logs only grow, a completed item is never reopened |
| Liveness.StepCosts | run_store.py:96-101 | Whatever the step, a run that changes its status lowers the total remaining budget of all runs |
| Liveness.TotalIsBounded | run_store.py:96-101 | The budget of any runs is at most twice their attempts |
| Liveness.DueIff | run_store.py:59-70 | An unfinished run can be claimed or recovered exactly while it is due: from available_at on if queued, later than the threshold after its last sign of life if running |
| Liveness.Progress | run_store.py:59-82 | While some run is unfinished, a claim or a recovery that uses up budget is enabled at some moment past any given one, with the deployment's settings and nobody holding a lock |
| Liveness.DrainSchedule | run_store.py:496-558 | From any moment on and with any positive settings, claims, abandoned tokens and recoveries that meet no lock end every run, with no run lost, a clock that never runs backwards, and at most two steps for each transition left |
| Liveness.Drains | run_store.py:496-558 | So every reachable state can be drained by one fresh worker that never finishes anything |
| Fairness.StepMovesRows | run_store.py:213-383 | Whatever the step, each row stays, gives a sign of life now, is put back for later, or ends; a new run is available now |
| Fairness.ClaimTakesCompetitor | run_store.py:59-70 | A claim that finds a run available and unlocked and leaves it alone starts or retires a run that the order prefers to it |
| Fairness.ClaimsReachRun | run_store.py:59-70 | In any stretch of any execution, whatever else is locked: once more claims have found an available run unlocked than queued runs were preferred to it at the start, it has been started or retired |
| Fairness.RecoveryTakesElders | run_store.py:501-525 | A recovery that finds a run stale and unlocked and leaves it alone takes a full batch of older ones |
| Fairness.RecoveriesReachRun | run_store.py:501-525 | In any stretch of any execution, whatever else is locked: once the recoveries that found a run stale and unlocked had room for more runs than were older than it at the start, it has been recovered, has ended or has given a later sign of life |
| Fairness.ClaimTakesRival | run_store.py:396-413 | A claim of a summary that finds an item claimable and unlocked and leaves it alone takes one the order prefers to it |
| Fairness.ClaimsReachItem | run_store.py:396-413 | In any stretch of any execution no longer than the stale threshold, whatever else is locked: once more claims have found an item claimable and unlocked than it had rivals at the start, it has been claimed, completed or put back |
| Spaces.SummaryInRecordedSpace | worker.py:453-480 | Every summary was embedded in the space its run recorded at enqueue |
| Spaces.RecallInRecordedSpace | worker.py:158-172 | No worker recalls for a run recorded in another space than its own |
| Spaces.RecallStaysInScope | worker.py:158-172 | A run recalls at most eight memories, unexpired and of its own tenant, subject and namespace, with the default weights |
| Spaces.OneSpaceIff | migrations/002_search_fn.sql:22-29 | All memories a recall may compare lie in its own space if and only if every delivered run of its scope recorded that space and every API process that wrote an unexpired memory of the scope is configured with it |
| Spaces.WrittenInWriterSpace | memory.py:156-199 | What an API process wrote lies in the space it is configured with |
| Spaces.SpacesCanMeet | README.md:207-209 | Any two usable requests of one scope under different models of one dimension lead to a recall whose search returns the summary of the other space |
| Spaces.ApiSpaceCanMeet | README.md:207-209 | So does one memory written through an API process of another model of that dimension |
| Spaces.DeploymentMixesSpaces | README.md:207-209 | A concrete execution: two models of dimension 1536, one scope |
| Spaces.ApiMixesSpaces | README.md:207-209 | A concrete execution: the workers move to another model of dimension 1536, the API stays |
| Deliveries.SettlesAll | worker.py:445-507 | From every reachable state and any moment on, fresh workers that carry the spaces of its items, meeting no lock, complete every open item in at most four steps each: every success then has exactly one summary if its answer is not blank, and none if it is |
| Deliveries.EndsSettled | worker.py:385-442 | So every reachable state can be drained and then settled: every run over, none lost, every success delivered or blank |
| Deliveries.BlankAnswerIsRejected | run_store.py:424-440 | An execution in which a success with the answer of one space ends completed and without a summary |
| Locks.CommitIsAtomic | run_store.py:501-558 | Publishing the finished jobs of a transaction equals performing its actions atomically on the tables as they are at commit |
| Locks.MicroStepKeepsInv | run_store.py:564-582 | Lock, update, read, insert, commit and abort steps of any transactions keep every open transaction consistent with the committed tables |
| Locks.SequencesAreGapless | run_store.py:564-582 | In every interleaving the committed sequence numbers of each run are exactly 1..n |
| Locks.InterleavingRefinesAtomic | run_store.py:213-383 | Each step changes no committed table or changes them as one atomic transaction whose guards hold at that moment |
| Locks.RecoveryOverwritesOnlyStale | run_store.py:531-546 | The UPDATE guarded by id alone only meets the row its transaction selected, still running and still stale |
| Locks.RecoveryRefinesAtomic | run_store.py:501-558 | A recovery that locked its rows one at a time, each the oldest its statement still considered, commits exactly the atomic recovery that finds locked what the statement passed over or saw too early, and nothing else |
| Locks.OnAllPermuted | run_store.py:526-546 | The order in which a recovery updates its rows does not matter |
| Locks.ClaimRefinesAtomic | run_store.py:216-235 | A claim whose statements ran one at a time, in any interleaving, each on a snapshot of its own, commits exactly one atomic claim call, whose statements find locked what those passed over or saw too early, and nothing else |
| Heartbeats.HeartbeatLoop | worker.py:214-270 | The loop cancels exactly at the first call after which it may not go on, once the note is written |
| Heartbeats.IntervalInSeconds | worker.py:66 | The interval is a third of the threshold, kept between 1 and 30 seconds |
| Heartbeats.ContinuesIff | worker.py:239-245 | The loop goes on after a confirmation, and after an exception within 0.9 S of the last one |
| Heartbeats.SinceLastConfirmed | worker.py:214-245 | Unconfirmed calls move neither the worker's clock nor the row's heartbeat |
| Heartbeats.CancelledInTime | worker.py:223-270 | Cancellation happens before the row's last heartbeat + 0.9 S + I + 3 D |
| Heartbeats.NoRecoveryBeforeCancel | worker.py:239-241 | If I + 3 D is at most S / 10, no recovery finds the row stale before the cancellation |
| Heartbeats.NeverStaleWhileConfirmed | worker.py:242-245 | If every heartbeat is confirmed and I + 2 D is at most S, the run is never stale while it executes |
| Heartbeats.TransientExceptionIff | README.md:21 | A single exception after a confirmed heartbeat is survived if and only if interval and call fit below 0.9 S; for instantaneous calls, every S but 1 |
| Heartbeats.MarginIff | worker.py:66 | The interval fits into a tenth of S if and only if S is at least 300 |
| Heartbeats.InstantSafeIff | worker.py:239-241 | The one execution with instantaneous calls that all raise is cancelled in time if and only if some multiple of I lies in [0.9 S, S] |
| Heartbeats.LeaseSafeIff | worker.py:223-270 | For every S and D: every execution whose calls take at most D and that is given up after an exception, whatever was confirmed before, is cancelled by its last row heartbeat + S, if and only if the margin is kept |
| Heartbeats.RoundsExist | worker.py:66 | The number of slowest rounds below the deadline, on which the margin depends, always exists |
| Heartbeats.NoStaleBeforeReturn | worker.py:223-270 | With the margin, no moment before any call returns, nor within D after it, finds the row stale, whatever that call replies |
| Heartbeats.MarginSuffices | worker.py:239-241 | With the margin, no such execution is cancelled late |
| Heartbeats.MarginIsNeeded | worker.py:239-241 | Without it, some execution is |
| Heartbeats.InstantLeaseSafeIff | worker.py:239-241 | For D = 0 the margin is that some multiple of I lies in [0.9 S, S] |
| Heartbeats.DefaultThresholdIff | config.py:34 | With the default S = 600 every such execution is cancelled in time if and only if no call may take more than 10 seconds |
| Heartbeats.DefaultThresholdOutlivesLease | run_store.py:114 | With S = 600, ten raising calls of 29.9 seconds and a note of 30 end at 629 seconds |
| Heartbeats.ShortThresholdOutlivesLease | worker.py:239-241 | With S = 110 such an execution is cancelled at 120 seconds |
| PollLoop.StreakIff | worker.py:510-514 | The counter is at least n exactly when the last n cycles all broke |
| PollLoop.RecoveriesAreSpaced | worker.py:394-410 | Any two recoveries come ten seconds and half the threshold apart if the earlier one's cycle did not break |
| PollLoop.RecoversWhenDue | worker.py:394-410 | After a recovery that did not break, and until the next, a cycle recovers if and only if it starts ten seconds and half the threshold later |
| PollLoop.IdleCyclesAre | worker.py:346-348 | The loop waits once for each cycle that broke or processed nothing |
| PollLoop.FirstRecoveryWaits | worker.py:312 | As long as every recovery broke, a cycle recovers if and only if it starts ten seconds and half the threshold after clock zero |
| PollLoop.BrokenRecoversAgain | worker.py:394-410 | The cycle after one that recovered and broke recovers again |
| PollLoop.RunWorkerLoop | worker.py:303-349 | The loop raises at the first cycle whose failure streak reaches the threshold and only then, counts the trailing streak, waits after idle cycles, and recovers in exactly the cycles that start ten seconds and half the threshold after the last recovery that did not break |
| Workers.ProcessClaim | worker.py:72-148 | On the row of a held run: a prediction is stored with its event and summary; a timeout leaves run_timeout and an error execution_failed, queued again exactly if the cause and the attempts allow it; a foreign configuration fails for good; a cancellation, or a lost lease, changes nothing |
| Workers.DeliverSummary | worker.py:445-507 | On a held item: completed exactly if its write answered and its completion committed, and otherwise put back for the ideal delay with the reason; a foreign summary is put back without a write |
| PollCycles.RecoverIfDue | worker.py:393-410 | A cycle recovers if and only if ten seconds and half the threshold have passed, and then as one recovery step of the system |
| PollCycles.ServeRun | worker.py:429-441 | Claiming a run and processing it is a stretch of the worker's own system steps from an empty hand to an empty hand, and changes the tables as the claim and the calls its execution demands |
| PollCycles.ServeRuns | worker.py:429-441 | The same for the whole loop, which stops early only after a claim that found nothing; its count is the number of runs handed over |
| PollCycles.ServeSummary | worker.py:414-427 | The same for claiming a summary, with its rejections on the way, and delivering it; no summary means that none was left or ten were rejected |
| PollCycles.ServeSummaries | worker.py:413-427 | The same for the whole loop over summaries, which stops early only then |
| PollCycles.PollCycle | worker.py:385-442 | A whole cycle refines the step machine and starts and ends empty-handed: one recovery if ten seconds and half the threshold have passed and none otherwise, then the turns of the summaries and then those of the runs, each as above, up to the first that finds nothing; it counts what was handed over |
| Normalise.NormalIsPlain | model_runtime.py:234-241 | Either normaliser turns every nested value into JSON: plain containers, text keys, no key twice |
| Normalise.PlainIsFixed | worker.py:569-576 | Either normaliser leaves JSON as it is |
| Normalise.NormalisingOnceIsEnough | worker.py:88 | Normalising in the child, the decoder and the worker, by two different normalisers, equals normalising once |
| Normalise.CollisionsKeepTheLast | model_runtime.py:234-241 | When several keys read the same, the result holds the last one's value and nothing else |
| Normalise.NormalByKind | worker.py:569-576 | Lists keep length and order, only the worker's normaliser opens mappings that are not dicts, and what neither knows is rendered |
| Subprocess.SuccessRoundTrip | model_runtime.py:131-152 | What a successful child sends is decoded to its own answer, evidence and once-normalised trajectory |
| Subprocess.FailureRoundTrip | model_runtime.py:131-140 | A child's exception name and retryability survive the hand-off |
| Subprocess.FailurePayloads | model_runtime.py:131-140 | A payload that is no object, or a failure without a name and a flag, is InvalidChildPayload; any other failure keeps both |
| Subprocess.ResultPayloads | model_runtime.py:141-152 | Any other object decodes if and only if its answer is a text and its evidence a list of texts |
| Subprocess.ExecuteSubprocess | model_runtime.py:96-119 | In every interleaving a fully sent payload is the one decoded; an end without a message is ChildProcessExit if the pipe was still open at the last look and EOFError otherwise; it blocks only on half a message |
| Fusion.BestIsTop | migrations/002_search_fn.sql:66-67 | Sorting and cutting keeps the highest scores, in order |
| Fusion.SearchIsCorrect | migrations/002_search_fn.sql:22-67 | Results are distinct, in scope, unexpired, sorted, as many as asked for or fused, and no omitted fused row scores higher |
| Fusion.ScoreOnBoth | migrations/002_search_fn.sql:50-63 | A row numbered r and s in the two lists scores (w1 / (60 + r) + w2 / (60 + s)) (0.8 + 0.2 importance) |
| Fusion.ScoreOnSemantic | migrations/002_search_fn.sql:50-63 | A row of the semantic list alone scores w1 / (60 + r) (0.8 + 0.2 importance) |
| Fusion.ScoreOnKeyword | migrations/002_search_fn.sql:50-63 | A row of the keyword list alone scores w2 / (60 + s) (0.8 + 0.2 importance) |
| Fusion.SemanticBeatsKeywordIff | migrations/002_search_fn.sql:50-66 | With the default weights and equal importance, a row of the semantic list alone at r comes before one of the keyword list alone at s if and only if 0.7 (60 + r) < 60 + s |
| Fusion.ScoreOfFirst | migrations/002_search_fn.sql:50-63 | The first row of the semantic list alone scores 0.8 / 61 without importance and 1 / 61 with all of it, the first of both 1.7 / 61 |
| Fusion.ScoreBounds | migrations/002_search_fn.sql:50-63 | With the default weights every fused row scores in (0, 1.7 / 61] |
| Fusion.DominanceIsRespected | migrations/002_search_fn.sql:50-63 | A row ranked no worse in both lists, with no less importance, never scores below the other |
| Fusion.SemanticListIsClosest | migrations/002_search_fn.sql:30-37 | Whatever ties the statement cuts: a row of the semantic list has fewer than 50 strictly closer ones, and a row with fewer than 50 others as close is in it |

## Left out

- HTTP routing, authentication, configuration parsing, logging and request ids: plumbing around the protocol. The API enters through the bounds of its `Limits` and texts.
- PostgreSQL itself: row locks, SKIP LOCKED, atomic commit and one clock reading per transaction are the step semantics; SKIP LOCKED is an arbitrary set of locked ids, which `Locks` ties to the rows that other transactions held or changed.
- Rows of migrated databases, deletion and expiry clean-up: the tables start empty and rows come from enqueue. A migrated running row with zero attempts would make recovery raise.
- Embeddings, cosine distance and text ranking: arbitrary real numbers, a distance for every row since every write embeds its row; scores are exact reals, not 32-bit floats. The order of ties, which of them the LIMIT of the semantic list cuts, and the unordered LIMIT of the keyword list are free choices of the search plan.
- JSON text encoding, error messages and public error strings: JSON is a datatype, errors and object keys are enumerated with an open case. Exception classes are reduced to whether they are retryable.
- Process groups, signals and termination in stages, asyncio scheduling, and queries cancelled in flight; a reply that is lost after commit is a step of its own for both claims.
- Prompt formatting, the read methods of the store and the answer's score column: they would add only easy members.
- MemoryStores.MemoryStore.Search: the plan of the statement is a parameter, so the method says nothing of how the database finds it; the search and the access count are one step, although they are two statements on one connection.
- RunStores.RunStore.ClaimSummary: its iterations commit one by one; the method runs them without interference at one clock reading, while the system model interleaves each of them freely.
- Workers.ProcessClaim: how the execution and the recording of a success end are parameters; a failure that cannot be recorded leaves the run to recovery, which `System` has as a dropped token; the heartbeat task beside it is modelled in `Heartbeats`, the recall before it and their interleaving in `System`.
- Workers.DeliverSummary: write and completion follow one another here; `System` lets anything happen between them. Putting an item back that raises leaves it claimed until its claim is stale, which `System` has as a dropped token.
- PollCycles.PollCycle: nobody else acts during the cycle, both loops may have bounds of their own, and what other transactions lock, what the embedding provider answers and how executions end are parameters. Interference is the subject of `System`.
- PollLoop.RunWorkerLoop: sees a cycle as its start and its end. A loop that never ends is covered by its finite prefixes.
- Locks.InterleavingRefinesAtomic: says nothing of how a transaction chose its rows, which `Locks.ClaimRefinesAtomic` and `Locks.RecoveryRefinesAtomic` add. Outbox statements commit on their own and appear as single steps.
- Locks.ClaimRefinesAtomic: where a statement locked a row that had changed since its snapshot, its order is anyone's guess, and all other rows count as locked for it; the same holds for Locks.RecoveryRefinesAtomic and its one statement.
- Fairness.ClaimsReachItem: bounds a stretch as long as the stale threshold, after which a rival claimed in it may be claimed again.
- Heartbeats.HeartbeatLoop: sleeps last exactly one interval, and clocks of worker and database advance alike.
- Liveness.Drains: exhibits a schedule, as Deliveries.SettlesAll does; that workers keep polling is not modelled, and `Fairness` counts claims and recoveries instead.
