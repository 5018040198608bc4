# Werker in Dafny

Werker is a task queue for Django that keeps its whole state in PostgreSQL: one row per task, one
bucket per rate-limited task path, one row per periodic schedule. Any number of workers, reapers,
schedulers and API callers act on these rows. This project models what each of them does to the
rows and to its own state, and proves what the queue promises over every run and every interleaving.

## How the modules fit together

| Module | Content |
|---|---|
| `Model`, `RowOps`, `TokenBucket` | The records, and what each call does to one row or one bucket. |
| `Database` | Every committed operation as one atomic step, `RunOp`, and when it is legal. |
| `TaskStore`, `ClaimSpec`, `ClaimLoop`, `ClaimColumns`, `Ranking` | The broker, the result store and the API as methods that update the tables in place, each proved equal to its atomic step and said in columns; and the selection rule of a claim. |
| `SerialRuns`, `RowHistory`, `ReleasePick` | Unique index, concurrency caps, rate bounds, row histories, and the undoing of claims, over all serial histories. |
| `Locks`, `LockRefinement` | Transactions that lock, read, write and commit row by row; every interleaving is a serial history. |
| `Protocol`, `Fencing`, `Runs`, `Budget` | One row with every worker that ever claimed it: fencing, shape, final states, retry budget. |
| `Continuations`, `Resets`, `Overlap`, `Cancelling` | What can still follow from a state: when a reset is fenced and what harm it does otherwise, when executions overlap, when a cancelled task comes back. |
| `World`, `IssuedRuns` | The whole database, with a run of the row protocol behind each row; and interleavings of transactions issued by the protocol as runs of it. |
| `UniqueEnqueue` | Enqueueing a `@unique` task while others commit in between. |
| `Slots` | The slot accounting of one worker. |
| `Schedules`, `Firing`, `SyncSchedules`, `SyncRaces` | Next-run arithmetic, leasing and firing of schedules, `syncschedules`, and a sync beside running schedulers. |

Instants are whole microseconds and unbounded. Tokens and rates are real numbers. Clocks are
arbitrary: no theorem assumes that they agree or move forward, except where it says so
(`RateBoundElapsed`, the wait hint, and the lease theorem).

## Standing assumptions

- Worker ids are unique and not empty; all workers use the same limits and delivery policies.
- A worker either starts or releases each claimed item, never both (`src/werker/worker/core.py:320-328`).
- A claim and the read that follows its commit (`src/werker/broker/postgres.py:126-138`) are one step.
- `requeue(reset_attempts=True)` happens only when no earlier execution of that row can still write,
  its final ack or nack and a last heartbeat included. `Continuations.ResetIsFencedIffSafe` proves
  that fencing then holds, and that any claim that can still write, in whatever phase, may otherwise
  overwrite a later one. `reset_attempts=False` needs no premise for fencing.

## Where the code falls short of its documentation

- A reset while earlier claims can still write may leave a row RUNNING where no reaper finds it, give
  back a finished row, or undo a success. `Resets.ResetHarmsIff` says for each of these from which
  phases of an earlier claim it can come, and that it comes from no others;
  `Resets.OrphaningResetIsReachable` shows a run to such a reset.
- `rate_limit(rate="0.5/m")` is accepted, although the error message beside the check asks for at
  least one run (`src/werker/decorators.py:135-137`); such a path never runs:
  `TokenBucket.HalfARunNeverOpens`, and `TokenBucket.OpensEventuallyIffCapacity` for every capacity.
- After a reset, a released claim forgets when the row first started:
  `RowOps.ClaimReleaseRoundTrip` gives the exact condition, `Runs.ResetRowIsReachable` a run.
- A task cancelled while RUNNING is documented as never retried (`src/werker/api.py:38-41`). It is
  queued again when it fails before its worker notices, when its claim is handed back, or when the
  reaper takes it: `Cancelling.RunsAgainIff` says exactly when, `Cancelling.CancelledTaskIsRetried`
  and `Cancelling.CancelledClaimIsHandedBack` show it happen.
- An at-most-once task whose row the reaper failed may be requeued while its thread still runs:
  `Overlap.RequeueOverlapsUnlessQuiet`, reachable by `Overlap.UnquietRequeueIsReachable`.
- `syncschedules` saves every declared row whole (`src/werker/management/commands/syncschedules.py:80`).
  If the row fired between the sync's read and its save, the same stored time can fire again:
  `SyncRaces.SaveRepeatsIffFired`.
- An interval schedule of zero seconds, which only a direct edit of the row can produce, stays due
  after it fires, and can fire twice for one stored time: `Firing.SlotsDifferIffPositive`.

## Model

| member | source | states |
|---|---|---|
| TaskStore.TaskStore.Claim | src/werker/broker/postgres.py:64-139 | Takes only READY, due, unlocked rows of the queues, higher priority first and then earlier time; each limited path, in code point order, yields exactly as many as its room, burst, waiting time, slots and rows allow; the rows taken get the columns of the claim and all others stay; each item carries its row's new attempt and its retry budget; and this is the legal atomic claim, with the specified hint. |
| TaskStore.TaskStore.ClaimLimited | src/werker/broker/postgres.py:141-199 | For every k of at least one, takes k rows or more if and only if its bucket is free, k rows are due, k fits the room and the burst, the seconds since the last poll make up for k tokens at the rate, and k slots are free; leaves the bucket refilled to at most the burst less what it took; and asks to wait exactly if its limits fell short, until the next token or for a second. |
| TaskStore.TaskStore.ClaimLimitedPaths | src/werker/broker/postgres.py:96-108 | The loop over limited paths serves every path in order, including those it no longer has room for. |
| ClaimColumns.SelectedInColumns | src/werker/broker/postgres.py:81-114 | What the selection rule means in columns: who is taken before whom, in which order paths are served, and how many rows each yields. |
| ClaimColumns.VisitedInColumns | src/werker/broker/postgres.py:156-199 | What one visit of a limited path takes, leaves and asks for, in columns. |
| ClaimColumns.FirstInColumns | src/werker/broker/postgres.py:109-114 | A candidate left out has a lower priority than one taken, or the same and no earlier time. |
| ClaimSpec.BatchIsFullOrExhaustive | src/werker/broker/postgres.py:81-114 | A claim takes at most `limit` due unlocked rows, and a short batch has taken every unlimited one. |
| ClaimSpec.RoomIsWhatIsLeft | src/werker/broker/postgres.py:96-113 | The room offered to a path is `limit` minus the rows already taken. |
| ClaimSpec.ShareIsTheLeast | src/werker/broker/postgres.py:169-188 | A path gets the least of room, whole tokens, free concurrency and due rows: no limit is exceeded, and a shortfall is due to one of them. |
| ClaimSpec.HintIsLeastWait | src/werker/broker/postgres.py:106-108 | The batch hint is the least wait of all visited paths that were held back, and there is one exactly when some path was. |
| ClaimLoop.SelectedIsLegal | src/werker/broker/postgres.py:80-125 | Whatever the selection rule picks is within every rate and concurrency limit at commit. |
| ClaimLoop.ClaimIsDone | src/werker/broker/postgres.py:96-125 | The limited part and the top of the rest together are the complete selection. |
| Ranking.PickFirst | src/werker/broker/postgres.py:111-113 | ORDER BY with LIMIT: a first-k selection, no candidate left out that ranks before one taken. |
| Ranking.FirstKIsTight | src/werker/broker/postgres.py:111-113 | Two such selections differ only among rows of equal rank. |
| TaskStore.TaskStore.Ack | src/werker/broker/postgres.py:201-206 | Clears the claim of the row with this token, whatever its status, and changes nothing else. |
| TaskStore.TaskStore.Release | src/werker/broker/postgres.py:208-229 | Undoes the claim with this token and refunds its bucket; raises, with nothing written, exactly if that would reactivate a finished row whose key is taken. |
| TaskStore.TaskStore.Nack | src/werker/broker/postgres.py:231-240 | Puts the row back for `retry_after` if this claim still owns it. |
| TaskStore.TaskStore.Heartbeat | src/werker/broker/postgres.py:242-247 | Renews an owned claim, then, after anything others commit in between, reports a cancel request to one who still owns it. |
| TaskStore.TaskStore.ReclaimStale | src/werker/broker/postgres.py:249-309 | The unlocked RUNNING rows with the oldest heartbeats before the cutoff are queued again after their delay if at-least-once with retries left, and failed with an error otherwise; each is reported so, nothing else changes, and this is one legal atomic reap. |
| TaskStore.TaskStore.PickStale | src/werker/broker/postgres.py:254-259 | The reaper takes the rows with the oldest heartbeats. |
| TaskStore.Sort | src/werker/broker/postgres.py:269-279 | Splits the reclaimed rows into retries and failures, each row once. |
| TaskStore.TaskStore.MarkRunning | src/werker/results/db.py:42-56 | Records the worker if and only if it owns this attempt. |
| TaskStore.TaskStore.MarkSuccessful | src/werker/results/db.py:58-68 | Stores the result if and only if the caller owns this attempt. |
| TaskStore.TaskStore.MarkFailed | src/werker/results/db.py:70-91 | Appends the error, and fails the row unless it will be retried, if and only if the caller owns this attempt. |
| TaskStore.TaskStore.Cancel | src/werker/api.py:35-56 | A READY row has failed at once, with finish time and error; a RUNNING one gets a request; a finished one answers false, an unknown one raises. |
| TaskStore.TaskStore.Requeue | src/werker/api.py:59-88 | True exactly for a FAILED row whose key no other active row holds, which then waits to run now with its finish, claim and cancel request cleared; otherwise nothing is written. |
| RowOps.ClaimReleaseRoundTrip | src/werker/broker/postgres.py:117-125 | Release undoes a claim, up to the last attempt time, exactly if the row has a start time if and only if it was attempted; a row never attempted is restored in every column. |
| ReleasePick.PickThenReleaseAll | src/werker/broker/postgres.py:208-229 | Releasing a whole pick in any order restores its rows (same condition), touches no other, and leaves each rated bucket as an empty poll at the same time would. |
| TokenBucket.HintIsExact | src/werker/broker/postgres.py:190-199 | With a capacity of at least one, a path out of tokens opens for the next poll at `now` plus the hint and not before. |
| TokenBucket.HintIsExactThroughPolls | src/werker/broker/postgres.py:170-199 | The same after any number of polls that take nothing, by clocks in order. |
| TokenBucket.OpensIffWaited | src/werker/broker/postgres.py:170-174 | The rate lets a poll take k items if and only if they fit the burst and the seconds since the last poll are at least what k lacks over the rate. |
| TokenBucket.AllowanceIff | src/werker/broker/postgres.py:169-179 | A policy allows k items if and only if the poll asks for k, the rate lets it and k slots are free. |
| SerialRuns.OpeningIsKept | src/werker/broker/postgres.py:170-188 | Over every history that takes and refunds nothing of the path, with its polls in order, the path opens for k rows when its bucket said it would. |
| SerialRuns.ClaimableOverHistory | src/werker/broker/postgres.py:170-188 | After any such history a poll may take k rows if and only if k fits the burst, the request and the free slots, and the seconds since the bucket's last update before the history make up for k tokens. |
| TokenBucket.HalfARunNeverOpens | src/werker/decorators.py:135-137 | The policy of "0.5/m" is accepted, and its full bucket never opens. |
| TokenBucket.OpensEventuallyIffCapacity | src/werker/broker/postgres.py:169-174 | Some later poll finds a whole token if and only if the capacity is at least one. |
| TokenBucket.PollStaysInRange | src/werker/broker/postgres.py:170-188 | A poll within its allowance leaves between zero and capacity minus what it took. |
| TokenBucket.RefundUndoesPick | src/werker/broker/postgres.py:226-227 | Refunding everything a poll took leaves what an empty poll leaves. |
| SerialRuns.TokensStayInRange | src/werker/broker/postgres.py:156-188 | Over every history tokens stay at least zero, and at most the capacity after a poll. |
| SerialRuns.TokensAgainstNet | src/werker/broker/postgres.py:169-188 | Tokens are at most what was there, plus refills, minus claims, plus releases. |
| SerialRuns.RateBound | src/werker/broker/postgres.py:156-188 | From any poll on, claims minus releases are at most capacity + rate times the forward clock movement of the bucket. |
| SerialRuns.RateBoundElapsed | src/werker/broker/postgres.py:170-173 | With a nondecreasing clock that is capacity + rate times elapsed time. |
| SerialRuns.OpRunning | src/werker/broker/postgres.py:175-184 | Only a claim adds running rows to a path, and at most those it takes. |
| SerialRuns.OpKeepsCap | src/werker/broker/postgres.py:175-179 | No operation lifts a path above its `concurrency`. |
| SerialRuns.OpKeepsUnique | src/werker/models.py:83-89 | At most one READY or RUNNING row per key after every operation, including a requeue that rolls back. |
| SerialRuns.HistoryKeepsUniqueAndCap | src/werker/broker/postgres.py:96-115 | Both hold after every legal history. |
| RowHistory.HistoryFollows | src/werker/results/db.py:42-91 | Over every history whose releases find running rows, a row stays the same task, keeps all errors and workers ever recorded, and once successful keeps its result. |
| RowHistory.SuccessHasASource | src/werker/results/db.py:58-68 | Over such a history, the result and finish time of a successful row come from one `mark_successful` made by the owner of the claim. |
| RowHistory.NeverClaimedEarly | src/werker/broker/postgres.py:81-84 | Until a row is rescheduled, no claim whose clock is before its `run_after` takes it. |
| RowHistory.RetriesWait | src/werker/broker/postgres.py:231-240 | After a nack no claim comes before `retry_after`, and after a reap none before the reaper's clock plus the delay. |
| RowHistory.RetriesAreDueOnTime | src/werker/broker/postgres.py:231-240 | After a nack a claim is legal exactly from `retry_after` on, and after a reap exactly from its clock plus the delay, if the row was retried. |
| RowHistory.CancelRequestStays | src/werker/api.py:51-55 | A cancel request stays on the row until a requeue clears it. |
| Cancelling.CancelledWhileWaitingIsOver | src/werker/api.py:38-50 | A task cancelled while READY has failed, with one error more, and in no continuation without a requeue is it ever READY, RUNNING or claimed again. |
| Cancelling.RequeuedTaskWaits | src/werker/api.py:59-88 | A requeued task keeps its errors, has no request, claim or finish left, and can be claimed by any clock from then on. |
| Cancelling.FailedAttemptIsRetriedIff | src/werker/worker/core.py:585-623 | An attempt that fails is queued again if and only if retries are left, the exception is one to retry on, no request was noticed, and it is no timeout of an at-most-once task; otherwise it has failed for good. |
| Cancelling.NoticedFailureIsFinal | src/werker/worker/core.py:562-583 | A heartbeat that finds the request makes every failure of that attempt final. |
| Cancelling.EveryClaimGoesOn | src/werker/worker/core.py:393-501 | No phase is left without the steps that the code can take from it, crashes and timeouts included. |
| Cancelling.HeartbeatsAndOthersGoOn | src/werker/worker/core.py:562-583 | Heartbeats, reaps, claims, cancels and requeues come exactly when their filters let them. |
| Cancelling.RunsAgainIff | src/werker/api.py:38-55 | A RUNNING row, cancelled or not, can be queued again without a requeue if and only if its claim was not started, or retries are left and it is at-least-once or its holder decided to retry or may still fail unaware of the request; for a holder executing unaware that is just `attempts <= max_retries`. |
| Cancelling.ActKeepsStuck | src/werker/worker/core.py:585-623 | Otherwise no act of anyone, requeues apart, ever makes it READY. |
| Cancelling.ForgottenReturns | src/werker/worker/core.py:490-495 | A worker that noticed the request forgets it when another of its claims of the row ends, and then retries. |
| Cancelling.CancelledTaskIsRetried | src/werker/worker/core.py:562-618 | A run in which a task, whatever its delivery guarantee, is cancelled while it executes and is queued again. |
| Cancelling.CancelledClaimIsHandedBack | src/werker/broker/postgres.py:208-223 | A claim cancelled before its start is queued again by its release. |
| LockRefinement.EveryInterleavingIsSerial | src/werker/broker/postgres.py:80-125 | Every interleaving of claims, reaps, locked updates and single UPDATEs, lock by lock, commits what a serial history of legal atomic operations would. |
| LockRefinement.MoveKeepsLocksAndSerial | src/werker/broker/postgres.py:253-300 | One lock, read, write, commit, abort or statement keeps that correspondence and what open transactions rely on. |
| LockRefinement.OnlyLocksExclude | src/werker/broker/postgres.py:84-84 | Any number of transactions may be open, and each can lock every row its filter names that no other holds. |
| LockRefinement.CapHoldsUnderInterleaving | src/werker/broker/postgres.py:161-184 | Concurrency caps and the unique index hold at every point, with rows finishing between a claim's count and its commit. |
| LockRefinement.RateBoundUnderInterleaving | src/werker/broker/postgres.py:156-188 | From any poll on, claims minus releases in the order they took effect are within capacity + rate times clock movement, whatever was interleaved. |
| LockRefinement.ClaimUnnoticed | src/werker/broker/postgres.py:161-165 | A committing claim is not noticed by any other open transaction: not its locked rows, buckets, counts or reserved keys. |
| LockRefinement.SingleUnnoticed | src/werker/api.py:74-88 | The same for mark_running, mark_failed, cancel, requeue and release. |
| LockRefinement.TurnedAwayIsOperation | src/werker/api.py:76-85 | A write the unique index rejects is, at that moment, the whole operation: it changes nothing. |
| Fencing.ActKeepsInv | src/werker/worker/core.py:393-501 | Every act of workers, reaper and callers keeps the row invariant: shape, fencing and budget. |
| Fencing.HolderIsLast | src/werker/broker/postgres.py:201-247 | A claim that can still write and whose token matches is the latest claim of the row. |
| Runs.StaleClaimsAreFenced | src/werker/broker/postgres.py:201-247 | Over whole runs, no mark, ack, nack, release or heartbeat of an overtaken claim changes the row, heartbeats still under way after its end included, although `release` lowers `attempts`. |
| Runs.TokensAreUnique | src/werker/broker/postgres.py:117-125 | Since the last reset, attempt numbers strictly increase over all claims not released, finished and crashed ones included, and every claim that can still write is one of them. |
| Continuations.ResetIsFencedIffSafe | src/werker/api.py:59-73 | After a reset, overtaken claims change nothing in any continuation if and only if no claim could still write at that moment. |
| Continuations.TokenComesBack | src/werker/broker/postgres.py:117-125 | Claims by the same worker, reaped and requeued, bring the token of any earlier claim back after a reset. |
| Continuations.OwnersChangeTheRow | src/werker/broker/postgres.py:201-247 | In every phase a claim whose token is back has a write that changes the row. |
| Resets.ResetHarmsIff | src/werker/broker/postgres.py:201-240 | After a reset some continuation orphans the row (RUNNING, beyond any cutoff), gives a finished row back, or undoes a success, if and only if some earlier claim could still write and was in a phase leading there: for an orphan any but one about to retry, for giving back any that may still finish the row, for undoing any that may still succeed. |
| Resets.OrphansAreUnreachable | src/werker/broker/postgres.py:254-259 | A RUNNING row is reached by the reaper with some cutoff if and only if it has a heartbeat. |
| Resets.HarmfulClaimsHarm | src/werker/broker/postgres.py:201-229 | Such a claim, once a later one has its token, finishes the row; the later one, released, gives it back; claimed again, the stale ack orphans it. |
| Resets.ActKeepsWeak | src/werker/worker/core.py:393-501 | Without such a claim, every act keeps what is left of fencing and guards the row from the harm. |
| Resets.OrphaningResetIsReachable | src/werker/api.py:59-73 | A run to a FAILED row whose reset can orphan it. |
| Runs.LateAckIsReachable | src/werker/worker/core.py:606-623 | A run to a FAILED row whose first claim is about to ack. |
| Runs.ResetRowIsReachable | src/werker/api.py:59-73 | A run to a READY row with a start time and no attempt, whose claim a release does not undo. |
| Runs.ReachableShape | src/werker/broker/postgres.py:256-300 | RUNNING rows have an owner, an attempt and a heartbeat the reaper can reach; READY rows are unclaimed; `finished_at` marks exactly the finished rows; `attempts` is never negative. |
| Runs.ReachableRoundTrip | src/werker/broker/postgres.py:208-223 | On rows never reset, claim then release restores every column but the last attempt time, and all of them the first time. |
| Runs.SuccessIsForever | src/werker/results/db.py:58-68 | A SUCCESSFUL row never changes again, except that its claim is cleared. |
| Runs.FailureLeavesByRequeue | src/werker/api.py:59-88 | FAILED is left only by a requeue, to READY. |
| Budget.AttemptsAreBudgeted | src/werker/broker/__init__.py:51-55 | `attempts` is at most max_retries + 1 + the requeues that gave the row back and kept its attempts. |
| Budget.ExecutionsAreBudgeted | src/werker/broker/__init__.py:51-55 | The task function starts at most max_retries + 1 times, that often again per effective reset, and once more per effective requeue that kept attempts, however often the row is claimed and released. |
| Budget.StatusChangesAreBounded | src/werker/worker/core.py:585-623 | Apart from requeues and claim/release pairs, the status changes at most 2 (max_retries + 1) times, that often again per effective reset, and three times more per effective requeue that kept attempts. |
| Budget.BudgetWithoutRequeues | src/werker/broker/__init__.py:51-55 | Without requeues: max_retries + 1 executions and 2 (max_retries + 1) status changes. |
| Overlap.AtMostOnceNeverOverlaps | src/werker/worker/core.py:538-551 | When an attempt of an at-most-once row starts its function, every earlier one has ended, abandoned threads, shutdowns and reaping included, if no requeue came while one was running or about to. |
| Overlap.RequeueOverlapsUnlessQuiet | src/werker/api.py:59-88 | That premise is exact: a requeue is followed by no overlap in any continuation if and only if no earlier execution is running or about to. |
| Overlap.UnquietRequeueIsReachable | src/werker/broker/postgres.py:291-300 | A run whose row the reaper failed while its function runs. |
| Overlap.OneActorAlways | src/werker/worker/core.py:591-610 | Only the last claim of such a row can run its function, and no retry is decided while it may run. |
| Overlap.PunctualLeasesNeverOverlap | src/werker/worker/core.py:562-583 | If every claim still at work beats within the timeout and no thread is abandoned, no row has two executions at once, and whoever executes owns the row. |
| Overlap.LeaseHeldAlways | src/werker/worker/reaper.py:29-35 | Under the cutoff of the reaper loop, no working claim is ever taken away. |
| World.ActIsOperation | src/werker/worker/core.py:393-501 | What a worker or caller does to its row is exactly the database operation it sends; no other row changes. |
| World.ReachableIsSound | src/werker/models.py:83-89 | In every reachable world each row has a run of the protocol behind it, keys are unique and caps hold. |
| World.CommitsReleaseRunning | src/werker/broker/postgres.py:208-223 | In every world linked to runs, a release that matches finds its row RUNNING, although it does not test the status; `RowHistory` rests on this. |
| World.ReachableRowsAreSafe | src/werker/worker/core.py:393-623 | There, every row is within its budget of executions, and at-most-once rows requeued quietly or never do not overlap. |
| World.LegalBatchesAreEnabled | src/werker/broker/postgres.py:80-125 | A legal claim or reap is an enabled act of every row it takes. |
| World.EveryActIsAStep | src/werker/worker/core.py:393-501 | Every act the protocol enables for a row is a step of the world. |
| World.RowsOnlyFollow | src/werker/results/db.py:42-91 | Between any two moments of a run, rows stay, stay the same task, and lose no error, worker or result. |
| World.ResultsHaveASource | src/werker/results/db.py:58-68 | In every reachable world a successful row carries the value and time of one `mark_successful`, sent by the owner of its claim. |
| World.RowsAreAccountable | src/werker/results/db.py:58-91 | Exactly the successful rows have a return value, and every failed row has an error. |
| IssuedRuns.InterleavingIsWorldRun | src/werker/worker/core.py:393-501 | An interleaving of transactions in which each effect is one that somebody following the protocol issued then is a run of the world, with the same database. |
| IssuedRuns.InterleavedRowsAreSafe | src/werker/worker/core.py:393-623 | So at every point of it every committed row has a protocol run behind it in which no overtaken claim changed it, is within its budget, and does not overlap if at-most-once and requeued quietly. |
| UniqueEnqueue.Backend.WriteEnqueue | src/werker/backend.py:131-161 | Under arbitrary commits between its statements it creates the only active row of its key as its last step, or names the one active row of the key at the lookup, or gives up after two inserts that met a holder and two lookups that met none. |
| UniqueEnqueue.Backend.Insert | src/werker/backend.py:145-152 | Creates and enqueues in one transaction if id and key are free; otherwise writes nothing and says which was taken. |
| UniqueEnqueue.Backend.LookUp | src/werker/backend.py:153-160 | Names an active holder of the key if and only if there is one. |
| UniqueEnqueue.InsertIsCreate | src/werker/backend.py:145-148 | A successful insert is the legal `create` and leaves one holder of the key. |
| UniqueEnqueue.OthersKeepUnique | src/werker/models.py:83-89 | Whatever others commit keeps one active row per key. |
| Slots.SlotsAreBounded | src/werker/worker/core.py:256-262 | Over every interleaving, the executions that need a thread and did not time out, with the abandoned calls, fit the pool; all executions fit both limits; busy threads fit the pool; batches fit the batch size. |
| Slots.CountersAreRight | src/werker/worker/core.py:251-262 | `_inflight` and `_sync_inflight` hold exactly the executions, and those that need a thread, that were started and not yet discarded; `_abandoned` counts the calls not reported back; and the capacity is what these leave. |
| Slots.PollAsksForWhatIsFree | src/werker/worker/core.py:289-294 | A poll asks for the free capacity, up to the batch size. |
| Slots.EveryExecutionGoesOn | src/werker/worker/core.py:525-554 | An execution that needs a thread may always submit, return, time out and be discarded, whatever the counters say. |
| Slots.SubmittedCallsNeverQueue | src/werker/worker/core.py:525-534 | Whenever a call is submitted, some pool thread is free. |
| Slots.HandBackMeansFull | src/werker/worker/core.py:321-327 | An item is handed back only when the pool is exactly full, up to executions past their timeout that still count twice. |
| Slots.NothingLeaks | src/werker/worker/core.py:553-554 | With nothing in flight, only abandoned threads are missing from the capacity. |
| Slots.InvAlways | src/werker/worker/core.py:281-343 | The accounting invariant over every sequence of polls, starts, returns, timeouts and callbacks. |
| Slots.WorkerSlots.HandleBatch | src/werker/worker/core.py:319-328 | The loop starts or hands back every claimed item once, as a run of the slot machine, with anything happening while it awaits. |
| Slots.WorkerSlots.StartExecution | src/werker/worker/core.py:337-343 | Adds the new execution to `_inflight`, to `_sync_inflight` exactly if it needs a thread, and changes no other counter. |
| Schedules.StrictlyNextEnumerates | src/werker/schedules/scheduler.py:18-29 | The cron functions assumed here are exactly those that give the least instant of some set strictly after their argument. |
| Schedules.AdvancesIffPositive | src/werker/schedules/scheduler.py:18-29 | Fire times lie strictly after their argument: for intervals if and only if the interval is positive. |
| Schedules.OnGridIsUnique | src/werker/worker/scheduler.py:83-93 | The closed form is the one instant that keeps the phase and lies within one interval after `now`. |
| Schedules.SkipMissed | src/werker/worker/scheduler.py:83-93 | The skip loop terminates for every schedule; for intervals it gives the closed form, for cron what one call at `now` gives. |
| Firing.DispatchAdvances | src/werker/worker/scheduler.py:65-111 | A dispatch that commits moves `next_run_at` beyond its own `now` and gives up the lease. |
| Firing.IntervalAdvancesIffPositive | src/werker/worker/scheduler.py:100-105 | For an interval, exactly when the interval is positive. |
| Firing.SkipAndFireAgree | src/werker/worker/scheduler.py:83-105 | For cron, skipping and firing store the same next run. |
| Firing.EveryRunFiresApart | src/werker/worker/scheduler.py:65-111 | Over every run of leases, takeovers and dispatches, fires of a schedule lie apart as its interval demands, and without catch-up none is a whole occurrence late. |
| Firing.NoSlotFiresTwice | src/werker/worker/scheduler.py:65-80 | Each stored `next_run_at` fires at most once, and interval fires are at least one interval apart. |
| Firing.SlotsDifferIffPositive | src/werker/worker/scheduler.py:100-105 | For every interval schedule, no stored time fires twice in any run if and only if its seconds are positive. |
| Firing.NextRunNeverGoesBack | src/werker/worker/scheduler.py:100-105 | `next_run_at` never decreases, whatever the clocks. |
| Firing.LastRunIsLastFire | src/werker/worker/scheduler.py:101-105 | `last_run_at` is the clock of the last fire; a skip leaves it alone. |
| Firing.LapsedLeaseIsDead | src/werker/worker/scheduler.py:68-80 | Once a lease has passed on, nothing its former holder dispatches has any effect until it leases the row anew. |
| Firing.DisabledStaysPut | src/werker/worker/scheduler.py:68-82 | Over every run in which nobody enables it, a disabled schedule neither fires nor changes, whoever holds its lease. |
| Firing.FiresAreLeased | src/werker/broker/postgres.py:311-347 | Every fire uses up a lease of its own. |
| Firing.ScheduleStore.ClaimDueSchedules | src/werker/broker/postgres.py:311-347 | Leases the earliest due of the enabled schedules that nobody holds or whose holder was silent for the timeout, none locked; the rest stay. |
| Firing.ScheduleStore.DispatchSync | src/werker/worker/scheduler.py:65-111 | Nothing unless the row is enabled, due and leased to the worker; a schedule without catch-up that missed a whole occurrence skips to the one instant or occurrence after `now`; any other fires for its stored time and runs next after the later of that and `now`; a failed enqueue rolls back. |
| SyncSchedules.SyncReconciles | src/werker/management/commands/syncschedules.py:53-90 | Afterwards the enabled rows are exactly the declared names, with matching fields; no row is deleted; rows that already agreed keep their next run. |
| SyncSchedules.SyncIsIdempotent | src/werker/management/commands/syncschedules.py:41-99 | A second sync changes nothing, whatever its clock, and reports zeros. |
| SyncRaces.SaveRepeatsIffFired | src/werker/management/commands/syncschedules.py:53-80 | For a row that agrees with its declaration: after a save, some stored time can fire twice if and only if the row fired between the read and the save. |
| SyncRaces.FreshSavesNeverRepeat | src/werker/management/commands/syncschedules.py:53-80 | While no save comes after an unseen fire, no stored time of the row fires twice, whatever schedulers and syncs do. |
| SyncRaces.UndoneFireRepeats | src/werker/worker/scheduler.py:83-108 | The repetition: dispatches at the same clocks skip again and fire again. |
| SyncSchedules.RowIsReconciled | src/werker/management/commands/syncschedules.py:112-168 | What create, update and re-enable each make of a row. |
| SyncSchedules.Command.Handle | src/werker/management/commands/syncschedules.py:41-99 | Writes the specified table and counts the declarations without a row, those whose row disagreed, those whose row was disabled, and the rows nobody declares; or names the first invalid declaration and writes no row. |
| SyncSchedules.Command.Upsert | src/werker/management/commands/syncschedules.py:71-85 | The loop over declarations, against the table as it was read before the loop. |
| SyncSchedules.Command.Validate | src/werker/management/commands/syncschedules.py:47-51 | Finds the first declaration in an unknown time zone, if there is one. |

## Left out

- Django ORM, SQL text, connections and executors: only the effect of transactions, locks and filters is kept.
- The order of rows that ORDER BY leaves open, and of the read after a claim: any order is allowed.
- asyncio scheduling, signals, LISTEN/NOTIFY and wakeups: steps interleave arbitrarily.
- That a worker notices a cancel request in time: the query may come at any moment while the claim is under way, and which exception a task raises, and so whether `retry_on` matches it, is arbitrary.
- Transactions other than heartbeats that outlive the coroutine of a dropped claim: the claim counts as dropped once they are over.
- The async semaphore: an async function counts as executing from the moment it may start.
- Draining at shutdown in `Slots`: the accounting ends there. In `Protocol` a shutdown drops claims, with or without a surviving thread.
- Rounding of floating-point tokens; tokens are exact.
- Jitter and backoff arithmetic of retry delays: a delay is any number.
- croniter, time zone data and daylight saving: a function of expression, zone and instant, assumed strictly-next where a theorem says so.
- Key building for unique tasks, tracebacks and JSON normalisation: keys, errors and values are opaque strings.
- Pruning of finished rows: no operation deletes a row.
- Two syncs at once, and a save of changed declarations beside a running scheduler: `SyncRaces` has one sync at a time and unchanged declarations.
- Changes of declarations while schedules fire: only enabling and disabling is interleaved with dispatches.
- Validation of options and decorators, discovery of task modules, admin, statistics, presence rows and health files: easy or pure I/O.
- HistoryFollows: assumes that a release whose token matches finds its row RUNNING, which serial histories alone do not give; `World.CommitsReleaseRunning` proves it of workers, and `World.RowsOnlyFollow` states the result without it.
- SuccessHasASource: the same assumption; `World.ResultsHaveASource` states the result without it.
- AtMostOnceNeverOverlaps: assumes quiet requeues, without which it is false; `Overlap.RequeueOverlapsUnlessQuiet` is the exact condition.
- StaleClaimsAreFenced: assumes safe resets, without which it is false; `Continuations.ResetIsFencedIffSafe` is the exact condition.
- ReachableShape: assumes safe resets; `Resets.ResetHarmsIff` is the exact condition for a RUNNING row beyond the reaper's reach, and for a finished row given back with its finish time.
- SuccessIsForever: assumes safe resets; `Resets.ResetHarmsIff` is the exact condition.
- FailureLeavesByRequeue: assumes safe resets; `Resets.ResetHarmsIff` is the exact condition for finished rows.
