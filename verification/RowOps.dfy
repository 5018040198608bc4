/** What each broker, result-store and API call does to the one row it addresses.
    Every function includes the filter of its UPDATE, or the check made under the row
    lock: a row that fails it is returned unchanged. */
module RowOps {
  import opened Model

  const REAPER_ERROR := "werker.exceptions.StaleClaimReclaimed"
  const CANCELLED_ERROR := "werker.exceptions.TaskCancelled"

  /** `ack` and `release` test the claim token only, never the status. */
  predicate Holds(r: Row, w: string, attempt: int) {
    r.claimedBy == w && r.attempts == attempt
  }

  predicate Owns(r: Row, w: string, attempt: int) {
    r.status.Running? && Holds(r, w, attempt)
  }

  /** `attempt` counts from one, so a budget of n retries allows n + 1 attempts. */
  predicate RetriesRemaining(attempt: int, maxRetries: nat) {
    attempt <= maxRetries
  }

  predicate Due(r: Row, queues: set<string>, now: int) {
    r.status.Ready? && r.queue in queues && r.runAfter <= now
  }

  /** A missing heartbeat never compares as older than the cutoff. */
  predicate Stale(r: Row, staleBefore: int) {
    r.status.Running? && r.lastHeartbeatAt.Some? && r.lastHeartbeatAt.value < staleBefore
  }

  function Unclaimed(r: Row): Row {
    r.(claimedBy := "", claimedAt := None, lastHeartbeatAt := None)
  }

  function Claimed(r: Row, w: string, now: int): Row {
    r.(status := Running, claimedBy := w, claimedAt := Some(now), lastHeartbeatAt := Some(now),
       startedAt := if r.startedAt.Some? then r.startedAt else Some(now),
       lastAttemptedAt := Some(now), attempts := r.attempts + 1)
  }

  function Acked(r: Row, w: string, attempt: int): Row {
    if Holds(r, w, attempt) then Unclaimed(r) else r
  }

  function Released(r: Row, w: string, attempt: int): Row {
    if Holds(r, w, attempt) then
      Unclaimed(r).(status := Ready, attempts := r.attempts - 1,
                    startedAt := if r.attempts == 1 then None else r.startedAt,
                    lastAttemptedAt := if r.attempts == 1 then None else r.lastAttemptedAt)
    else r
  }

  function Nacked(r: Row, w: string, attempt: int, retryAfter: int): Row {
    if Owns(r, w, attempt) then Unclaimed(r).(status := Ready, runAfter := retryAfter) else r
  }

  function Beaten(r: Row, w: string, attempt: int, now: int): Row {
    if Owns(r, w, attempt) then r.(lastHeartbeatAt := Some(now)) else r
  }

  function MarkedRunning(r: Row, w: string, attempt: int): Row {
    if Owns(r, w, attempt) then r.(workerIds := r.workerIds + [w]) else r
  }

  function MarkedSuccessful(r: Row, w: string, attempt: int, value: string, now: int): Row {
    if Owns(r, w, attempt) then
      r.(status := Successful, returnValue := Some(value), finishedAt := Some(now))
    else r
  }

  function MarkedFailed(r: Row, w: string, attempt: int, error: string, willRetry: bool, now: int): Row {
    if !Owns(r, w, attempt) then r
    else if willRetry then r.(errors := r.errors + [error])
    else r.(errors := r.errors + [error], status := Failed, finishedAt := Some(now))
  }

  predicate ReapRetries(r: Row) {
    r.delivery.AtLeastOnce? && RetriesRemaining(r.attempts, r.maxRetries)
  }

  /** The reaper's decision on a row it has locked. */
  function Reaped(r: Row, now: int, delay: int): Row {
    if ReapRetries(r) then Unclaimed(r).(status := Ready, runAfter := now + delay)
    else Unclaimed(r).(status := Failed, finishedAt := Some(now), errors := r.errors + [REAPER_ERROR])
  }

  function Cancelled(r: Row, now: int): Row {
    match r.status
    case Ready => r.(status := Failed, finishedAt := Some(now), errors := r.errors + [CANCELLED_ERROR])
    case Running => if r.cancelRequestedAt.None? then r.(cancelRequestedAt := Some(now)) else r
    case _ => r
  }

  function Requeued(r: Row, reset: bool, now: int): Row {
    if r.status.Failed? then
      Unclaimed(r).(status := Ready, runAfter := now, finishedAt := None, cancelRequestedAt := None,
                    attempts := if reset then 0 else r.attempts)
    else r
  }

  /** Two rows that differ at most in when they were last attempted. */
  predicate SameButLastAttempt(a: Row, b: Row) {
    a == b.(lastAttemptedAt := a.lastAttemptedAt)
  }

  predicate Unheld(r: Row) {
    r.claimedBy == "" && r.claimedAt.None? && r.lastHeartbeatAt.None?
  }

  /** Releasing a claim undoes it, up to the time of the last attempt, exactly when the row has a
      start time if and only if it was attempted before. A requeue that resets `attempts` breaks
      this: the row looks never attempted, and the release forgets when it first started. */
  lemma ClaimReleaseRoundTrip(r: Row, w: string, now: int)
    requires r.status.Ready? && Unheld(r)
    ensures var back := Released(Claimed(r, w, now), w, r.attempts + 1);
            && (SameButLastAttempt(back, r) <==> (r.attempts == 0 <==> r.startedAt.None?))
            && (r.attempts == 0 && r.startedAt.None? && r.lastAttemptedAt.None? ==> back == r)
  {
    var c := Claimed(r, w, now);
    assert Holds(c, w, r.attempts + 1);
    var back := Released(c, w, r.attempts + 1);
    assert back == r.(startedAt := if r.attempts == 0 then None else c.startedAt,
                      lastAttemptedAt := if r.attempts == 0 then None else Some(now));
  }
}
