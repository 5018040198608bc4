/** One task row and everybody who acts on it: the workers that claimed it, the reaper, and the
    callers of `cancel` and `requeue`. Each act is one transaction or one step of a worker's
    `_run_claimed`; acts interleave freely. */
module Protocol {
  import opened Model
  import opened RowOps

  /** How far a worker got with one claim. */
  datatype Phase =
    | Held                      // claimed, neither started nor released
    | Starting                  // about to call mark_running
    | Loading                   // owns the claim, loading the task
    | Executing                 // waiting for the task function
    | Succeeding                // about to call mark_successful
    | Failing(willRetry: bool)  // about to call mark_failed
    | Acking
    | Nacking
    | Gone(released: bool)      // finished with the row, but for a heartbeat still under way

  /** The task function itself. It outlives its phase when a sync thread is abandoned. */
  datatype Body = Unstarted | Live | Ended

  /** One claim of the row; (worker, attempt) is its fencing token. `beats` is whether a heartbeat
      may still reach the database: cancelling the sender does not stop a statement under way. */
  datatype Lease = Lease(worker: string, attempt: int, phase: Phase, body: Body, lastBeat: int, beats: bool)

  /** The row, every claim ever made on it in order, and bookkeeping for the theorems: `base` is
      where the claims since the last reset of `attempts` begin, `grants` counts the requeues
      since then that kept `attempts`, and `changes` counts status changes since then, without
      requeues and without pairs of a claim and its release. `noticed` are the workers that have
      this row's id in their `_cancel_requested`. */
  datatype Cell = Cell(row: Row, leases: seq<Lease>, base: nat, grants: nat, changes: int, noticed: set<string>)

  /** What `_handle_failure` looks at besides the budget. */
  datatype Failure = Failure(timeout: bool, retryOnMatches: bool)

  datatype Act =
    | Claim(worker: string, now: int)
    | Release(i: nat)
    | Start(i: nat)
    | MarkRunning(i: nat)
    | LoadFails(i: nat, failure: Failure)
    | BodyStarts(i: nat)
    | BodyReturns(i: nat)
    | BodyRaises(i: nat, failure: Failure)
    | ThreadTimesOut(i: nat, failure: Failure)
    | ThreadReturns(i: nat)
    | MarkSuccessful(i: nat, value: string, now: int)
    | MarkFailed(i: nat, error: string, now: int)
    | Ack(i: nat)
    | Nack(i: nat, retryAfter: int)
    | Heartbeat(i: nat, now: int)
    | Notice(i: nat)
    | LastBeat(i: nat)
    | Drop(i: nat, threadSurvives: bool)
    | Reap(staleBefore: int, now: int, delay: int)
    | Cancel(now: int)
    | Requeue(reset: bool, now: int, keyFree: bool)

  predicate WillRetry(x: Cell, l: Lease, f: Failure) {
    && RetriesRemaining(l.attempt, x.row.maxRetries)
    && f.retryOnMatches
    && l.worker !in x.noticed
    && !(f.timeout && x.row.delivery.AtMostOnce?)
  }

  predicate ByWorker(a: Act) {
    !(a.Claim? || a.Reap? || a.Cancel? || a.Requeue?)
  }

  predicate InPhase(x: Cell, i: nat, p: Phase) {
    i < |x.leases| && x.leases[i].phase == p
  }

  predicate Outstanding(l: Lease) {
    !l.phase.Gone?
  }

  /** Whether the claim may still send a write to the database. */
  predicate CanWrite(l: Lease) {
    Outstanding(l) || l.beats
  }

  predicate HandedBack(l: Lease) {
    l.phase.Gone? && l.phase.released
  }

  /** Which act can come next. The filters of the database are in the effects, not here: a
      worker acts on what it remembers, not on what the row says. */
  predicate Enabled(x: Cell, a: Act) {
    match a
    case Claim(w, now) => w != "" && x.row.status.Ready? && x.row.runAfter <= now
    case Release(i) => InPhase(x, i, Held)
    case Start(i) => InPhase(x, i, Held)
    case MarkRunning(i) => InPhase(x, i, Starting)
    case LoadFails(i, _) => InPhase(x, i, Loading)
    case BodyStarts(i) => InPhase(x, i, Loading)
    case BodyReturns(i) => InPhase(x, i, Executing)
    case BodyRaises(i, _) => InPhase(x, i, Executing)
    case ThreadTimesOut(i, f) => InPhase(x, i, Executing) && f.timeout
    case ThreadReturns(i) => i < |x.leases| && x.leases[i].body.Live? && !x.leases[i].phase.Executing?
    case MarkSuccessful(i, _, _) => InPhase(x, i, Succeeding)
    case MarkFailed(i, _, _) => i < |x.leases| && x.leases[i].phase.Failing?
    case Ack(i) => InPhase(x, i, Acking)
    case Nack(i, _) => InPhase(x, i, Nacking)
    case Heartbeat(i, _) => i < |x.leases| && x.leases[i].beats
    case Notice(i) => i < |x.leases| && x.leases[i].beats && Outstanding(x.leases[i])
    case LastBeat(i) => i < |x.leases| && x.leases[i].beats && !Outstanding(x.leases[i])
    case Drop(i, survives) =>
      i < |x.leases| && Outstanding(x.leases[i]) && (survives ==> x.leases[i].body.Live?)
    case Reap(staleBefore, _, _) => Stale(x.row, staleBefore)
    case Cancel(_) => true
    case Requeue(_, _, _) => true
  }

  function WithPhase(x: Cell, i: nat, p: Phase): Cell
    requires i < |x.leases|
  {
    x.(leases := x.leases[i := x.leases[i].(phase := p)])
  }

  function WithBody(x: Cell, i: nat, b: Body): Cell
    requires i < |x.leases|
  {
    x.(leases := x.leases[i := x.leases[i].(body := b)])
  }

  /** A worker is done with a claim; once the function was called, it also forgets a cancel request
      for this row, whichever of its claims noticed it. */
  function Leave(x: Cell, i: nat): Cell
    requires i < |x.leases|
  {
    WithPhase(x, i, Gone(false)).(
      noticed := if x.leases[i].body.Unstarted? then x.noticed else x.noticed - {x.leases[i].worker})
  }

  /** Replaces the row, counting a status change. */
  function WithRow(x: Cell, r: Row): Cell {
    x.(row := r, changes := x.changes + if r.status == x.row.status then 0 else 1)
  }

  function Apply(x: Cell, a: Act): Cell
    requires Enabled(x, a)
  {
    match a
    case Claim(w, now) =>
      var r := Claimed(x.row, w, now);
      WithRow(x, r).(leases := x.leases + [Lease(w, r.attempts, Held, Unstarted, now, false)])
    case Release(i) =>
      var l := x.leases[i];
      if Holds(x.row, l.worker, l.attempt) then
        WithPhase(x, i, Gone(true)).(row := Released(x.row, l.worker, l.attempt), changes := x.changes - 1)
      else WithPhase(x, i, Gone(false))
    case Start(i) => WithPhase(x, i, Starting)
    case MarkRunning(i) =>
      var l := x.leases[i];
      if Owns(x.row, l.worker, l.attempt) then
        WithRow(WithPhase(x, i, Loading), MarkedRunning(x.row, l.worker, l.attempt))
      else WithPhase(x, i, Gone(false))
    case LoadFails(i, f) => WithPhase(x, i, Failing(WillRetry(x, x.leases[i], f)))
    case BodyStarts(i) =>
      x.(leases := x.leases[i := x.leases[i].(phase := Executing, body := Live, beats := true)])
    case BodyReturns(i) => WithBody(WithPhase(x, i, Succeeding), i, Ended)
    case BodyRaises(i, f) =>
      WithBody(WithPhase(x, i, Failing(WillRetry(x, x.leases[i], f))), i, Ended)
    case ThreadTimesOut(i, f) => WithPhase(x, i, Failing(WillRetry(x, x.leases[i], f)))
    case ThreadReturns(i) => WithBody(x, i, Ended)
    case MarkSuccessful(i, v, now) =>
      var l := x.leases[i];
      if Owns(x.row, l.worker, l.attempt) then
        WithRow(WithPhase(x, i, Acking), MarkedSuccessful(x.row, l.worker, l.attempt, v, now))
      else Leave(x, i)
    case MarkFailed(i, e, now) =>
      var l := x.leases[i];
      var retry := l.phase.willRetry;
      if Owns(x.row, l.worker, l.attempt) then
        WithRow(WithPhase(x, i, if retry then Nacking else Acking),
                MarkedFailed(x.row, l.worker, l.attempt, e, retry, now))
      else Leave(x, i)
    case Ack(i) =>
      var l := x.leases[i];
      WithRow(Leave(x, i), Acked(x.row, l.worker, l.attempt))
    case Nack(i, t) =>
      var l := x.leases[i];
      WithRow(Leave(x, i), Nacked(x.row, l.worker, l.attempt, t))
    case Heartbeat(i, now) =>
      var l := x.leases[i];
      if Owns(x.row, l.worker, l.attempt) then
        x.(row := Beaten(x.row, l.worker, l.attempt, now), leases := x.leases[i := l.(lastBeat := now)])
      else x
    case Notice(i) =>
      if Owns(x.row, x.leases[i].worker, x.leases[i].attempt) && x.row.cancelRequestedAt.Some? then
        x.(noticed := x.noticed + {x.leases[i].worker})
      else x
    case LastBeat(i) => x.(leases := x.leases[i := x.leases[i].(beats := false)])
    case Drop(i, survives) =>
      var y := Leave(x, i);
      if x.leases[i].body.Live? && !survives then WithBody(y, i, Ended) else y
    case Reap(_, now, delay) => WithRow(x, Reaped(x.row, now, delay))
    case Cancel(now) => WithRow(x, Cancelled(x.row, now))
    case Requeue(reset, now, keyFree) =>
      if !keyFree || !x.row.status.Failed? then x
      else if reset then Cell(Requeued(x.row, true, now), x.leases, |x.leases|, 0, 0, x.noticed)
      else x.(row := Requeued(x.row, false, now), grants := x.grants + 1)
  }

  /** `requeue(reset_attempts=True)` makes tokens start over, so it must wait until no earlier
      execution of the row can still write, late heartbeats included. */
  predicate ResetIsSafe(x: Cell, a: Act) {
    a.Requeue? && a.reset && a.keyFree && x.row.status.Failed? ==>
      forall i | 0 <= i < |x.leases| :: !CanWrite(x.leases[i])
  }

  predicate Fresh(x: Cell) {
    && x.row.status.Ready? && Unheld(x.row) && x.row.attempts == 0
    && x.row.startedAt.None? && x.row.lastAttemptedAt.None? && x.row.finishedAt.None?
    && x.leases == [] && x.base == 0 && x.grants == 0 && x.changes == 0 && x.noticed == {}
  }

  // ---- The invariant ----

  /** The shape of every reachable row. */
  predicate Shape(x: Cell) {
    var r := x.row;
    && (r.claimedBy == "" <==> r.claimedAt.None?)
    && (r.claimedBy == "" <==> r.lastHeartbeatAt.None?)
    && (r.status.Ready? ==> r.claimedBy == "")
    && (r.status.Running? ==> r.claimedBy != "" && r.attempts >= 1)
    && (r.finishedAt.Some? <==> Terminal(r))
    && r.attempts >= 0
    && (r.attempts >= 1 ==> r.startedAt.Some?)
    && (x.base == 0 && r.attempts == 0 ==> r.startedAt.None? && r.lastAttemptedAt.None?)
    && (x.leases == [] ==> r.attempts == 0 && r.startedAt.None? && r.lastAttemptedAt.None?)
  }

  predicate LeaseOk(x: Cell, l: Lease) {
    && l.worker != "" && l.attempt >= 1
    && (!HandedBack(l) ==> l.attempt <= x.row.attempts)
    && (l.phase == Failing(true) || l.phase == Nacking ==> l.attempt <= x.row.maxRetries)
    && (l.phase.Acking? && Holds(x.row, l.worker, l.attempt) ==> Terminal(x.row))
    && (l.phase.Executing? ==> l.body.Live?)
    && (l.phase.Held? || l.phase.Starting? || l.phase.Loading? || HandedBack(l) ==> l.body.Unstarted?)
    && (l.beats ==> !l.body.Unstarted?)
  }

  /** Fencing: the claims since the last reset that were not handed back have strictly increasing
      attempt numbers, none above the row's, and a held row is held by the last of them. */
  predicate Fenced(x: Cell) {
    var n := |x.leases|;
    && x.base <= n
    && (forall i | 0 <= i < x.base :: !CanWrite(x.leases[i]))
    && (forall i | x.base <= i < n :: LeaseOk(x, x.leases[i]))
    && (forall i, j | x.base <= i < j < n && !HandedBack(x.leases[i]) && !HandedBack(x.leases[j]) ::
          x.leases[i].attempt < x.leases[j].attempt)
    && (x.row.claimedBy != "" ==>
          && x.base < n && !HandedBack(x.leases[n - 1])
          && Holds(x.row, x.leases[n - 1].worker, x.leases[n - 1].attempt)
          && (Terminal(x.row) ==> x.leases[n - 1].phase.Acking? || x.leases[n - 1].phase.Gone?))
  }

  /** The retry budget and the count of status changes. */
  predicate Budgeted(x: Cell) {
    var r := x.row;
    var budget := r.maxRetries + x.grants;
    match r.status
    case Ready => r.attempts <= budget && x.changes <= 2 * r.attempts + x.grants
    case Running => r.attempts <= budget + 1 && x.changes <= 2 * r.attempts - 1 + x.grants
    case _ =>
      && r.attempts <= budget + 1
      && x.changes <= 2 * r.attempts + x.grants + (if r.attempts <= budget then 1 else 0)
  }

  predicate Inv(x: Cell) {
    Shape(x) && Fenced(x) && Budgeted(x)
  }
}
