/** When a RUNNING task, cancelled or not, can be queued again without being requeued. Asking a
    running task to stop changes nothing but a flag, so what can still happen to it depends on how
    far its holder got, on who noticed the flag, and on the retry budget. */
module Cancelling {
  import opened Model
  import opened RowOps
  import opened Protocol
  import opened Fencing
  import opened Runs
  import opened Continuations

  predicate NotRequeued(x: Cell, a: Act) {
    !a.Requeue?
  }

  /** A RUNNING row is held by the last claim made on it. */
  function Holder(x: Cell): Lease
    requires x.leases != []
  {
    x.leases[|x.leases| - 1]
  }

  /** A claim that will, or may come to, forget the cancel request in its worker when it ends. */
  predicate WillForget(l: Lease) {
    Outstanding(l) && (l.phase.Loading? || !l.body.Unstarted?)
  }

  /** The holder's worker noticed the request, and no other claim of it will make it forget. */
  predicate NoticedForGood(x: Cell)
    requires x.leases != []
  {
    && Holder(x).worker in x.noticed
    && forall j | 0 <= j < |x.leases| - 1 && x.leases[j].worker == Holder(x).worker :: !WillForget(x.leases[j])
  }

  predicate BeforeTheOutcome(p: Phase) {
    p.Starting? || p.Loading? || p.Executing?
  }

  /** Either the claim was not started yet, or there are retries left and somebody to grant one:
      the reaper, for an at-least-once row, or a holder that decided to retry or may still decide so. */
  predicate MayRunAgain(x: Cell)
    requires x.leases != []
  {
    var p := Holder(x).phase;
    || p.Held?
    || (x.row.attempts <= x.row.maxRetries
        && (|| x.row.delivery.AtLeastOnce?
            || p == Failing(true) || p.Nacking?
            || (BeforeTheOutcome(p) && !NoticedForGood(x))))
  }

  // ---- It never runs again otherwise ----

  predicate Stuck(x: Cell) {
    Terminal(x.row) || (x.row.status.Running? && x.leases != [] && !MayRunAgain(x))
  }

  lemma TerminalStays(x: Cell, a: Act)
    requires Inv(x) && Enabled(x, a) && !a.Requeue? && Terminal(x.row)
    ensures Terminal(Apply(x, a).row) && Apply(x, a).row.status == x.row.status
  {
    if ByWorker(a) && CanWrite(x.leases[a.i]) && Holds(x.row, x.leases[a.i].worker, x.leases[a.i].attempt) {
      HolderIsLast(x, a.i);
    }
  }

  lemma OthersKeepStuck(x: Cell, a: Act)
    requires Inv(x) && Enabled(x, a) && !a.Requeue? && !ByWorker(a)
    requires x.row.status.Running? && x.leases != [] && !MayRunAgain(x)
    ensures Stuck(Apply(x, a))
  {
    hide Shape, Fenced, Budgeted;
  }

  /** A claim that was overtaken touches neither the row nor the holder. */
  lemma OvertakenKeepsStuck(x: Cell, a: Act)
    requires Inv(x) && Enabled(x, a) && ByWorker(a) && a.i + 1 < |x.leases|
    requires x.row.status.Running? && !MayRunAgain(x)
    ensures Stuck(Apply(x, a))
  {
    OvertakenChangesNothing(x, a);
    OvertakenLease(x, a);
    var y := Apply(x, a);
    hide Inv, Apply, Enabled;
    assert Holder(y) == Holder(x);
    assert forall j | 0 <= j < |x.leases| && j != a.i :: y.leases[j] == x.leases[j];
  }

  lemma OvertakenLease(x: Cell, a: Act)
    requires Inv(x) && Enabled(x, a) && ByWorker(a) && a.i + 1 < |x.leases|
    ensures var y, l := Apply(x, a), x.leases[a.i];
            && y.leases == x.leases[a.i := y.leases[a.i]] && y.leases[a.i].worker == l.worker
            && (WillForget(y.leases[a.i]) ==> WillForget(l))
            && (forall w | w in x.noticed && w !in y.noticed :: w == l.worker && WillForget(l))
  {
    var l := x.leases[a.i];
    if CanWrite(l) && Holds(x.row, l.worker, l.attempt) {
      HolderIsLast(x, a.i);
    }
  }

  lemma HolderKeepsStuck(x: Cell, a: Act)
    requires Inv(x) && Enabled(x, a) && ByWorker(a) && a.i == |x.leases| - 1
    requires x.row.status.Running? && !MayRunAgain(x)
    ensures Stuck(Apply(x, a))
  {
    var y := Apply(x, a);
    assert forall j | 0 <= j < |x.leases| - 1 :: y.leases[j] == x.leases[j];
    assert Holds(x.row, Holder(x).worker, Holder(x).attempt);
  }

  lemma ActKeepsStuck(x: Cell, a: Act)
    requires Inv(x) && Enabled(x, a) && !a.Requeue? && Stuck(x)
    ensures Stuck(Apply(x, a))
  {
    hide Inv, Apply, MayRunAgain;
    if Terminal(x.row) {
      TerminalStays(x, a);
    } else if !ByWorker(a) {
      OthersKeepStuck(x, a);
    } else if a.i + 1 < |x.leases| {
      OvertakenKeepsStuck(x, a);
    } else {
      HolderKeepsStuck(x, a);
    }
  }

  lemma {:induction false} PathKeepsStuck(xs: seq<Cell>, acts: seq<Act>, k: nat)
    requires IsPath(xs, acts) && Keeps(NotRequeued, xs, acts) && Inv(xs[0]) && Stuck(xs[0]) && k <= |acts|
    ensures Inv(xs[k]) && Stuck(xs[k])
  {
    hide Inv, Stuck, Apply, Enabled;
    if k > 0 {
      PathKeepsStuck(xs, acts, k - 1);
      assert NotRequeued(xs[k - 1], acts[k - 1]);
      ActKeepsStuck(xs[k - 1], acts[k - 1]);
      ActKeepsInv(xs[k - 1], acts[k - 1]);
    }
  }

  // ---- It can run again ----

  /** Some continuation without a requeue queues the row again. */
  ghost predicate Returns(x: Cell) {
    exists y :: Reaches(NotRequeued, x, y) && y.row.status.Ready?
  }

  lemma NackReturns(x: Cell, y: Cell)
    requires Reaches(NotRequeued, x, y) && y.leases != [] && Holder(y).phase.Nacking?
    requires Owns(y.row, Holder(y).worker, Holder(y).attempt)
    ensures Returns(x)
  {
    hide Reaches;
    Follows(NotRequeued, x, y, Nack(|y.leases| - 1, 0));
    assert Apply(y, Nack(|y.leases| - 1, 0)).row.status.Ready?;
  }

  lemma RetryReturns(x: Cell, y: Cell)
    requires Reaches(NotRequeued, x, y) && y.leases != [] && Holder(y).phase == Failing(true)
    requires Owns(y.row, Holder(y).worker, Holder(y).attempt)
    ensures Returns(x)
  {
    hide Reaches, Returns;
    var a := MarkFailed(|y.leases| - 1, "error", 0);
    Follows(NotRequeued, x, y, a);
    NackReturns(x, Apply(y, a));
  }

  /** A holder that has not noticed the request fails in time. */
  lemma UnnoticedReturns(x: Cell, y: Cell)
    requires Reaches(NotRequeued, x, y) && y.leases != [] && BeforeTheOutcome(Holder(y).phase)
    requires Owns(y.row, Holder(y).worker, Holder(y).attempt) && y.row.attempts <= y.row.maxRetries
    requires Holder(y).worker !in y.noticed
    ensures Returns(x)
  {
    hide Reaches, Returns;
    var n := |y.leases| - 1;
    if Holder(y).phase.Executing? {
      Follows(NotRequeued, x, y, BodyRaises(n, Failure(false, true)));
      RetryReturns(x, Apply(y, BodyRaises(n, Failure(false, true))));
    } else if Holder(y).phase.Loading? {
      Follows(NotRequeued, x, y, LoadFails(n, Failure(false, true)));
      RetryReturns(x, Apply(y, LoadFails(n, Failure(false, true))));
    } else {
      Follows(NotRequeued, x, y, MarkRunning(n));
      var z := Apply(y, MarkRunning(n));
      Follows(NotRequeued, x, z, LoadFails(n, Failure(false, true)));
      RetryReturns(x, Apply(z, LoadFails(n, Failure(false, true))));
    }
  }

  /** Another claim of the same worker ends, and its worker forgets the request. */
  lemma ForgottenReturns(x: Cell, j: nat)
    requires x.leases != [] && BeforeTheOutcome(Holder(x).phase)
    requires Owns(x.row, Holder(x).worker, Holder(x).attempt) && x.row.attempts <= x.row.maxRetries
    requires j < |x.leases| - 1 && x.leases[j].worker == Holder(x).worker && WillForget(x.leases[j])
    ensures Returns(x)
  {
    hide Reaches, Returns;
    Stays(NotRequeued, x);
    var y := x;
    if x.leases[j].body.Unstarted? {
      Follows(NotRequeued, x, x, BodyStarts(j));
      y := Apply(x, BodyStarts(j));
    }
    Follows(NotRequeued, x, y, Drop(j, false));
    UnnoticedReturns(x, Apply(y, Drop(j, false)));
  }

  lemma MayMeansReturns(x: Cell)
    requires Inv(x) && x.row.status.Running? && x.leases != [] && MayRunAgain(x)
    ensures Returns(x)
  {
    var n := |x.leases| - 1;
    var p := Holder(x).phase;
    assert Owns(x.row, Holder(x).worker, Holder(x).attempt);
    Stays(NotRequeued, x);
    if p.Held? {
      Follows(NotRequeued, x, x, Release(n));
    } else if x.row.delivery.AtLeastOnce? {
      Follows(NotRequeued, x, x, Reap(x.row.lastHeartbeatAt.value + 1, 0, 0));
    } else if p.Nacking? {
      NackReturns(x, x);
    } else if p == Failing(true) {
      RetryReturns(x, x);
    } else if Holder(x).worker !in x.noticed {
      UnnoticedReturns(x, x);
    } else {
      var j: nat :| j < n && x.leases[j].worker == Holder(x).worker && WillForget(x.leases[j]);
      ForgottenReturns(x, j);
    }
  }

  /** The documentation says that a task cancelled while RUNNING is never retried. It comes back
      without a requeue if and only if its claim was not started yet, or retries are left and the
      row is at-least-once, so that the reaper takes it, or its holder decided to retry or may
      still fail with nobody at its worker aware of the request. In particular a holder that is
      executing unnoticed retries whenever `attempts <= maxRetries`, whatever its delivery
      guarantee; once it has noticed, only the reaper can bring the row back. */
  lemma RunsAgainIff(x: Cell)
    requires Inv(x) && x.row.status.Running?
    ensures x.leases != [] && (Returns(x) <==> MayRunAgain(x))
    ensures Holder(x).phase.Executing? && Holder(x).worker !in x.noticed ==>
              (Returns(x) <==> x.row.attempts <= x.row.maxRetries)
  {
    assert x.leases != [];
    if MayRunAgain(x) {
      MayMeansReturns(x);
    } else if y :| Reaches(NotRequeued, x, y) && y.row.status.Ready? {
      var xs, acts :| IsPath(xs, acts) && Keeps(NotRequeued, xs, acts) && xs[0] == x && xs[|acts|] == y;
      PathKeepsStuck(xs, acts, |acts|);
    }
  }

  // ---- Such runs exist ----

  /** Cancelled while it executes and unnoticed, even an at-most-once task is queued again. */
  lemma CancelledTaskIsRetried(x: Cell, w: string) returns (xs: seq<Cell>, acts: seq<Act>)
    requires Fresh(x) && w != "" && x.row.runAfter <= 0 && x.row.maxRetries >= 1
    requires x.row.cancelRequestedAt.None?
    ensures IsRun(xs, acts) && SafeResets(xs, acts) && xs[0] == x && |acts| == 8
    ensures forall k | 0 <= k < |acts| :: !acts[k].Requeue?
    ensures xs[5].row.status.Running? && xs[5].row.cancelRequestedAt.Some?
    ensures xs[5].leases != [] && Holder(xs[5]).phase.Executing?
    ensures xs[8].row.status.Ready? && xs[8].row.cancelRequestedAt.Some?
  {
    hide Apply, Enabled, Owns;
    xs, acts := ClaimAndStart(x, w);
    var x4, x5 := CancelWhileExecuting(xs[3], w);
    var x6, x7, x8 := FailAndRetry(x5, w);
    xs := xs + [x4, x5, x6, x7, x8];
    acts := acts + [BodyStarts(0), Cancel(0), BodyRaises(0, Failure(false, true)),
                    MarkFailed(0, "error", 1), Nack(0, 2)];
  }

  lemma CancelWhileExecuting(x: Cell, w: string) returns (x4: Cell, x5: Cell)
    requires Owns(x.row, w, 1) && x.leases == [Lease(w, 1, Loading, Unstarted, 0, false)]
    requires x.row.cancelRequestedAt.None? && x.noticed == {}
    ensures Enabled(x, BodyStarts(0)) && x4 == Apply(x, BodyStarts(0))
    ensures Enabled(x4, Cancel(0)) && x5 == Apply(x4, Cancel(0))
    ensures x5.leases == [Lease(w, 1, Executing, Live, 0, true)] && x5.noticed == {}
    ensures Owns(x5.row, w, 1) && x5.row.status.Running? && x5.row.cancelRequestedAt.Some?
    ensures x5.row.maxRetries == x.row.maxRetries
  {
    x4 := Apply(x, BodyStarts(0));
    x5 := Apply(x4, Cancel(0));
  }

  lemma FailAndRetry(x: Cell, w: string) returns (x6: Cell, x7: Cell, x8: Cell)
    requires x.row.maxRetries >= 1 && Owns(x.row, w, 1) && x.noticed == {}
    requires x.leases == [Lease(w, 1, Executing, Live, 0, true)]
    ensures var f := Failure(false, true);
            && Enabled(x, BodyRaises(0, f)) && x6 == Apply(x, BodyRaises(0, f))
            && Enabled(x6, MarkFailed(0, "error", 1)) && x7 == Apply(x6, MarkFailed(0, "error", 1))
            && Enabled(x7, Nack(0, 2)) && x8 == Apply(x7, Nack(0, 2))
    ensures x8.row.status.Ready? && x8.row.cancelRequestedAt == x.row.cancelRequestedAt
  {
    x6 := Apply(x, BodyRaises(0, Failure(false, true)));
    assert x6.leases == [Lease(w, 1, Failing(true), Ended, 0, true)];
    x7 := Apply(x6, MarkFailed(0, "error", 1));
    assert x7.leases == [Lease(w, 1, Nacking, Ended, 0, true)] && Owns(x7.row, w, 1);
    x8 := Apply(x7, Nack(0, 2));
  }

  /** Cancelled between its claim and its start, a task handed back is queued again. */
  lemma CancelledClaimIsHandedBack(x: Cell, w: string)
    requires Fresh(x) && w != "" && x.row.runAfter <= 0 && x.row.cancelRequestedAt.None?
    ensures var c := Apply(x, Claim(w, 0));
            var r := Apply(c, Cancel(1));
            && r.row.status.Running? && r.row.cancelRequestedAt.Some?
            && Enabled(r, Release(0))
            && Apply(r, Release(0)).row.status.Ready? && Apply(r, Release(0)).row.cancelRequestedAt.Some?
  {
  }

  // ---- Cancelling a task that waits ----

  lemma {:induction false} FailedStays(xs: seq<Cell>, acts: seq<Act>, k: nat)
    requires IsPath(xs, acts) && Keeps(NotRequeued, xs, acts) && Inv(xs[0]) && k <= |acts|
    requires xs[0].row.status == Failed
    ensures Inv(xs[k]) && xs[k].row.status == Failed
  {
    hide Inv, Apply, Enabled;
    if k > 0 {
      FailedStays(xs, acts, k - 1);
      assert NotRequeued(xs[k - 1], acts[k - 1]);
      TerminalStays(xs[k - 1], acts[k - 1]);
      ActKeepsInv(xs[k - 1], acts[k - 1]);
    }
  }

  /** A task cancelled while it waits has failed at once, with one error more, and never runs: in no
      continuation without a requeue is it READY or RUNNING again, so nobody claims it. */
  lemma CancelledWhileWaitingIsOver(x: Cell, now: int)
    requires Inv(x) && x.row.status == Ready
    ensures var y := Apply(x, Cancel(now));
            && y.row.status == Failed && y.row.finishedAt == Some(now)
            && y.row.errors == x.row.errors + ["werker.exceptions.TaskCancelled"]
            && forall z | Reaches(NotRequeued, y, z) ::
                 z.row.status == Failed && forall w, t :: !Enabled(z, Claim(w, t))
  {
    var y := Apply(x, Cancel(now));
    ActKeepsInv(x, Cancel(now));
    forall z | Reaches(NotRequeued, y, z) ensures z.row.status == Failed {
      var xs, acts :| IsPath(xs, acts) && Keeps(NotRequeued, xs, acts) && xs[0] == y && xs[|acts|] == z;
      FailedStays(xs, acts, |acts|);
    }
  }

  /** A requeue puts a FAILED task back to run now: anybody may claim it at once, nothing remembers
      its cancel request or its finish, and its errors are kept. */
  lemma RequeuedTaskWaits(x: Cell, reset: bool, now: int)
    requires Inv(x) && x.row.status == Failed
    ensures var y := Apply(x, Requeue(reset, now, true));
            && y.row.status == Ready && Unheld(y.row)
            && y.row.cancelRequestedAt.None? && y.row.finishedAt.None? && y.row.errors == x.row.errors
            && y.row.attempts == (if reset then 0 else x.row.attempts)
            && forall w, t :: Enabled(y, Claim(w, t)) <==> w != "" && t >= now
  {
  }

  // ---- How an attempt ends ----

  /** What happens to the row when an attempt fails, by an exception of the task or of its loading, or
      by a timeout that leaves its thread running. It is retried at the time given if and only if
      retries are left, the exception is one to retry on, its worker noticed no cancel request, and
      it is not a timeout of an at-most-once task; otherwise it has failed for good. */
  lemma FailedAttemptIsRetriedIff(x: Cell, i: nat, a: Act, now: int, t: int)
    requires Inv(x) && i < |x.leases| && Owns(x.row, x.leases[i].worker, x.leases[i].attempt)
    requires || ((a.BodyRaises? || (a.ThreadTimesOut? && a.failure.timeout)) && x.leases[i].phase == Executing)
             || (a.LoadFails? && x.leases[i].phase == Loading)
    requires a.i == i
    ensures Enabled(x, a) && Enabled(Apply(x, a), MarkFailed(i, "error", now))
    ensures var y := Apply(x, a);
            var z := Apply(y, MarkFailed(i, "error", now));
            && y.row == x.row && z.row.errors == x.row.errors + ["error"]
            && (a.ThreadTimesOut? <==> y.leases[i].body == Live)
            && if x.row.attempts <= x.row.maxRetries && a.failure.retryOnMatches && x.leases[i].worker !in x.noticed
                  && !(a.failure.timeout && x.row.delivery == AtMostOnce)
               then && Enabled(z, Nack(i, t))
                    && Apply(z, Nack(i, t)).row == Unclaimed(z.row).(status := Ready, runAfter := t)
               else && z.row.status == Failed && z.row.finishedAt == Some(now)
                    && Enabled(z, Ack(i)) && Apply(z, Ack(i)).row == Unclaimed(z.row)
  {
    var y := Apply(x, a);
    assert y.leases[i].phase.Failing?;
    assert Owns(y.row, y.leases[i].worker, y.leases[i].attempt);
  }

  /** A worker may stop at any moment, its thread with it or not; an executing thread may time out,
      return or raise; and whoever owns a claim can go on with it. */
  lemma EveryClaimGoesOn(x: Cell, i: nat)
    requires i < |x.leases| && x.leases[i].phase != Gone(true) && x.leases[i].phase != Gone(false)
    ensures Enabled(x, Drop(i, false)) && Apply(x, Drop(i, false)).leases[i].body != Live
    ensures x.leases[i].body == Live ==>
              Enabled(x, Drop(i, true)) && Apply(x, Drop(i, true)).leases[i].body == Live
    ensures x.leases[i].phase == Held ==>
              Enabled(x, Release(i)) && Enabled(x, Start(i)) && Apply(x, Start(i)).leases[i].phase == Starting
    ensures x.leases[i].phase == Starting ==> Enabled(x, MarkRunning(i))
    ensures x.leases[i].phase == Loading ==>
              Enabled(x, BodyStarts(i)) && forall f :: Enabled(x, LoadFails(i, f))
    ensures x.leases[i].phase == Executing ==>
              && Enabled(x, BodyReturns(i)) && (forall f :: Enabled(x, BodyRaises(i, f)))
              && forall f: Failure | f.timeout :: Enabled(x, ThreadTimesOut(i, f))
    ensures x.leases[i].phase == Succeeding ==> forall v, t :: Enabled(x, MarkSuccessful(i, v, t))
  {
  }

  /** A heartbeat may come from the start of the function until the last one is over, also when the
      claim is already done with; the reaper may come whenever the heartbeat is too old, and a cancel
      or a requeue at any time. */
  lemma HeartbeatsAndOthersGoOn(x: Cell, i: nat, t: int)
    requires i < |x.leases|
    ensures x.leases[i].phase == Loading ==> Apply(x, BodyStarts(i)).leases[i].beats
    ensures x.leases[i].beats ==> Enabled(x, Heartbeat(i, t))
    ensures x.leases[i].beats && Outstanding(x.leases[i]) ==> Enabled(x, Notice(i))
    ensures x.leases[i].beats && !Outstanding(x.leases[i]) ==>
              Enabled(x, LastBeat(i)) && !CanWrite(Apply(x, LastBeat(i)).leases[i])
    ensures forall cutoff, delay :: Enabled(x, Reap(cutoff, t, delay)) <==>
              x.row.status == Running && x.row.lastHeartbeatAt.Some? && x.row.lastHeartbeatAt.value < cutoff
    ensures forall w :: Enabled(x, Claim(w, t)) <==> w != "" && x.row.status == Ready && x.row.runAfter <= t
    ensures Enabled(x, Cancel(t)) && forall reset, free :: Enabled(x, Requeue(reset, t, free))
  {
  }

  /** An owner that asks after a cancel request has noticed it, and then no failure of its attempt is
      retried. */
  lemma NoticedFailureIsFinal(x: Cell, i: nat, f: Failure, now: int)
    requires Inv(x) && i < |x.leases| && Owns(x.row, x.leases[i].worker, x.leases[i].attempt)
    requires x.leases[i].phase == Executing && x.leases[i].beats && x.row.cancelRequestedAt.Some?
    ensures Enabled(x, Notice(i))
    ensures var y := Apply(x, Notice(i));
            && y.row == x.row && Enabled(y, BodyRaises(i, f))
            && var z := Apply(y, BodyRaises(i, f));
               Enabled(z, MarkFailed(i, "error", now)) && Apply(z, MarkFailed(i, "error", now)).row.status == Failed
  {
    var y := Apply(x, Notice(i));
    InnerStepKeepsInv(x, Notice(i));
    assert y.leases == x.leases;
    FailedAttemptIsRetriedIff(y, i, BodyRaises(i, f), now, 0);
  }
}
