/** When two executions of one row can overlap in time: never for at-most-once rows that are
    requeued quietly, and never for any row whose workers renew their leases on time. */
module Overlap {
  import opened Model
  import opened RowOps
  import opened Protocol
  import opened Fencing
  import opened Runs
  import opened Continuations

  predicate Executing(x: Cell, i: nat) {
    i < |x.leases| && x.leases[i].body.Live?
  }

  predicate NoOverlap(x: Cell) {
    forall i, j | 0 <= i < j < |x.leases| :: !(x.leases[i].body.Live? && x.leases[j].body.Live?)
  }

  // ---- At most once ----

  /** Its function is not running and will not be started: a claim that was overtaken before
      mark_running fails there. */
  predicate Harmless(l: Lease) {
    !l.body.Live? && !l.phase.Loading?
  }

  predicate AllHarmless(x: Cell) {
    forall i | 0 <= i < |x.leases| :: Harmless(x.leases[i])
  }

  predicate Begun(l: Lease) {
    !l.phase.Held? && !l.phase.Starting? && !l.phase.Loading?
  }

  /** While the function runs, no retry has been decided. */
  predicate LiveIsBegun(l: Lease) {
    l.body.Live? ==> Begun(l) && l.phase != Failing(true) && !l.phase.Nacking? && !HandedBack(l)
  }

  /** Only the last claim of an at-most-once row can run or start its function; a retry is decided
      only once the function has ended. */
  predicate OneActor(x: Cell) {
    && (forall i | 0 <= i < |x.leases| - 1 :: Harmless(x.leases[i]))
    && (x.row.status.Ready? && x.leases != [] ==> Harmless(x.leases[|x.leases| - 1]))
    && (forall i | 0 <= i < |x.leases| :: LiveIsBegun(x.leases[i]))
  }

  /** A requeue comes when no earlier execution is running its function or about to. */
  predicate RequeueIsQuiet(x: Cell, a: Act) {
    a.Requeue? && a.keyFree && x.row.status.Failed? ==> AllHarmless(x)
  }

  predicate SafeAndQuiet(x: Cell, a: Act) {
    ResetIsSafe(x, a) && RequeueIsQuiet(x, a)
  }

  lemma OtherActKeepsOneActor(x: Cell, a: Act)
    requires Inv(x) && Enabled(x, a) && !ByWorker(a) && RequeueIsQuiet(x, a) && OneActor(x)
    requires x.row.delivery.AtMostOnce?
    ensures OneActor(Apply(x, a))
  {
    hide Inv;
  }

  /** An act that leaves the row alone makes no overtaken claim run, nor any claim of a READY row. */
  lemma LostWriteKeepsLease(x: Cell, a: Act)
    requires Inv(x) && Enabled(x, a) && ByWorker(a) && Apply(x, a).row == x.row
    ensures var y, l := Apply(x, a), x.leases[a.i];
            && y.leases == x.leases[a.i := y.leases[a.i]]
            && (Harmless(l) && (a.i < |x.leases| - 1 || x.row.status.Ready?) ==> Harmless(y.leases[a.i]))
  {
    hide Shape, Budgeted, WillRetry;
  }

  lemma LiveStaysBegun(x: Cell, a: Act)
    requires Inv(x) && Enabled(x, a) && ByWorker(a) && LiveIsBegun(x.leases[a.i])
    requires x.row.delivery.AtMostOnce?
    ensures LiveIsBegun(Apply(x, a).leases[a.i])
  {
    hide Shape, Budgeted;
  }

  lemma LostWriteKeepsOneActor(x: Cell, a: Act)
    requires Inv(x) && Enabled(x, a) && ByWorker(a) && OneActor(x)
    requires x.row.delivery.AtMostOnce? && Apply(x, a).row == x.row
    ensures OneActor(Apply(x, a))
  {
    LostWriteKeepsLease(x, a);
    LiveStaysBegun(x, a);
    hide Apply, Enabled, Inv, Begun, HandedBack, Harmless;
    var y := Apply(x, a);
    assert forall j | 0 <= j < |x.leases| && j != a.i :: y.leases[j] == x.leases[j];
  }

  lemma HeldWriteKeepsOneActor(x: Cell, a: Act)
    requires Inv(x) && Enabled(x, a) && WritesRow(a) && OneActor(x)
    requires x.row.delivery.AtMostOnce?
    requires Holds(x.row, x.leases[a.i].worker, x.leases[a.i].attempt)
    ensures OneActor(Apply(x, a))
  {
    HolderIsLast(x, a.i);
    var y := Apply(x, a);
    assert forall j | 0 <= j < a.i :: y.leases[j] == x.leases[j];
  }

  lemma ActKeepsOneActor(x: Cell, a: Act)
    requires Inv(x) && Enabled(x, a) && RequeueIsQuiet(x, a) && OneActor(x)
    requires x.row.delivery.AtMostOnce?
    ensures OneActor(Apply(x, a)) && Apply(x, a).row.delivery.AtMostOnce?
  {
    DeliveryStays(x, a);
    hide Apply, OneActor, Inv, RequeueIsQuiet;
    if !ByWorker(a) {
      OtherActKeepsOneActor(x, a);
    } else if WritesRow(a) && Holds(x.row, x.leases[a.i].worker, x.leases[a.i].attempt) {
      HeldWriteKeepsOneActor(x, a);
    } else if WritesRow(a) {
      LostWriteKeepsInv(x, a);
      LostWriteKeepsOneActor(x, a);
    } else {
      InnerStepKeepsInv(x, a);
      LostWriteKeepsOneActor(x, a);
    }
  }

  lemma DeliveryStays(x: Cell, a: Act)
    requires Enabled(x, a)
    ensures Apply(x, a).row.delivery == x.row.delivery
  {
  }

  lemma {:induction false} PathKeepsOneActor(xs: seq<Cell>, acts: seq<Act>, k: nat)
    requires IsPath(xs, acts) && Keeps(SafeAndQuiet, xs, acts) && k <= |acts|
    requires Inv(xs[0]) && OneActor(xs[0]) && xs[0].row.delivery.AtMostOnce?
    ensures Inv(xs[k]) && OneActor(xs[k]) && xs[k].row.delivery.AtMostOnce?
  {
    hide Apply, Enabled, OneActor, Inv, ResetIsSafe, RequeueIsQuiet;
    if k > 0 {
      PathKeepsOneActor(xs, acts, k - 1);
      assert SafeAndQuiet(xs[k - 1], acts[k - 1]);
      ActKeepsOneActor(xs[k - 1], acts[k - 1]);
      ActKeepsInv(xs[k - 1], acts[k - 1]);
    }
  }

  lemma FreshIsOneActor(x: Cell)
    requires Fresh(x)
    ensures OneActor(x)
  {
  }

  lemma OneActorAlways(xs: seq<Cell>, acts: seq<Act>, k: nat)
    requires IsRun(xs, acts) && Keeps(SafeAndQuiet, xs, acts) && k <= |acts| && xs[0].row.delivery.AtMostOnce?
    ensures Inv(xs[k]) && OneActor(xs[k]) && xs[k].row.delivery.AtMostOnce?
  {
    FreshInv(xs[0]);
    FreshIsOneActor(xs[0]);
    PathKeepsOneActor(xs, acts, k);
  }

  /** At most once: on runs whose requeues are quiet, in particular on runs without requeues, when
      any attempt of an at-most-once row starts its function, the function of every earlier attempt
      has returned or raised, whatever happened to its worker: a sync timeout that abandoned the
      thread, a shutdown, or the reaper. */
  lemma AtMostOnceNeverOverlaps(xs: seq<Cell>, acts: seq<Act>, k: nat)
    requires IsRun(xs, acts) && Keeps(SafeAndQuiet, xs, acts) && k <= |acts| && xs[0].row.delivery.AtMostOnce?
    ensures NoOverlap(xs[k])
    ensures k < |acts| && acts[k].BodyStarts? ==>
              forall j | 0 <= j < |xs[k].leases| :: !xs[k].leases[j].body.Live?
  {
    hide Apply, Inv, Fresh;
    OneActorAlways(xs, acts, k);
  }

  // ---- The premise on requeues is exact ----

  /** However the row goes on with quiet requeues, no two functions run at once. */
  ghost predicate NeverOverlaps(y: Cell) {
    forall z | Reaches(SafeAndQuiet, y, z) :: NoOverlap(z)
  }

  lemma NextAttemptOverlaps(y: Cell, i: nat)
    requires i < |y.leases| && !Harmless(y.leases[i]) && y.row.status.Ready?
    ensures !NeverOverlaps(y)
  {
    hide Reaches, NeverOverlaps, NoOverlap;
    var n := |y.leases|;
    Stays(SafeAndQuiet, y);
    var z := y;
    if y.leases[i].phase.Loading? {
      Follows(SafeAndQuiet, y, y, BodyStarts(i));
      z := Apply(y, BodyStarts(i));
    }
    assert z.row.status.Ready? && z.leases[i].body.Live? && |z.leases| == n;
    var c := ClaimAgain(y, z, i);
    var s := StartAgain(y, c, i, n);
    BothLive(y, s, i, n);
  }

  lemma ClaimAgain(y: Cell, z: Cell, i: nat) returns (c: Cell)
    requires Reaches(SafeAndQuiet, y, z) && z.row.status.Ready? && i < |z.leases| && z.leases[i].body.Live?
    ensures Reaches(SafeAndQuiet, y, c) && |c.leases| == |z.leases| + 1 && c.leases[i].body.Live?
    ensures var l := c.leases[|z.leases|]; l.phase.Held? && Owns(c.row, l.worker, l.attempt)
  {
    hide Reaches;
    var a := Claim("w", z.row.runAfter);
    Follows(SafeAndQuiet, y, z, a);
    c := Apply(z, a);
  }

  lemma StartAgain(y: Cell, c: Cell, i: nat, n: nat) returns (s: Cell)
    requires Reaches(SafeAndQuiet, y, c) && i < n < |c.leases| && c.leases[i].body.Live?
    requires var l := c.leases[n]; l.phase.Held? && Owns(c.row, l.worker, l.attempt)
    ensures Reaches(SafeAndQuiet, y, s) && i < n < |s.leases| && s.leases[i].body.Live? && s.leases[n].body.Live?
  {
    hide Reaches;
    Follows(SafeAndQuiet, y, c, Start(n));
    s := Apply(c, Start(n));
    Follows(SafeAndQuiet, y, s, MarkRunning(n));
    s := Apply(s, MarkRunning(n));
    Follows(SafeAndQuiet, y, s, BodyStarts(n));
    s := Apply(s, BodyStarts(n));
  }

  lemma BothLive(y: Cell, z: Cell, i: nat, j: nat)
    requires Reaches(SafeAndQuiet, y, z) && i < j < |z.leases| && z.leases[i].body.Live? && z.leases[j].body.Live?
    ensures !NeverOverlaps(y)
  {
  }

  /** A requeue of an at-most-once row is followed by no overlap if and only if, at that moment, no
      earlier execution is running its function or about to: the reaper fails a row without
      stopping its thread, and a requeue may start it beside that thread. */
  lemma RequeueOverlapsUnlessQuiet(x: Cell, reset: bool, now: int)
    requires Inv(x) && OneActor(x) && x.row.delivery.AtMostOnce? && x.row.status.Failed?
    requires ResetIsSafe(x, Requeue(reset, now, true))
    ensures NeverOverlaps(Apply(x, Requeue(reset, now, true))) <==> AllHarmless(x)
  {
    var a := Requeue(reset, now, true);
    var y := Apply(x, a);
    assert y.leases == x.leases && y.row.status.Ready?;
    hide Apply, Inv, OneActor;
    if AllHarmless(x) {
      ActKeepsInv(x, a);
      ActKeepsOneActor(x, a);
      forall z | Reaches(SafeAndQuiet, y, z) ensures NoOverlap(z) {
        var xs, acts :| IsPath(xs, acts) && Keeps(SafeAndQuiet, xs, acts) && xs[0] == y && xs[|acts|] == z;
        PathKeepsOneActor(xs, acts, |acts|);
        OneActorRunsAlone(z);
      }
    } else {
      var i: nat :| i < |x.leases| && !Harmless(x.leases[i]);
      NextAttemptOverlaps(y, i);
    }
  }

  lemma OneActorRunsAlone(x: Cell)
    requires OneActor(x)
    ensures NoOverlap(x)
  {
  }

  /** Such a requeue is reachable: an attempt whose row the reaper failed while its thread runs. */
  lemma UnquietRequeueIsReachable(x: Cell, w: string) returns (xs: seq<Cell>, acts: seq<Act>)
    requires Fresh(x) && w != "" && x.row.runAfter <= 0 && x.row.delivery.AtMostOnce?
    ensures IsRun(xs, acts) && Keeps(SafeAndQuiet, xs, acts) && xs[0] == x
    ensures xs[|acts|].row.status.Failed? && !AllHarmless(xs[|acts|])
  {
    hide Apply, Enabled, Owns;
    xs, acts := ClaimAndStart(x, w);
    var x4, x5 := ReapWhileRunning(xs[3], w);
    xs, acts := xs + [x4, x5], acts + [BodyStarts(0), Reap(1, 1, 0)];
  }

  lemma ReapWhileRunning(x: Cell, w: string) returns (x4: Cell, x5: Cell)
    requires Owns(x.row, w, 1) && x.leases == [Lease(w, 1, Loading, Unstarted, 0, false)]
    requires x.row.lastHeartbeatAt == Some(0) && x.row.delivery.AtMostOnce?
    ensures Enabled(x, BodyStarts(0)) && x4 == Apply(x, BodyStarts(0))
    ensures Enabled(x4, Reap(1, 1, 0)) && x5 == Apply(x4, Reap(1, 1, 0))
    ensures x5.row.status.Failed? && !AllHarmless(x5)
  {
    x4 := Apply(x, BodyStarts(0));
    x5 := Apply(x4, Reap(1, 1, 0));
    assert x5.leases[0].body.Live?;
  }

  // ---- At least once, under punctual heartbeats ----

  /** The premises of the lease theorem, at the moments `ts` of the acts. Whenever the reaper runs,
      its cutoff was computed from a clock not ahead of that moment, and every claim that can still
      write wrote its last heartbeat (the claim itself is the first) at most `timeout` before.
      A worker that stops runs nothing on, and no sync thread is abandoned. */
  ghost predicate Punctual(xs: seq<Cell>, acts: seq<Act>, ts: seq<int>, timeout: int)
    requires |xs| == |acts| + 1 && |ts| == |acts|
  {
    forall k | 0 <= k < |acts| ::
      && !acts[k].ThreadTimesOut?
      && (acts[k].Drop? ==> !acts[k].threadSurvives)
      && (acts[k].Reap? ==>
            acts[k].staleBefore <= ts[k] - timeout && BeatsWithin(xs[k], ts[k], timeout))
  }

  predicate BeatsWithin(x: Cell, t: int, timeout: int) {
    forall i | 0 <= i < |x.leases| && Working(x.leases[i]) :: t - timeout <= x.leases[i].lastBeat
  }

  predicate Working(l: Lease) {
    !l.phase.Gone? && !l.phase.Acking?
  }

  /** No working claim was ever taken away: it owns the row, and the row carries its heartbeat. */
  predicate LeaseHeld(x: Cell) {
    forall i | 0 <= i < |x.leases| ::
      && (x.leases[i].body.Live? ==> x.leases[i].phase.Executing?)
      && (Working(x.leases[i]) ==>
            && i == |x.leases| - 1
            && Owns(x.row, x.leases[i].worker, x.leases[i].attempt)
            && x.row.lastHeartbeatAt == Some(x.leases[i].lastBeat))
  }

  lemma WorkerActKeepsLease(x: Cell, a: Act)
    requires Inv(x) && Enabled(x, a) && ByWorker(a) && LeaseHeld(x)
    requires !a.ThreadTimesOut? && (a.Drop? ==> !a.threadSurvives)
    ensures LeaseHeld(Apply(x, a))
  {
    var y := Apply(x, a);
    assert forall j | 0 <= j < |x.leases| && j != a.i :: y.leases[j] == x.leases[j];
    if Outstanding(x.leases[a.i]) && Holds(x.row, x.leases[a.i].worker, x.leases[a.i].attempt) {
      HolderIsLast(x, a.i);
    }
  }

  lemma OtherActKeepsLease(x: Cell, a: Act, t: int, timeout: int)
    requires Inv(x) && Enabled(x, a) && !ByWorker(a) && LeaseHeld(x)
    requires a.Reap? ==> a.staleBefore <= t - timeout && BeatsWithin(x, t, timeout)
    ensures LeaseHeld(Apply(x, a))
  {
    var y := Apply(x, a);
    assert forall j | 0 <= j < |x.leases| :: y.leases[j] == x.leases[j];
  }

  lemma {:induction false} LeaseHeldAlways(xs: seq<Cell>, acts: seq<Act>, ts: seq<int>, timeout: int, k: nat)
    requires IsRun(xs, acts) && SafeResets(xs, acts) && |ts| == |acts| && Punctual(xs, acts, ts, timeout)
    requires k <= |acts|
    ensures LeaseHeld(xs[k])
  {
    hide Apply, Enabled, LeaseHeld, BeatsWithin;
    if k > 0 {
      LeaseHeldAlways(xs, acts, ts, timeout, k - 1);
      RunInv(xs, acts, k - 1);
      if ByWorker(acts[k - 1]) {
        WorkerActKeepsLease(xs[k - 1], acts[k - 1]);
      } else {
        OtherActKeepsLease(xs[k - 1], acts[k - 1], ts[k - 1], timeout);
      }
    } else {
      FreshIsLeaseHeld(xs[0]);
    }
  }

  lemma FreshIsLeaseHeld(x: Cell)
    requires Fresh(x)
    ensures LeaseHeld(x)
  {
  }

  /** The lease theorem: workers that renew in time never lose a claim, and no row, whatever its
      delivery guarantee, ever has two functions executing at once. */
  lemma PunctualLeasesNeverOverlap(xs: seq<Cell>, acts: seq<Act>, ts: seq<int>, timeout: int, k: nat)
    requires IsRun(xs, acts) && SafeResets(xs, acts) && |ts| == |acts| && Punctual(xs, acts, ts, timeout)
    requires k <= |acts|
    ensures NoOverlap(xs[k])
    ensures forall i | 0 <= i < |xs[k].leases| && Executing(xs[k], i) ::
              Owns(xs[k].row, xs[k].leases[i].worker, xs[k].leases[i].attempt)
  {
    LeaseHeldAlways(xs, acts, ts, timeout, k);
  }
}
