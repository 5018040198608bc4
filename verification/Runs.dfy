/** What holds along every run of one row: fencing, the shape of the row and final states. The
    other rows of the database enter a run only through the moment of a claim and through `keyFree`,
    both of which are arbitrary here. */
module Runs {
  import opened Model
  import opened RowOps
  import opened Protocol
  import opened Fencing

  /** States that follow from one another by enabled acts. */
  predicate IsPath(xs: seq<Cell>, acts: seq<Act>) {
    && |xs| == |acts| + 1
    && forall k | 0 <= k < |acts| :: Enabled(xs[k], acts[k]) && xs[k + 1] == Apply(xs[k], acts[k])
  }

  /** The states and acts of one row since it was created. */
  predicate IsRun(xs: seq<Cell>, acts: seq<Act>) {
    IsPath(xs, acts) && Fresh(xs[0])
  }

  predicate SafeResets(xs: seq<Cell>, acts: seq<Act>)
    requires |xs| == |acts| + 1
  {
    forall k | 0 <= k < |acts| :: ResetIsSafe(xs[k], acts[k])
  }

  lemma {:induction false} PathInv(xs: seq<Cell>, acts: seq<Act>, k: nat)
    requires IsPath(xs, acts) && SafeResets(xs, acts) && k <= |acts| && Inv(xs[0])
    ensures Inv(xs[k])
  {
    hide Apply, Inv, ResetIsSafe;
    if k > 0 {
      PathInv(xs, acts, k - 1);
      ActKeepsInv(xs[k - 1], acts[k - 1]);
    }
  }

  lemma RunInv(xs: seq<Cell>, acts: seq<Act>, k: nat)
    requires IsRun(xs, acts) && SafeResets(xs, acts) && k <= |acts|
    ensures Inv(xs[k])
  {
    FreshInv(xs[0]);
    PathInv(xs, acts, k);
  }

  lemma FreshInv(x: Cell)
    requires Fresh(x)
    ensures Inv(x)
  {
  }

  // ---- Fencing ----

  /** Once a row was claimed again, nothing an earlier claim does changes it: not mark_running,
      mark_successful, mark_failed, ack, nack, release or a late heartbeat, even though `release`
      lowers the attempt number. */
  lemma StaleClaimsAreFenced(xs: seq<Cell>, acts: seq<Act>, k: nat)
    requires IsRun(xs, acts) && SafeResets(xs, acts) && k < |acts|
    requires ByWorker(acts[k]) && acts[k].i + 1 < |xs[k].leases|
    ensures xs[k + 1].row == xs[k].row
  {
    RunInv(xs, acts, k);
    OvertakenChangesNothing(xs[k], acts[k]);
  }

  lemma OvertakenChangesNothing(x: Cell, a: Act)
    requires Inv(x) && Enabled(x, a) && ByWorker(a) && a.i + 1 < |x.leases|
    ensures Apply(x, a).row == x.row
  {
    var l := x.leases[a.i];
    if CanWrite(l) && Holds(x.row, l.worker, l.attempt) {
      HolderIsLast(x, a.i);
    }
  }

  /** Claims that count for the token of the row: made since the last reset and not handed back. */
  predicate Counts(x: Cell, i: nat) {
    x.base <= i < |x.leases| && !HandedBack(x.leases[i])
  }

  /** Attempt numbers strictly increase over all claims since the last reset that were not handed
      back, finished and crashed ones included; and every claim that can still write is such a claim. */
  lemma TokensAreUnique(xs: seq<Cell>, acts: seq<Act>, k: nat, i: nat, j: nat)
    requires IsRun(xs, acts) && SafeResets(xs, acts) && k <= |acts|
    requires i < j < |xs[k].leases|
    ensures Counts(xs[k], i) && Counts(xs[k], j) ==> xs[k].leases[i].attempt < xs[k].leases[j].attempt
    ensures CanWrite(xs[k].leases[i]) ==> Counts(xs[k], i)
    ensures CanWrite(xs[k].leases[j]) ==> Counts(xs[k], j)
  {
    RunInv(xs, acts, k);
  }

  lemma ClaimAndStart(x: Cell, w: string) returns (xs: seq<Cell>, acts: seq<Act>)
    requires Fresh(x) && w != "" && x.row.runAfter <= 0
    ensures acts == [Claim(w, 0), Start(0), MarkRunning(0)]
    ensures IsRun(xs, acts) && xs[0] == x
    ensures xs[3].row.maxRetries == x.row.maxRetries && Owns(xs[3].row, w, 1)
    ensures xs[3].row.cancelRequestedAt == x.row.cancelRequestedAt && xs[3].noticed == {}
    ensures xs[3].row.startedAt == Some(0) && xs[3].row.lastHeartbeatAt == Some(0)
    ensures xs[3].row.delivery == x.row.delivery
    ensures xs[3].leases == [Lease(w, 1, Loading, Unstarted, 0, false)]
  {
    acts := [Claim(w, 0), Start(0), MarkRunning(0)];
    var x1 := Apply(x, acts[0]);
    assert x1.leases == [Lease(w, 1, Held, Unstarted, 0, false)] && Owns(x1.row, w, 1);
    var x2 := Apply(x1, acts[1]);
    assert x2.leases == [Lease(w, 1, Starting, Unstarted, 0, false)] && x2.row == x1.row;
    xs := [x, x1, x2, Apply(x2, acts[2])];
  }

  lemma RunAndFail(x: Cell, w: string) returns (x4: Cell, x5: Cell, x6: Cell)
    requires x.row.maxRetries == 0 && x.row.startedAt.Some? && Owns(x.row, w, 1)
    requires x.leases == [Lease(w, 1, Loading, Unstarted, 0, false)]
    ensures Enabled(x, BodyStarts(0)) && x4 == Apply(x, BodyStarts(0))
    ensures var f := Failure(false, true);
      Enabled(x4, BodyRaises(0, f)) && x5 == Apply(x4, BodyRaises(0, f))
    ensures Enabled(x5, MarkFailed(0, "error", 1)) && x6 == Apply(x5, MarkFailed(0, "error", 1))
    ensures x6.row.status.Failed? && x6.row.startedAt.Some? && x6.leases == [Lease(w, 1, Acking, Ended, 0, true)]
    ensures Owns(x5.row, w, 1) && Holds(x6.row, w, 1)
  {
    x4 := Apply(x, BodyStarts(0));
    assert x4.leases == [Lease(w, 1, Executing, Live, 0, true)];
    x5 := Apply(x4, BodyRaises(0, Failure(false, true)));
    assert x5.leases == [Lease(w, 1, Failing(false), Ended, 0, true)];
    x6 := Apply(x5, MarkFailed(0, "error", 1));
  }

  /** A run to a first attempt that failed for good, before its ack. */
  lemma LateAckIsReachable(x: Cell, w: string) returns (xs: seq<Cell>, acts: seq<Act>)
    requires Fresh(x) && w != "" && x.row.runAfter <= 0 && x.row.maxRetries == 0
    ensures IsRun(xs, acts) && SafeResets(xs, acts) && xs[0] == x
    ensures var y := xs[|acts|];
      && y.row.status.Failed? && y.row.startedAt.Some? && Holds(y.row, w, 1)
      && y.leases == [Lease(w, 1, Acking, Ended, 0, true)]
  {
    hide Apply;
    xs, acts := ClaimAndStart(x, w);
    var x4, x5, x6 := RunAndFail(xs[3], w);
    xs := xs + [x4, x5, x6];
    acts := acts + [BodyStarts(0), BodyRaises(0, Failure(false, true)), MarkFailed(0, "error", 1)];
  }

  /** A safe reset reaches the row on which claim and release do not undo each other: started
      before, yet without an attempt. */
  lemma ResetRowIsReachable(x: Cell, w: string) returns (xs: seq<Cell>, acts: seq<Act>)
    requires Fresh(x) && w != "" && x.row.runAfter <= 0 && x.row.maxRetries == 0
    ensures IsRun(xs, acts) && SafeResets(xs, acts) && xs[0] == x
    ensures var row := xs[|acts|].row;
            && row.status.Ready? && row.attempts == 0 && row.startedAt.Some?
            && forall now :: !SameButLastAttempt(Released(Claimed(row, w, now), w, 1), row)
  {
    hide Fresh, Inv;
    var ys, bs := LateAckIsReachable(x, w);
    var y1 := Apply(ys[|bs|], Ack(0));
    ys, bs := OneMore(ys, bs, Ack(0));
    assert y1.leases == [Lease(w, 1, Gone(false), Ended, 0, true)];
    var y2 := Apply(y1, LastBeat(0));
    ys, bs := OneMore(ys, bs, LastBeat(0));
    xs, acts := OneMore(ys, bs, Requeue(true, 0, true));
    forall now ensures !SameButLastAttempt(Released(Claimed(xs[|acts|].row, w, now), w, 1), xs[|acts|].row) {
      ClaimReleaseRoundTrip(xs[|acts|].row, w, now);
    }
  }

  lemma OneMore(xs: seq<Cell>, acts: seq<Act>, a: Act) returns (ys: seq<Cell>, bs: seq<Act>)
    requires IsRun(xs, acts) && SafeResets(xs, acts)
    requires Enabled(xs[|acts|], a) && ResetIsSafe(xs[|acts|], a)
    ensures IsRun(ys, bs) && SafeResets(ys, bs) && ys[0] == xs[0]
    ensures |bs| == |acts| + 1 && ys[|bs|] == Apply(xs[|acts|], a)
  {
    hide Apply, Enabled, ResetIsSafe, Fresh;
    ys, bs := xs + [Apply(xs[|acts|], a)], acts + [a];
    forall k | 0 <= k < |bs|
      ensures Enabled(ys[k], bs[k]) && ys[k + 1] == Apply(ys[k], bs[k]) && ResetIsSafe(ys[k], bs[k])
    {
      if k < |acts| {
        assert ys[k] == xs[k] && ys[k + 1] == xs[k + 1] && bs[k] == acts[k];
      }
    }
  }

  // ---- Shape and final states ----

  /** RUNNING rows can always be reached by the reaper, READY rows are unclaimed, finish times
      mark exactly the finished rows, and `attempts` is never negative. */
  lemma ReachableShape(xs: seq<Cell>, acts: seq<Act>, k: nat)
    requires IsRun(xs, acts) && SafeResets(xs, acts) && k <= |acts|
    ensures var r := xs[k].row;
      && r.attempts >= 0
      && (r.status.Running? ==> r.claimedBy != "" && r.attempts >= 1)
      && (r.status.Running? ==> exists cutoff :: Stale(r, cutoff))
      && (r.status.Ready? ==> Unheld(r))
      && (r.finishedAt.Some? <==> Terminal(r))
  {
    RunInv(xs, acts, k);
    var r := xs[k].row;
    if r.status.Running? {
      assert Stale(r, r.lastHeartbeatAt.value + 1);
    }
  }

  /** A claim of a row that was never reset can be handed back without a trace, up to the time of
      the last attempt; the very first one without any trace. */
  lemma ReachableRoundTrip(xs: seq<Cell>, acts: seq<Act>, k: nat, w: string, now: int)
    requires IsRun(xs, acts) && SafeResets(xs, acts) && k <= |acts|
    requires xs[k].row.status.Ready? && xs[k].base == 0
    ensures var r := xs[k].row;
      var back := Released(Claimed(r, w, now), w, r.attempts + 1);
      SameButLastAttempt(back, r) && (r.attempts == 0 ==> back == r)
  {
    RunInv(xs, acts, k);
    ClaimReleaseRoundTrip(xs[k].row, w, now);
  }

  predicate SameUpToClaim(a: Row, b: Row) {
    a == b || a == Unclaimed(b)
  }

  lemma SuccessIsFinal(x: Cell, a: Act)
    requires Inv(x) && Enabled(x, a) && x.row.status.Successful?
    ensures SameUpToClaim(Apply(x, a).row, x.row)
  {
    if ByWorker(a) && CanWrite(x.leases[a.i])
       && Holds(x.row, x.leases[a.i].worker, x.leases[a.i].attempt) {
      HolderIsLast(x, a.i);
    }
  }

  /** A successful row never changes again, except that its claim is cleared. */
  lemma {:induction false} SuccessIsForever(xs: seq<Cell>, acts: seq<Act>, k: nat, m: nat)
    requires IsRun(xs, acts) && SafeResets(xs, acts) && k <= m <= |acts|
    requires xs[k].row.status.Successful?
    ensures SameUpToClaim(xs[m].row, xs[k].row)
  {
    hide Apply, Enabled;
    if k < m {
      SuccessIsForever(xs, acts, k, m - 1);
      RunInv(xs, acts, m - 1);
      SuccessIsFinal(xs[m - 1], acts[m - 1]);
    }
  }

  /** FAILED is left only by a requeue. */
  lemma FailureLeavesByRequeue(xs: seq<Cell>, acts: seq<Act>, k: nat)
    requires IsRun(xs, acts) && SafeResets(xs, acts) && k < |acts|
    requires xs[k].row.status.Failed? && !xs[k + 1].row.status.Failed?
    ensures acts[k].Requeue? && xs[k + 1].row.status.Ready?
  {
    RunInv(xs, acts, k);
    var x, a := xs[k], acts[k];
    if ByWorker(a) && CanWrite(x.leases[a.i])
       && Holds(x.row, x.leases[a.i].worker, x.leases[a.i].attempt) {
      HolderIsLast(x, a.i);
    }
  }
}
