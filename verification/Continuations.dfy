/** What can follow from a given state of a row, and why a requeue that resets `attempts` must wait
    until no earlier claim can write. */
module Continuations {
  import opened Model
  import opened RowOps
  import opened Protocol
  import opened Fencing
  import opened Runs

  /** Which acts a continuation may take. */
  type Rule = (Cell, Act) -> bool

  predicate Keeps(rule: Rule, xs: seq<Cell>, acts: seq<Act>)
    requires |xs| == |acts| + 1
  {
    forall k | 0 <= k < |acts| :: rule(xs[k], acts[k])
  }

  /** Some sequence of acts that keep the rule leads from x to y. */
  ghost predicate Reaches(rule: Rule, x: Cell, y: Cell) {
    exists xs, acts :: IsPath(xs, acts) && Keeps(rule, xs, acts) && xs[0] == x && xs[|acts|] == y
  }

  lemma Stays(rule: Rule, x: Cell)
    ensures Reaches(rule, x, x)
  {
    assert IsPath([x], []) && Keeps(rule, [x], []);
  }

  lemma Follows(rule: Rule, x: Cell, y: Cell, a: Act)
    requires Reaches(rule, x, y) && Enabled(y, a) && rule(y, a)
    ensures Reaches(rule, x, Apply(y, a))
  {
    hide Enabled, Apply;
    var xs, acts :| IsPath(xs, acts) && Keeps(rule, xs, acts) && xs[0] == x && xs[|acts|] == y;
    var ys, bs := xs + [Apply(y, a)], acts + [a];
    forall k | 0 <= k < |bs|
      ensures Enabled(ys[k], bs[k]) && ys[k + 1] == Apply(ys[k], bs[k]) && rule(ys[k], bs[k])
    {
      if k < |acts| {
        assert ys[k] == xs[k] && ys[k + 1] == xs[k + 1] && bs[k] == acts[k];
      }
    }
    assert IsPath(ys, bs) && Keeps(rule, ys, bs);
  }

  /** Continuations with safe resets keep the invariant. */
  lemma ReachesInv(rule: Rule, x: Cell, y: Cell)
    requires Inv(x) && Reaches(rule, x, y)
    requires forall z, a | rule(z, a) :: ResetIsSafe(z, a)
    ensures Inv(y)
  {
    hide Inv, ResetIsSafe, Enabled, Apply;
    var xs, acts :| IsPath(xs, acts) && Keeps(rule, xs, acts) && xs[0] == x && xs[|acts|] == y;
    assert SafeResets(xs, acts);
    PathInv(xs, acts, |acts|);
  }

  // ---- The premise on resets is exact ----

  /** However the row goes on, nothing an overtaken claim does changes it. */
  ghost predicate OvertakenFenced(y: Cell) {
    forall z, a | Reaches(ResetIsSafe, y, z) && Enabled(z, a) && ByWorker(a) && a.i + 1 < |z.leases| ::
      Apply(z, a).row == z.row
  }

  lemma Breaks(y: Cell, z: Cell, a: Act)
    requires Reaches(ResetIsSafe, y, z) && Enabled(z, a) && ByWorker(a) && a.i + 1 < |z.leases|
    requires Apply(z, a).row != z.row
    ensures !OvertakenFenced(y)
  {
  }

  /** The i-th claim was overtaken, and yet owns the row: the last claim, just made, has its token. */
  predicate OwnsAgain(z: Cell, i: nat) {
    && i + 1 < |z.leases| && Owns(z.row, z.leases[i].worker, z.leases[i].attempt)
    && LastIsHeldWith(z, z.leases[i].worker, z.leases[i].attempt)
  }

  predicate LastIsHeldWith(z: Cell, w: string, attempt: int) {
    && z.leases != []
    && var l := z.leases[|z.leases| - 1];
       l.phase.Held? && l.worker == w && l.attempt == attempt
  }

  lemma ClaimOnce(y: Cell, z: Cell, i: nat, l: Lease) returns (c: Cell)
    requires Reaches(ResetIsSafe, y, z) && i < |z.leases| && z.leases[i] == l && l.worker != ""
    requires z.row.status.Ready?
    ensures Reaches(ResetIsSafe, y, c) && i + 1 < |c.leases| && c.leases[i] == l
    ensures c.row.attempts == z.row.attempts + 1 && Owns(c.row, l.worker, c.row.attempts)
    ensures c.row.lastHeartbeatAt.Some? && LastIsHeldWith(c, l.worker, c.row.attempts)
  {
    var a := Claim(l.worker, z.row.runAfter);
    Follows(ResetIsSafe, y, z, a);
    c := Apply(z, a);
  }

  lemma TakeAway(y: Cell, c: Cell) returns (z: Cell)
    requires Reaches(ResetIsSafe, y, c) && c.row.status.Running? && c.row.lastHeartbeatAt.Some?
    ensures Reaches(ResetIsSafe, y, z) && z.row.status.Ready?
    ensures z.leases == c.leases && z.row.attempts == c.row.attempts
  {
    var reap := Reap(c.row.lastHeartbeatAt.value + 1, 0, 0);
    Follows(ResetIsSafe, y, c, reap);
    z := Apply(c, reap);
    if z.row.status.Failed? {
      var again := Requeue(false, 0, true);
      Follows(ResetIsSafe, y, z, again);
      z := Apply(z, again);
    }
  }

  /** Claims by the same worker, each reaped but the last, bring the token of claim i back. */
  lemma {:induction false} TokenComesBack(y: Cell, z: Cell, i: nat, l: Lease) returns (t: Cell)
    requires Reaches(ResetIsSafe, y, z) && i < |z.leases| && z.leases[i] == l && l.worker != ""
    requires z.row.status.Ready? && z.row.attempts < l.attempt
    ensures Reaches(ResetIsSafe, y, t) && OwnsAgain(t, i) && t.leases[i] == l
    decreases l.attempt - z.row.attempts
  {
    hide Apply, Enabled, ResetIsSafe;
    t := ClaimOnce(y, z, i, l);
    if t.row.attempts < l.attempt {
      var next := TakeAway(y, t);
      t := TokenComesBack(y, next, i, l);
    }
  }

  lemma FailureIsRecorded(z: Cell, i: nat)
    requires i < |z.leases| && z.leases[i].phase.Failing? && Owns(z.row, z.leases[i].worker, z.leases[i].attempt)
    ensures Apply(z, MarkFailed(i, "error", 0)).row != z.row
  {
    assert |Apply(z, MarkFailed(i, "error", 0)).row.errors| == |z.row.errors| + 1;
  }

  /** In every phase, a claim that owns the row has a write that changes it. */
  lemma OwnersChangeTheRow(y: Cell, z: Cell, i: nat)
    requires Reaches(ResetIsSafe, y, z) && i < |z.leases| && OwnsAgain(z, i)
    requires CanWrite(z.leases[i]) && z.leases[i].worker != ""
    ensures !OvertakenFenced(y)
  {
    hide OvertakenFenced, Reaches;
    match z.leases[i].phase
    case Held => Breaks(y, z, Release(i));
    case Starting =>
      assert |Apply(z, MarkRunning(i)).row.workerIds| == |z.row.workerIds| + 1;
      Breaks(y, z, MarkRunning(i));
    case Loading =>
      Follows(ResetIsSafe, y, z, LoadFails(i, Failure(false, true)));
      FailureIsRecorded(Apply(z, LoadFails(i, Failure(false, true))), i);
      Breaks(y, Apply(z, LoadFails(i, Failure(false, true))), MarkFailed(i, "error", 0));
    case Executing =>
      Follows(ResetIsSafe, y, z, BodyReturns(i));
      Breaks(y, Apply(z, BodyReturns(i)), MarkSuccessful(i, "value", 0));
    case Succeeding => Breaks(y, z, MarkSuccessful(i, "value", 0));
    case Failing(_) =>
      FailureIsRecorded(z, i);
      Breaks(y, z, MarkFailed(i, "error", 0));
    case Acking => Breaks(y, z, Ack(i));
    case Nacking => Breaks(y, z, Nack(i, 0));
    case Gone(_) => Breaks(y, z, Heartbeat(i, if z.row.lastHeartbeatAt == Some(0) then 1 else 0));
  }

  /** Fencing after a requeue that resets `attempts` holds if and only if no claim of the row could
      still write at that moment: any claim that could, whatever its phase and attempt number, may
      see its token come back and overwrite a later claim. */
  lemma ResetIsFencedIffSafe(x: Cell, now: int)
    requires Inv(x) && x.row.status.Failed?
    ensures OvertakenFenced(Apply(x, Requeue(true, now, true)))
       <==> forall i | 0 <= i < |x.leases| :: !CanWrite(x.leases[i])
  {
    var y := Apply(x, Requeue(true, now, true));
    if i: nat :| i < |x.leases| && CanWrite(x.leases[i]) {
      Stays(ResetIsSafe, y);
      var t := TokenComesBack(y, y, i, x.leases[i]);
      OwnersChangeTheRow(y, t, i);
    } else {
      ActKeepsInv(x, Requeue(true, now, true));
      forall z, a | Reaches(ResetIsSafe, y, z) && Enabled(z, a) && ByWorker(a) && a.i + 1 < |z.leases|
        ensures Apply(z, a).row == z.row
      {
        ReachesInv(ResetIsSafe, y, z);
        OvertakenChangesNothing(z, a);
      }
    }
  }
}
