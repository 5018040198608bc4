/** Every act keeps the row invariant, and a claim that was overtaken can no longer write. */
module Fencing {
  import opened RowOps
  import opened Protocol

  /** A lease that can still write and holds the row is the last claim. */
  lemma HolderIsLast(x: Cell, i: nat)
    requires Inv(x) && i < |x.leases| && CanWrite(x.leases[i])
    requires Holds(x.row, x.leases[i].worker, x.leases[i].attempt)
    ensures i == |x.leases| - 1 && x.base <= i
  {
  }

  lemma ClaimKeepsInv(x: Cell, w: string, now: int)
    requires Inv(x) && Enabled(x, Claim(w, now))
    ensures Inv(Apply(x, Claim(w, now)))
  {
  }

  lemma ReapKeepsInv(x: Cell, a: Act)
    requires Inv(x) && Enabled(x, a) && a.Reap?
    ensures Inv(Apply(x, a))
  {
  }

  lemma CallerActKeepsInv(x: Cell, a: Act)
    requires Inv(x) && Enabled(x, a) && (a.Cancel? || a.Requeue?) && ResetIsSafe(x, a)
    ensures Inv(Apply(x, a))
  {
  }

  predicate WritesRow(a: Act) {
    a.Release? || a.MarkRunning? || a.MarkSuccessful? || a.MarkFailed? || a.Ack? || a.Nack? || a.Heartbeat?
  }

  predicate Finishing(l: Lease) {
    l.phase.Acking? || l.phase.Gone?
  }

  lemma SwapLease(x: Cell, i: nat, l: Lease, noticed: set<string>)
    requires Inv(x) && i < |x.leases|
    requires l.worker == x.leases[i].worker && l.attempt == x.leases[i].attempt
    requires HandedBack(l) == HandedBack(x.leases[i])
    requires CanWrite(l) ==> CanWrite(x.leases[i])
    requires x.base <= i ==> LeaseOk(x, l)
    requires Finishing(x.leases[i]) ==> Finishing(l)
    ensures Inv(x.(leases := x.leases[i := l], noticed := noticed))
  {
    var y := x.(leases := x.leases[i := l], noticed := noticed);
    assert forall j | 0 <= j < |x.leases| && j != i :: y.leases[j] == x.leases[j];
    assert forall j | x.base <= j < |x.leases| && j != i :: LeaseOk(y, y.leases[j]) == LeaseOk(x, x.leases[j]);
  }

  /** The steps inside a worker leave the row alone. */
  lemma InnerStepKeepsInv(x: Cell, a: Act)
    requires Inv(x) && Enabled(x, a) && ByWorker(a) && !WritesRow(a)
    ensures Inv(Apply(x, a)) && Apply(x, a).row == x.row
  {
    var y, i := Apply(x, a), a.i;
    assert y == x.(leases := x.leases[i := y.leases[i]], noticed := y.noticed);
    SwapLease(x, i, y.leases[i], y.noticed);
  }

  lemma LostWriteChanges(x: Cell, a: Act)
    requires Inv(x) && Enabled(x, a) && WritesRow(a)
    requires !Holds(x.row, x.leases[a.i].worker, x.leases[a.i].attempt)
    ensures var y, l := Apply(x, a), x.leases[a.i];
            && y == x.(leases := x.leases[a.i := y.leases[a.i]], noticed := y.noticed)
            && (y.leases[a.i] == l || (Outstanding(l) && y.leases[a.i] == l.(phase := Gone(false))))
  {
    hide Inv;
  }

  /** A write by a lease that does not hold the row changes nothing but the lease. */
  lemma LostWriteKeepsInv(x: Cell, a: Act)
    requires Inv(x) && Enabled(x, a) && WritesRow(a)
    requires !Holds(x.row, x.leases[a.i].worker, x.leases[a.i].attempt)
    ensures Inv(Apply(x, a)) && Apply(x, a).row == x.row
  {
    var y, i := Apply(x, a), a.i;
    LostWriteChanges(x, a);
    GoneIsOk(x, i);
    hide Apply, Inv;
    SwapLease(x, i, y.leases[i], y.noticed);
  }

  lemma GoneIsOk(x: Cell, i: nat)
    requires Inv(x) && i < |x.leases|
    ensures x.base <= i ==> LeaseOk(x, x.leases[i])
    ensures x.base <= i && Outstanding(x.leases[i]) ==> LeaseOk(x, x.leases[i].(phase := Gone(false)))
  {
  }

  lemma HeldReleaseKeepsInv(x: Cell, i: nat)
    requires Inv(x) && Enabled(x, Release(i)) && Holds(x.row, x.leases[i].worker, x.leases[i].attempt)
    ensures Inv(Apply(x, Release(i)))
  {
    HolderIsLast(x, i);
    var y := Apply(x, Release(i));
    assert forall j | 0 <= j < i :: y.leases[j] == x.leases[j];
  }

  lemma HeldTouchKeepsInv(x: Cell, a: Act)
    requires Inv(x) && Enabled(x, a) && (a.MarkRunning? || a.Heartbeat?)
    requires Holds(x.row, x.leases[a.i].worker, x.leases[a.i].attempt)
    ensures Inv(Apply(x, a))
  {
    var y, i := Apply(x, a), a.i;
    HolderIsLast(x, i);
    assert forall j | 0 <= j < i :: y.leases[j] == x.leases[j];
    assert forall j | x.base <= j < i :: LeaseOk(y, y.leases[j]) == LeaseOk(x, x.leases[j]);
  }

  lemma HeldSuccessKeepsInv(x: Cell, a: Act)
    requires Inv(x) && Enabled(x, a) && a.MarkSuccessful?
    requires Holds(x.row, x.leases[a.i].worker, x.leases[a.i].attempt)
    ensures Inv(Apply(x, a))
  {
    var y, i := Apply(x, a), a.i;
    HolderIsLast(x, i);
    assert forall j | 0 <= j < i :: y.leases[j] == x.leases[j];
    assert forall j | x.base <= j < i :: LeaseOk(y, y.leases[j]) == LeaseOk(x, x.leases[j]);
  }

  lemma HeldFailureKeepsInv(x: Cell, a: Act)
    requires Inv(x) && Enabled(x, a) && a.MarkFailed?
    requires Holds(x.row, x.leases[a.i].worker, x.leases[a.i].attempt)
    ensures Inv(Apply(x, a))
  {
    var y, i := Apply(x, a), a.i;
    HolderIsLast(x, i);
    assert forall j | 0 <= j < i :: y.leases[j] == x.leases[j];
    assert forall j | x.base <= j < i :: LeaseOk(y, y.leases[j]) == LeaseOk(x, x.leases[j]);
  }

  lemma HeldAckKeepsInv(x: Cell, a: Act)
    requires Inv(x) && Enabled(x, a) && (a.Ack? || a.Nack?)
    requires Holds(x.row, x.leases[a.i].worker, x.leases[a.i].attempt)
    ensures Inv(Apply(x, a))
  {
    var y, i := Apply(x, a), a.i;
    HolderIsLast(x, i);
    assert forall j | 0 <= j < i :: y.leases[j] == x.leases[j];
  }

  /** Every act of every party keeps the invariant. */
  lemma ActKeepsInv(x: Cell, a: Act)
    requires Inv(x) && Enabled(x, a) && ResetIsSafe(x, a)
    ensures Inv(Apply(x, a))
  {
    hide Inv, Apply;
    if a.Claim? {
      ClaimKeepsInv(x, a.worker, a.now);
    } else if a.Reap? {
      ReapKeepsInv(x, a);
    } else if !ByWorker(a) {
      CallerActKeepsInv(x, a);
    } else if !WritesRow(a) {
      InnerStepKeepsInv(x, a);
    } else if !Holds(x.row, x.leases[a.i].worker, x.leases[a.i].attempt) {
      LostWriteKeepsInv(x, a);
    } else if a.Release? {
      HeldReleaseKeepsInv(x, a.i);
    } else if a.Ack? || a.Nack? {
      HeldAckKeepsInv(x, a);
    } else if a.MarkSuccessful? {
      HeldSuccessKeepsInv(x, a);
    } else if a.MarkFailed? {
      HeldFailureKeepsInv(x, a);
    } else {
      HeldTouchKeepsInv(x, a);
    }
  }
}
