/** What an unsafe requeue that resets `attempts` can do to a row, beyond breaking fencing: leave it
    RUNNING where no reaper finds it, give back a row that was finished, or undo a success. Each can
    happen if and only if some earlier claim is, at that moment, in a phase that can lead there. */
module Resets {
  import opened Model
  import opened RowOps
  import opened Protocol
  import opened Fencing
  import opened Runs
  import opened Continuations

  datatype Harm = Orphaned | GivenBack | Undone

  /** The phases from which a claim may come to mark the row successful. */
  predicate MaySucceed(p: Phase) {
    p.Held? || p.Starting? || p.Loading? || p.Executing? || p.Succeeding?
  }

  /** The phases of an earlier claim that can lead to the harm, once a later claim has its token. */
  predicate Harmful(h: Harm, p: Phase) {
    match h
    case Undone => MaySucceed(p)
    case GivenBack => MaySucceed(p) || p == Failing(false)
    case Orphaned => MaySucceed(p) || p == Failing(false) || p.Acking?
  }

  predicate ReaperReaches(r: Row) {
    r.lastHeartbeatAt.Some?
  }

  /** An act that does the harm. */
  predicate Does(h: Harm, z: Cell, a: Act)
    requires Enabled(z, a)
  {
    var r := Apply(z, a).row;
    match h
    case Undone => z.row.status.Successful? && !SameUpToClaim(r, z.row)
    case GivenBack => Terminal(z.row) && !a.Requeue? && r.status != z.row.status
    case Orphaned => r.status.Running? && !ReaperReaches(r)
  }

  /** However the row goes on, later resets being safe, the harm is not done. */
  ghost predicate Spared(h: Harm, y: Cell) {
    forall z, a | Reaches(ResetIsSafe, y, z) && Enabled(z, a) && ResetIsSafe(z, a) :: !Does(h, z, a)
  }

  /** An orphan is a RUNNING row that the reaper reaches with no cutoff whatever. */
  lemma OrphansAreUnreachable(r: Row)
    ensures ReaperReaches(r) && r.status.Running? <==> exists cutoff :: Stale(r, cutoff)
  {
    if ReaperReaches(r) && r.status.Running? {
      assert Stale(r, r.lastHeartbeatAt.value + 1);
    }
  }

  // ---- How the harm comes about ----

  /** The finishing phases: what remains for claim i is its ack, on a row that it finished while the
      later claim with its token is still held. */
  predicate FinishedByStale(z: Cell, i: nat, success: bool) {
    && i + 1 < |z.leases| && z.leases[i].phase.Acking? && z.leases[i].worker != ""
    && (if success then z.row.status.Successful? else z.row.status.Failed?)
    && Holds(z.row, z.leases[i].worker, z.leases[i].attempt)
    && LastIsHeldWith(z, z.leases[i].worker, z.leases[i].attempt)
  }

  lemma StepOn(y: Cell, z: Cell, i: nat, a: Act) returns (u: Cell)
    requires Reaches(ResetIsSafe, y, z) && OwnsAgain(z, i) && Enabled(z, a)
    requires a == Start(i) || a == MarkRunning(i) || a == BodyStarts(i) || a == BodyReturns(i)
    ensures u == Apply(z, a) && Reaches(ResetIsSafe, y, u) && OwnsAgain(u, i)
    ensures u.leases[i].worker == z.leases[i].worker
  {
    Follows(ResetIsSafe, y, z, a);
    u := Apply(z, a);
  }

  function StepsToSuccess(p: Phase): nat {
    match p
    case Held => 4
    case Starting => 3
    case Loading => 2
    case Executing => 1
    case _ => 0
  }

  /** Claim i goes on to succeed. */
  lemma {:induction false} DriveToSuccess(y: Cell, z: Cell, i: nat) returns (u: Cell)
    requires Reaches(ResetIsSafe, y, z) && OwnsAgain(z, i) && MaySucceed(z.leases[i].phase)
    requires z.leases[i].worker != ""
    ensures Reaches(ResetIsSafe, y, u) && FinishedByStale(u, i, true)
    decreases StepsToSuccess(z.leases[i].phase)
  {
    hide Reaches;
    match z.leases[i].phase
    case Held =>
      var next := StepOn(y, z, i, Start(i));
      u := DriveToSuccess(y, next, i);
    case Starting =>
      var next := StepOn(y, z, i, MarkRunning(i));
      u := DriveToSuccess(y, next, i);
    case Loading =>
      var next := StepOn(y, z, i, BodyStarts(i));
      u := DriveToSuccess(y, next, i);
    case Executing =>
      var next := StepOn(y, z, i, BodyReturns(i));
      u := DriveToSuccess(y, next, i);
    case Succeeding =>
      Follows(ResetIsSafe, y, z, MarkSuccessful(i, "value", 0));
      u := Apply(z, MarkSuccessful(i, "value", 0));
  }

  lemma DriveToFinish(y: Cell, z: Cell, i: nat) returns (u: Cell)
    requires Reaches(ResetIsSafe, y, z) && OwnsAgain(z, i) && Harmful(GivenBack, z.leases[i].phase)
    requires z.leases[i].worker != ""
    ensures Reaches(ResetIsSafe, y, u) && FinishedByStale(u, i, MaySucceed(z.leases[i].phase))
  {
    hide Reaches;
    if MaySucceed(z.leases[i].phase) {
      u := DriveToSuccess(y, z, i);
    } else {
      Follows(ResetIsSafe, y, z, MarkFailed(i, "error", 0));
      u := Apply(z, MarkFailed(i, "error", 0));
    }
  }

  lemma DoneBy(h: Harm, y: Cell, z: Cell, a: Act)
    requires Reaches(ResetIsSafe, y, z) && Enabled(z, a) && ResetIsSafe(z, a) && Does(h, z, a)
    ensures !Spared(h, y)
  {
  }

  /** The later claim, handed back, gives the finished row back. */
  lemma HandingBackHarms(y: Cell, z: Cell, i: nat, success: bool)
    requires Reaches(ResetIsSafe, y, z) && FinishedByStale(z, i, success)
    ensures !Spared(GivenBack, y) && (success ==> !Spared(Undone, y))
  {
    hide Reaches, Spared;
    var a := Release(|z.leases| - 1);
    assert Apply(z, a).row.status.Ready?;
    DoneBy(GivenBack, y, z, a);
    if success {
      DoneBy(Undone, y, z, a);
    }
  }

  /** An ack of a claim whose token came back orphans the row. */
  lemma AckHarms(y: Cell, z: Cell, i: nat)
    requires Reaches(ResetIsSafe, y, z) && i < |z.leases| && z.leases[i].phase.Acking?
    requires Owns(z.row, z.leases[i].worker, z.leases[i].attempt)
    ensures !Spared(Orphaned, y)
  {
    hide Reaches, Spared;
    DoneBy(Orphaned, y, z, Ack(i));
  }

  /** After the hand-back the same worker claims the row again, and then the stale ack lands. */
  lemma FinishedThenOrphaned(y: Cell, z: Cell, i: nat, success: bool)
    requires Reaches(ResetIsSafe, y, z) && FinishedByStale(z, i, success)
    ensures !Spared(Orphaned, y)
  {
    hide Reaches, Spared;
    var a := Release(|z.leases| - 1);
    Follows(ResetIsSafe, y, z, a);
    var r := Apply(z, a);
    assert r.row.status.Ready? && r.leases[i] == z.leases[i] && r.row.attempts == z.leases[i].attempt - 1;
    var c := ClaimOnce(y, r, i, r.leases[i]);
    AckHarms(y, c, i);
  }

  lemma HarmfulClaimsHarm(h: Harm, y: Cell, z: Cell, i: nat)
    requires Reaches(ResetIsSafe, y, z) && OwnsAgain(z, i) && Harmful(h, z.leases[i].phase)
    requires z.leases[i].worker != ""
    ensures !Spared(h, y)
  {
    hide Reaches, Spared, FinishedByStale;
    if z.leases[i].phase.Acking? {
      AckHarms(y, z, i);
    } else {
      var u := DriveToFinish(y, z, i);
      HandingBackHarms(y, u, i, MaySucceed(z.leases[i].phase));
      FinishedThenOrphaned(y, u, i, MaySucceed(z.leases[i].phase));
    }
  }

  // ---- What the other claims cannot do ----

  /** A claim from before the reset. */
  predicate StaleOk(h: Harm, l: Lease) {
    CanWrite(l) ==> l.worker != "" && !Harmful(h, l.phase)
  }

  /** A claim made since. */
  predicate NewOk(x: Cell, l: Lease) {
    && l.worker != "" && (!HandedBack(l) ==> l.attempt <= x.row.attempts)
    && (l.phase.Held? || l.phase.Starting? || l.phase.Loading? || HandedBack(l) ==> l.body.Unstarted?)
    && (l.beats ==> !l.body.Unstarted?)
  }

  /** What is left of fencing: the claims made since the reset are ordered, and the last of them
      holds a held row, although earlier claims may hold it too. */
  predicate Ordered(h: Harm, x: Cell) {
    var n := |x.leases|;
    && x.base <= n
    && (forall i | 0 <= i < x.base :: StaleOk(h, x.leases[i]))
    && (forall i | x.base <= i < n :: NewOk(x, x.leases[i]))
    && (forall i, j | x.base <= i < j < n && !HandedBack(x.leases[i]) && !HandedBack(x.leases[j]) ::
          x.leases[i].attempt < x.leases[j].attempt)
    && (x.row.claimedBy != "" ==>
          && x.base < n && !HandedBack(x.leases[n - 1])
          && Holds(x.row, x.leases[n - 1].worker, x.leases[n - 1].attempt))
  }

  /** What the harm is about: a row that must not be given back has no claim left to do so. */
  predicate Guarded(h: Harm, x: Cell) {
    && (x.row.claimedBy == "" <==> x.row.lastHeartbeatAt.None?)
    && (x.row.status.Ready? ==> x.row.claimedBy == "")
    && (x.row.claimedBy != "" && x.leases != []
        && (x.row.status.Successful? || (x.row.status.Failed? && !h.Undone?)) ==>
          Finishing(x.leases[|x.leases| - 1]))
    && (h.Orphaned? && x.row.status.Running? ==>
          x.row.claimedBy != "" && x.leases != [] && !x.leases[|x.leases| - 1].phase.Acking?)
  }

  predicate Weak(h: Harm, x: Cell) {
    Ordered(h, x) && Guarded(h, x)
  }

  lemma EarlierClaimsAreOk(h: Harm, x: Cell)
    requires Inv(x)
    requires forall i | 0 <= i < |x.leases| :: CanWrite(x.leases[i]) ==> !Harmful(h, x.leases[i].phase)
    ensures forall i | 0 <= i < |x.leases| :: StaleOk(h, x.leases[i])
  {
    hide Harmful;
    forall i | 0 <= i < |x.leases| ensures StaleOk(h, x.leases[i]) {
      assert x.base <= i ==> LeaseOk(x, x.leases[i]);
    }
  }

  lemma InvIsWeak(h: Harm, x: Cell, now: int)
    requires Inv(x) && x.row.status.Failed?
    requires forall i | 0 <= i < |x.leases| :: CanWrite(x.leases[i]) ==> !Harmful(h, x.leases[i].phase)
    ensures Weak(h, Apply(x, Requeue(true, now, true)))
  {
    EarlierClaimsAreOk(h, x);
    hide Inv, StaleOk, NewOk;
    var y := Apply(x, Requeue(true, now, true));
    assert y.leases == x.leases && y.base == |x.leases| && Unheld(y.row) && y.row.status.Ready?;
  }

  /** A claim made since the reset that holds the row and can write is the last one. */
  lemma NewHolderIsLast(h: Harm, x: Cell, i: nat)
    requires Ordered(h, x) && x.base <= i < |x.leases| && CanWrite(x.leases[i])
    requires Holds(x.row, x.leases[i].worker, x.leases[i].attempt)
    ensures i == |x.leases| - 1
  {
  }

  lemma OthersKeepWeak(h: Harm, x: Cell, a: Act)
    requires Weak(h, x) && Enabled(x, a) && !ByWorker(a) && ResetIsSafe(x, a)
    ensures Weak(h, Apply(x, a))
  {
    hide Harmful;
  }

  /** A row after a write that keeps its attempts and makes nothing worse. */
  predicate NoWorse(h: Harm, r: Row, r': Row) {
    && r'.attempts == r.attempts && (r'.claimedBy == "" || r'.claimedBy == r.claimedBy)
    && ((r.claimedBy == "" <==> r.lastHeartbeatAt.None?) ==> (r'.claimedBy == "" <==> r'.lastHeartbeatAt.None?))
    && (r'.status.Ready? ==> r.status.Ready? || r'.claimedBy == "")
    && (r'.status.Successful? ==> r.status.Successful?)
    && (r'.status.Failed? && !h.Undone? ==> r.status.Failed?)
    && (h.Orphaned? && r'.status.Running? ==> r.status.Running? && r'.claimedBy == r.claimedBy)
  }

  /** A claim that goes on without handing the row back. */
  predicate GoesOn(l: Lease, l': Lease) {
    && l'.worker == l.worker && l'.attempt == l.attempt && HandedBack(l') == HandedBack(l)
    && (Finishing(l) ==> Finishing(l')) && (l'.phase.Acking? ==> l.phase.Acking?)
  }

  lemma NoWorseKeepsWeak(h: Harm, x: Cell, y: Cell, i: nat)
    requires Weak(h, x) && NoWorse(h, x.row, y.row) && y.base == x.base
    requires i < |x.leases| == |y.leases| && y.leases == x.leases[i := y.leases[i]]
    requires if i < x.base then StaleOk(h, y.leases[i]) else GoesOn(x.leases[i], y.leases[i]) && NewOk(y, y.leases[i])
    ensures Weak(h, y)
  {
    hide StaleOk;
    assert forall j | 0 <= j < |x.leases| && j != i :: y.leases[j] == x.leases[j];
  }

  /** Writes apart, and writes that miss the row, leave it alone. */
  lemma CalmActChanges(h: Harm, x: Cell, a: Act)
    requires Enabled(x, a) && ByWorker(a)
    requires !WritesRow(a) || !Holds(x.row, x.leases[a.i].worker, x.leases[a.i].attempt)
    ensures var y, l := Apply(x, a), x.leases[a.i];
            && y.row == x.row && y.base == x.base && y.leases == x.leases[a.i := y.leases[a.i]]
            && GoesOn(l, y.leases[a.i])
            && (StaleOk(h, l) ==> StaleOk(h, y.leases[a.i]))
            && (NewOk(x, l) ==> NewOk(y, y.leases[a.i]))
  {
  }

  lemma CalmActKeepsWeak(h: Harm, x: Cell, a: Act)
    requires Weak(h, x) && Enabled(x, a) && ByWorker(a)
    requires !WritesRow(a) || !Holds(x.row, x.leases[a.i].worker, x.leases[a.i].attempt)
    ensures Weak(h, Apply(x, a))
  {
    CalmActChanges(h, x, a);
    assert if a.i < x.base then StaleOk(h, x.leases[a.i]) else NewOk(x, x.leases[a.i]);
    hide Weak, Apply, Enabled, StaleOk, NewOk, GoesOn;
    NoWorseKeepsWeak(h, x, Apply(x, a), a.i);
  }

  /** What a write by a claim from before the reset can do, although it may hold the row. */
  lemma StaleWriteChanges(h: Harm, x: Cell, a: Act)
    requires Enabled(x, a) && WritesRow(a) && StaleOk(h, x.leases[a.i])
    ensures var y := Apply(x, a);
            && NoWorse(h, x.row, y.row) && y.base == x.base
            && y.leases == x.leases[a.i := y.leases[a.i]] && StaleOk(h, y.leases[a.i])
  {
  }

  lemma StaleWriteKeepsWeak(h: Harm, x: Cell, a: Act)
    requires Weak(h, x) && Enabled(x, a) && WritesRow(a) && a.i < x.base
    ensures Weak(h, Apply(x, a))
  {
    assert StaleOk(h, x.leases[a.i]);
    StaleWriteChanges(h, x, a);
    hide Weak, Apply, Enabled, StaleOk, NewOk, GoesOn, NoWorse;
    NoWorseKeepsWeak(h, x, Apply(x, a), a.i);
  }

  lemma HeldReleaseKeepsWeak(h: Harm, x: Cell, i: nat)
    requires Weak(h, x) && Enabled(x, Release(i)) && x.base <= i
    requires Holds(x.row, x.leases[i].worker, x.leases[i].attempt)
    ensures Weak(h, Apply(x, Release(i)))
  {
    NewHolderIsLast(h, x, i);
    hide StaleOk;
    var y := Apply(x, Release(i));
    assert forall j | 0 <= j < i :: y.leases[j] == x.leases[j];
  }

  /** The last claim writes: its lease goes on, and a row it finishes it will not give back. */
  lemma HeldWriteChanges(h: Harm, x: Cell, a: Act)
    requires Enabled(x, a) && WritesRow(a) && !a.Release?
    requires Holds(x.row, x.leases[a.i].worker, x.leases[a.i].attempt) && NewOk(x, x.leases[a.i])
    ensures var y, l := Apply(x, a), x.leases[a.i];
            && y.leases == x.leases[a.i := y.leases[a.i]] && y.base == x.base && NewOk(y, y.leases[a.i])
            && y.leases[a.i].worker == l.worker && y.leases[a.i].attempt == l.attempt
            && HandedBack(y.leases[a.i]) == HandedBack(l)
            && y.row.attempts == x.row.attempts && (y.row.claimedBy == "" || y.row.claimedBy == x.row.claimedBy)
  {
  }

  lemma LastWriteKeepsOrdered(h: Harm, x: Cell, y: Cell)
    requires Ordered(h, x) && y.base == x.base < |x.leases| == |y.leases|
    requires var n := |x.leases| - 1;
             var l, l' := x.leases[n], y.leases[n];
             && y.leases == x.leases[n := l'] && NewOk(y, l')
             && l'.worker == l.worker && l'.attempt == l.attempt && HandedBack(l') == HandedBack(l)
    requires y.row.attempts == x.row.attempts && (y.row.claimedBy == "" || y.row.claimedBy == x.row.claimedBy)
    ensures Ordered(h, y)
  {
    hide StaleOk, HandedBack;
    assert forall j | 0 <= j < |x.leases| - 1 :: y.leases[j] == x.leases[j];
  }

  lemma HeldWriteKeepsGuarded(h: Harm, x: Cell, a: Act)
    requires Guarded(h, x) && Enabled(x, a) && WritesRow(a) && !a.Release? && a.i == |x.leases| - 1
    requires Holds(x.row, x.leases[a.i].worker, x.leases[a.i].attempt) && NewOk(x, x.leases[a.i])
    ensures Guarded(h, Apply(x, a))
  {
  }

  lemma HeldWriteKeepsWeak(h: Harm, x: Cell, a: Act)
    requires Weak(h, x) && Enabled(x, a) && WritesRow(a) && !a.Release? && x.base <= a.i
    requires Holds(x.row, x.leases[a.i].worker, x.leases[a.i].attempt)
    ensures Weak(h, Apply(x, a))
  {
    NewHolderIsLast(h, x, a.i);
    assert NewOk(x, x.leases[a.i]);
    hide Apply, Enabled, NewOk, HandedBack, Ordered, Guarded;
    HeldWriteChanges(h, x, a);
    HeldWriteKeepsGuarded(h, x, a);
    LastWriteKeepsOrdered(h, x, Apply(x, a));
  }

  lemma ActKeepsWeak(h: Harm, x: Cell, a: Act)
    requires Weak(h, x) && Enabled(x, a) && ResetIsSafe(x, a)
    ensures Weak(h, Apply(x, a))
  {
    hide Weak, Apply;
    if !ByWorker(a) {
      OthersKeepWeak(h, x, a);
    } else if !WritesRow(a) || !Holds(x.row, x.leases[a.i].worker, x.leases[a.i].attempt) {
      CalmActKeepsWeak(h, x, a);
    } else if a.i < x.base {
      StaleWriteKeepsWeak(h, x, a);
    } else if a.Release? {
      HeldReleaseKeepsWeak(h, x, a.i);
    } else {
      HeldWriteKeepsWeak(h, x, a);
    }
  }

  lemma WeakMeansSpared(h: Harm, x: Cell, a: Act)
    requires Weak(h, x) && Enabled(x, a) && ResetIsSafe(x, a)
    ensures !Does(h, x, a)
  {
    ActKeepsWeak(h, x, a);
    if ByWorker(a) && x.base <= a.i && CanWrite(x.leases[a.i])
       && Holds(x.row, x.leases[a.i].worker, x.leases[a.i].attempt) {
      NewHolderIsLast(h, x, a.i);
    }
  }

  lemma {:induction false} PathKeepsWeak(h: Harm, xs: seq<Cell>, acts: seq<Act>, k: nat)
    requires IsPath(xs, acts) && Keeps(ResetIsSafe, xs, acts) && Weak(h, xs[0]) && k <= |acts|
    ensures Weak(h, xs[k])
  {
    hide Weak, Apply, Enabled, ResetIsSafe;
    if k > 0 {
      PathKeepsWeak(h, xs, acts, k - 1);
      ActKeepsWeak(h, xs[k - 1], acts[k - 1]);
    }
  }

  /** A requeue that resets `attempts` while earlier claims can write is followed by the harm in some
      continuation if and only if one of these claims is in a phase that can lead to it. An orphan
      comes from every claim that is not about to retry; a row given back, from every claim that may
      still finish it; a success undone, from every claim that may still succeed. */
  lemma ResetHarmsIff(h: Harm, x: Cell, now: int)
    requires Inv(x) && x.row.status.Failed?
    ensures Spared(h, Apply(x, Requeue(true, now, true)))
       <==> forall i | 0 <= i < |x.leases| :: CanWrite(x.leases[i]) ==> !Harmful(h, x.leases[i].phase)
  {
    var y := Apply(x, Requeue(true, now, true));
    if i: nat :| i < |x.leases| && CanWrite(x.leases[i]) && Harmful(h, x.leases[i].phase) {
      Stays(ResetIsSafe, y);
      assert x.leases[i].attempt >= 1 && x.leases[i].worker != "";
      var t := TokenComesBack(y, y, i, x.leases[i]);
      HarmfulClaimsHarm(h, y, t, i);
    } else {
      InvIsWeak(h, x, now);
      hide Inv, Weak, Apply, Enabled;
      forall z, a | Reaches(ResetIsSafe, y, z) && Enabled(z, a) && ResetIsSafe(z, a) ensures !Does(h, z, a) {
        var xs, acts :| IsPath(xs, acts) && Keeps(ResetIsSafe, xs, acts) && xs[0] == y && xs[|acts|] == z;
        PathKeepsWeak(h, xs, acts, |acts|);
        WeakMeansSpared(h, z, a);
      }
    }
  }

  /** A run to such a requeue: its first attempt failed for good and is about to ack. */
  lemma OrphaningResetIsReachable(x: Cell, w: string, now: int) returns (xs: seq<Cell>, acts: seq<Act>)
    requires Fresh(x) && w != "" && x.row.runAfter <= 0 && x.row.maxRetries == 0
    ensures IsRun(xs, acts) && SafeResets(xs, acts) && xs[0] == x && xs[|acts|].row.status.Failed?
    ensures !Spared(Orphaned, Apply(xs[|acts|], Requeue(true, now, true)))
  {
    hide Apply, Spared, Fresh;
    xs, acts := LateAckIsReachable(x, w);
    var z := xs[|acts|];
    RunInv(xs, acts, |acts|);
    ResetHarmsIff(Orphaned, z, now);
    assert CanWrite(z.leases[0]) && Harmful(Orphaned, z.leases[0].phase);
  }
}
