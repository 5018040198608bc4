/** The two levels together: when every operation that takes effect in an interleaving of lock-level
    transactions is one that a worker, the reaper or a caller issued at that moment, the
    interleaving is a run of the whole world, and all that holds of such runs holds of it. */
module IssuedRuns {
  import opened Model
  import opened Database
  import opened World
  import Protocol
  import Runs
  import Continuations
  import Overlap
  import Budget
  import Locks
  import LockRefinement

  /** The operations a run commits, in order. */
  function Commits(steps: seq<Step>): seq<Op> {
    if steps == [] then []
    else
      var front, last := Commits(steps[..|steps| - 1]), steps[|steps| - 1];
      if last.Commit? then front + [last.op] else front
  }

  /** Somebody who follows the protocol takes this step now. What the database makes of it, and
      whether a claim or a reap may take these rows, is not part of it. */
  ghost predicate Issued(w: World, s: Step)
    requires Linked(w)
  {
    match s
    case Inner(_, _) => CanStep(map[], w, s)
    case Commit(op, acts) =>
      && Matches(w, op, acts)
      && (op.Requeue? ==> Protocol.ResetIsSafe(Now(w.rows[op.id]), acts[op.id]))
  }

  ghost predicate IssuedRun(limits: Limits, ws: seq<World>, steps: seq<Step>) {
    && |ws| == |steps| + 1 && Empty(ws[0])
    && forall k | 0 <= k < |steps| ::
         Linked(ws[k]) ==>
           Issued(ws[k], steps[k]) && (CanStep(limits, ws[k], steps[k]) ==> ws[k + 1] == Next(limits, ws[k], steps[k]))
  }

  /** An issued operation that is legal is a step of the world. */
  lemma IssuedAndLegalIsStep(limits: Limits, w: World, s: Step)
    requires Linked(w) && Issued(w, s)
    requires s.Commit? ==> Legal(limits, w.db, s.op)
    ensures CanStep(limits, w, s)
  {
    hide Legal, Protocol.Enabled, Protocol.Apply, ValidHistory;
    if s.Commit? && (s.op.Claim? || s.op.Reap?) {
      LegalBatchesAreEnabled(limits, w, s.op, s.acts);
    }
  }

  lemma CommitsSnoc(steps: seq<Step>, j: nat)
    requires 0 < j <= |steps|
    ensures Commits(steps[..j])
         == Commits(steps[..j - 1]) + (if steps[j - 1].Commit? then [steps[j - 1].op] else [])
  {
    assert steps[..j][..j - 1] == steps[..j - 1];
  }

  lemma {:induction false} IssuedRunFollowsHistory(limits: Limits, ws: seq<World>, steps: seq<Step>, j: nat)
    requires IssuedRun(limits, ws, steps) && j <= |steps|
    requires LegalOps(limits, Db(map[], map[]), Commits(steps[..j]))
    ensures Linked(ws[j]) && ws[j].db == RunOps(limits, Db(map[], map[]), Commits(steps[..j]))
    ensures forall i | 0 <= i < j :: Linked(ws[i]) && CanStep(limits, ws[i], steps[i])
  {
    hide CanStep, Issued, Legal, RunOp, Linked;
    if j == 0 {
      EmptyIsLinked(ws[0]);
      assert steps[..0] == [];
    } else {
      CommitsSnoc(steps, j);
      var before := Commits(steps[..j - 1]);
      assert before + [] == before;
      if steps[j - 1].Commit? {
        RunOpsSnoc(limits, Db(map[], map[]), before, steps[j - 1].op);
      }
      IssuedRunFollowsHistory(limits, ws, steps, j - 1);
      IssuedAndLegalIsStep(limits, ws[j - 1], steps[j - 1]);
      StepKeepsLink(limits, ws[j - 1], steps[j - 1]);
    }
  }

  lemma EmptyIsLinked(w: World)
    requires Empty(w)
    ensures Linked(w) && w.db == Db(map[], map[])
  {
  }

  /** The committed state of the interleaving is that of the reachable world. */
  lemma InterleavingIsWorldRun(limits: Limits, ss: seq<Locks.System>, ms: seq<Locks.Move>, k: nat,
                               ws: seq<World>, steps: seq<Step>)
    requires LockRefinement.Interleaving(limits, Db(map[], map[]), ss, ms) && k <= |ms|
    requires IssuedRun(limits, ws, steps) && Commits(steps) == ss[k].log
    ensures Reaches(limits, ws, steps) && ws[|steps|].db == ss[k].db
  {
    hide CanStep, Issued, Linked, Next, Locks.CanMove, Locks.Do, LegalOps, RunOps;
    LockRefinement.EveryInterleavingIsSerial(limits, Db(map[], map[]), ss, ms, k);
    assert steps[..|steps|] == steps;
    IssuedRunFollowsHistory(limits, ws, steps, |steps|);
  }

  /** A row with a protocol run behind it, which fences its overtaken claims; it is within its budget
      of executions; and if it is at-most-once with quiet requeues, its executions never overlap. */
  ghost predicate RowIsSafe(w: World, id: Id) {
    && id in w.rows && id in w.db.rows
    && var h := w.rows[id];
       && ValidHistory(h) && h.xs[|h.acts|].row == w.db.rows[id]
       && (forall k | 0 <= k < |h.acts| && Protocol.ByWorker(h.acts[k]) && h.acts[k].i + 1 < |h.xs[k].leases| ::
             h.xs[k + 1].row == h.xs[k].row)
       && var x := h.xs[|h.acts|];
          && Budget.Starts(x.leases)
               <= Budget.Budgets(h.xs[0].row.maxRetries, Budget.Resets(h.xs, h.acts) + 1)
                  + Budget.KeepingRequeues(h.xs, h.acts)
          && (Continuations.Keeps(Overlap.SafeAndQuiet, h.xs, h.acts) && h.xs[0].row.delivery.AtMostOnce? ==>
                Overlap.NoOverlap(x))
  }

  lemma ReachableRowIsSafe(limits: Limits, ws: seq<World>, steps: seq<Step>, id: Id)
    requires forall p | p in limits :: ValidPolicy(limits[p])
    requires Reaches(limits, ws, steps) && id in ws[|steps|].db.rows
    ensures RowIsSafe(ws[|steps|], id)
  {
    hide Budget.Starts, Budget.Budgets, Budget.Resets, Budget.KeepingRequeues, Protocol.Inv, Protocol.Apply;
    hide Protocol.Enabled, Overlap.NoOverlap, Overlap.SafeAndQuiet, CanStep, Next;
    ReachableIsSound(limits, ws, steps, |steps|);
    ReachableRowsAreSafe(limits, ws, steps, |steps|, id);
    OvertakenAreFenced(ws[|steps|].rows[id]);
  }

  lemma OvertakenAreFenced(h: History)
    requires ValidHistory(h)
    ensures forall k | 0 <= k < |h.acts| && Protocol.ByWorker(h.acts[k]) && h.acts[k].i + 1 < |h.xs[k].leases| ::
              h.xs[k + 1].row == h.xs[k].row
  {
    hide Protocol.Enabled, Protocol.Apply, Protocol.ResetIsSafe;
    forall k | 0 <= k < |h.acts| && Protocol.ByWorker(h.acts[k]) && h.acts[k].i + 1 < |h.xs[k].leases|
      ensures h.xs[k + 1].row == h.xs[k].row
    {
      Runs.StaleClaimsAreFenced(h.xs, h.acts, k);
    }
  }

  /** So every committed row is safe at every point of such an interleaving. */
  lemma InterleavedRowsAreSafe(limits: Limits, ss: seq<Locks.System>, ms: seq<Locks.Move>, k: nat,
                               ws: seq<World>, steps: seq<Step>, id: Id)
    requires forall p | p in limits :: ValidPolicy(limits[p])
    requires LockRefinement.Interleaving(limits, Db(map[], map[]), ss, ms) && k <= |ms|
    requires IssuedRun(limits, ws, steps) && Commits(steps) == ss[k].log && id in ss[k].db.rows
    ensures RowIsSafe(ws[|steps|], id) && ws[|steps|].db.rows[id] == ss[k].db.rows[id]
  {
    hide RowIsSafe, Locks.CanMove, Locks.Do, CanStep, Next, Issued;
    InterleavingIsWorldRun(limits, ss, ms, k, ws, steps);
    ReachableRowIsSafe(limits, ws, steps, id);
  }
}
