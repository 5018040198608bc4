/** The whole database with all its workers. A step is either internal to a worker, or one
    committed operation together with the act it is for each row it touches. Every row of every
    reachable world has a run of the row protocol behind it, so the theorems about runs hold for
    all rows at once, together with the unique index and the concurrency caps. */
module World {
  import opened Model
  import RowOps
  import Database
  import SerialRuns
  import RowHistory
  import opened Protocol
  import Fencing
  import Runs
  import Budget
  import Continuations
  import Overlap

  datatype History = History(xs: seq<Cell>, acts: seq<Act>)

  datatype World = World(db: Database.Db, rows: map<Id, History>)

  datatype Step =
    | Inner(id: Id, act: Act)
    | Commit(op: Database.Op, acts: map<Id, Act>)

  ghost predicate ValidHistory(h: History) {
    Runs.IsRun(h.xs, h.acts) && Runs.SafeResets(h.xs, h.acts)
  }

  function Now(h: History): Cell
    requires h.xs != []
  {
    h.xs[|h.xs| - 1]
  }

  function Grown(h: History, a: Act): History
    requires h.xs != [] && Enabled(Now(h), a)
  {
    History(h.xs + [Apply(Now(h), a)], h.acts + [a])
  }

  ghost predicate Linked(w: World) {
    && w.rows.Keys == w.db.rows.Keys
    && forall id | id in w.rows ::
         w.rows[id].xs != [] && ValidHistory(w.rows[id]) && Now(w.rows[id]).row == w.db.rows[id]
  }

  /** The operation that an act of a lease, or of a caller, sends to the database. */
  function OpOf(id: Id, x: Cell, a: Act): Database.Op
    requires Enabled(x, a) && (Fencing.WritesRow(a) || a.Cancel? || a.Requeue?)
  {
    match a
    case Release(i) => Database.Release(id, x.row.path, x.leases[i].worker, x.leases[i].attempt)
    case MarkRunning(i) => Database.MarkRunning(id, x.leases[i].worker, x.leases[i].attempt)
    case MarkSuccessful(i, v, now) =>
      Database.MarkSuccessful(id, x.leases[i].worker, x.leases[i].attempt, v, now)
    case MarkFailed(i, e, now) =>
      Database.MarkFailed(id, x.leases[i].worker, x.leases[i].attempt, e, x.leases[i].phase.willRetry, now)
    case Ack(i) => Database.Ack(id, x.leases[i].worker, x.leases[i].attempt)
    case Nack(i, t) => Database.Nack(id, x.leases[i].worker, x.leases[i].attempt, t)
    case Heartbeat(i, now) => Database.Heartbeat(id, x.leases[i].worker, x.leases[i].attempt, now)
    case Cancel(now) => Database.Cancel(id, now)
    case Requeue(reset, now, _) => Database.Requeue(id, reset, now)
  }

  /** The acts that one committed operation stands for. */
  ghost predicate Matches(w: World, op: Database.Op, acts: map<Id, Act>)
    requires Linked(w)
  {
    match op
    case Create(_, _) => acts == map[]
    case Claim(ids, _, worker, now) => acts == map i | i in ids :: Claim(worker, now)
    case Reap(delays, cutoff, now) => acts == map i | i in delays :: Reap(cutoff, now, delays[i])
    case _ =>
      && op.id in w.rows && acts.Keys == {op.id}
      && var a, x := acts[op.id], Now(w.rows[op.id]);
         && (Fencing.WritesRow(a) || a.Cancel? || a.Requeue?)
         && Enabled(x, a) && op == OpOf(op.id, x, a)
         && (a.Requeue? ==> a.keyFree == Database.KeyFree(w.db.rows, op.id, x.row.uniqueKey))
  }

  ghost predicate CanStep(limits: Limits, w: World, s: Step)
    requires Linked(w)
  {
    match s
    case Inner(id, a) =>
      id in w.rows && ByWorker(a) && !Fencing.WritesRow(a) && Enabled(Now(w.rows[id]), a)
    case Commit(op, acts) =>
      && Database.Legal(limits, w.db, op) && Matches(w, op, acts)
      && forall id | id in acts ::
           id in w.rows && Enabled(Now(w.rows[id]), acts[id]) && ResetIsSafe(Now(w.rows[id]), acts[id])
  }

  /** For claims and reaps, enabledness is no extra condition: it follows from legality. */
  lemma LegalBatchesAreEnabled(limits: Limits, w: World, op: Database.Op, acts: map<Id, Act>)
    requires Linked(w) && (op.Claim? || op.Reap?)
    requires Database.Legal(limits, w.db, op) && Matches(w, op, acts)
    ensures CanStep(limits, w, Commit(op, acts))
  {
    forall id | id in acts
      ensures id in w.rows && Enabled(Now(w.rows[id]), acts[id]) && ResetIsSafe(Now(w.rows[id]), acts[id])
    {
      assert Now(w.rows[id]).row == w.db.rows[id];
    }
  }

  /** Nor is anything left out for single rows: whatever act the protocol enables for a row, resets
      being safe, is a step of the world. */
  lemma EveryActIsAStep(limits: Limits, w: World, id: Id, a: Act)
    requires Linked(w) && id in w.rows && Enabled(Now(w.rows[id]), a) && ResetIsSafe(Now(w.rows[id]), a)
    requires !a.Claim? && !a.Reap?
    requires a.Requeue? ==> a.keyFree == Database.KeyFree(w.db.rows, id, w.db.rows[id].uniqueKey)
    ensures if Fencing.WritesRow(a) || a.Cancel? || a.Requeue?
            then CanStep(limits, w, Commit(OpOf(id, Now(w.rows[id]), a), map[id := a]))
            else CanStep(limits, w, Inner(id, a))
  {
    hide Apply, Enabled, ValidHistory;
  }

  function GrownRows(rows: map<Id, History>, acts: map<Id, Act>): map<Id, History>
    requires forall id | id in acts :: id in rows && rows[id].xs != [] && Enabled(Now(rows[id]), acts[id])
  {
    map id | id in rows :: if id in acts then Grown(rows[id], acts[id]) else rows[id]
  }

  function Born(row: Row): History {
    History([Cell(row, [], 0, 0, 0, {})], [])
  }

  ghost function Next(limits: Limits, w: World, s: Step): World
    requires Linked(w) && CanStep(limits, w, s)
  {
    match s
    case Inner(id, a) => w.(rows := w.rows[id := Grown(w.rows[id], a)])
    case Commit(op, acts) =>
      var db := Database.RunOp(limits, w.db, op);
      var rows := GrownRows(w.rows, acts);
      World(db, if op.Create? && op.id in db.rows then rows[op.id := Born(op.row)] else rows)
  }

  lemma GrownIsValid(h: History, a: Act)
    requires ValidHistory(h) && Enabled(Now(h), a) && ResetIsSafe(Now(h), a)
    ensures ValidHistory(Grown(h, a)) && Now(Grown(h, a)) == Apply(Now(h), a)
  {
    hide Apply, Enabled, ResetIsSafe, Fresh;
    var g := Grown(h, a);
    forall k | 0 <= k < |g.acts|
      ensures Enabled(g.xs[k], g.acts[k]) && g.xs[k + 1] == Apply(g.xs[k], g.acts[k]) && ResetIsSafe(g.xs[k], g.acts[k])
    {
      if k < |h.acts| {
        assert g.xs[k] == h.xs[k] && g.xs[k + 1] == h.xs[k + 1] && g.acts[k] == h.acts[k];
      }
    }
  }

  lemma NowInv(h: History)
    requires ValidHistory(h)
    ensures Inv(Now(h))
  {
    Runs.RunInv(h.xs, h.acts, |h.acts|);
  }

  /** A release never trips the unique index: the row it gives back is still running. */
  lemma ReleaseIsOperation(limits: Limits, db: Database.Db, id: Id, x: Cell, i: nat)
    requires Inv(x) && Enabled(x, Release(i)) && id in db.rows && db.rows[id] == x.row
    ensures Database.RunOp(limits, db, OpOf(id, x, Release(i))).rows == db.rows[id := Apply(x, Release(i)).row]
  {
    if RowOps.Holds(x.row, x.leases[i].worker, x.leases[i].attempt) {
      Fencing.HolderIsLast(x, i);
      assert x.row.status.Running?;
    }
  }

  lemma WorkerWriteIsOperation(limits: Limits, db: Database.Db, id: Id, x: Cell, a: Act)
    requires Enabled(x, a) && Fencing.WritesRow(a) && !a.Release? && id in db.rows && db.rows[id] == x.row
    ensures Database.RunOp(limits, db, OpOf(id, x, a)).rows == db.rows[id := Apply(x, a).row]
  {
    hide WillRetry, Database.KeyFree;
  }

  lemma CallerWriteIsOperation(limits: Limits, db: Database.Db, id: Id, x: Cell, a: Act)
    requires (a.Cancel? || a.Requeue?) && id in db.rows && db.rows[id] == x.row
    requires a.Requeue? ==> a.keyFree == Database.KeyFree(db.rows, id, x.row.uniqueKey)
    ensures Database.RunOp(limits, db, OpOf(id, x, a)).rows == db.rows[id := Apply(x, a).row]
  {
  }

  /** An act on one row is exactly the operation it sends: the row changes in the same way, and no
      other row changes. */
  lemma ActIsOperation(limits: Limits, db: Database.Db, id: Id, x: Cell, a: Act)
    requires Inv(x) && Enabled(x, a) && (Fencing.WritesRow(a) || a.Cancel? || a.Requeue?)
    requires id in db.rows && db.rows[id] == x.row
    requires a.Requeue? ==> a.keyFree == Database.KeyFree(db.rows, id, x.row.uniqueKey)
    ensures Database.RunOp(limits, db, OpOf(id, x, a)).rows == db.rows[id := Apply(x, a).row]
  {
    hide Apply, OpOf, Database.RunOp, Inv;
    if a.Release? {
      ReleaseIsOperation(limits, db, id, x, a.i);
    } else if ByWorker(a) {
      WorkerWriteIsOperation(limits, db, id, x, a);
    } else {
      CallerWriteIsOperation(limits, db, id, x, a);
    }
  }

  /** What remains to be shown of a commit: its rows are those the acts lead to. */
  ghost predicate RowsAgree(w: World, acts: map<Id, Act>, rows: Rows)
    requires Linked(w)
    requires forall id | id in acts :: id in w.rows && Enabled(Now(w.rows[id]), acts[id])
  {
    && rows.Keys == w.rows.Keys
    && forall id | id in w.rows ::
         rows[id] == if id in acts then Apply(Now(w.rows[id]), acts[id]).row else w.db.rows[id]
  }

  lemma BatchRow(x: Cell, a: Act)
    requires Enabled(x, a) && (a.Claim? || a.Reap?)
    ensures Apply(x, a).row == if a.Claim? then RowOps.Claimed(x.row, a.worker, a.now)
                               else RowOps.Reaped(x.row, a.now, a.delay)
  {
  }

  lemma BatchAgrees(limits: Limits, w: World, op: Database.Op, acts: map<Id, Act>)
    requires Linked(w) && CanStep(limits, w, Commit(op, acts)) && (op.Claim? || op.Reap?)
    ensures RowsAgree(w, acts, Database.RunOp(limits, w.db, op).rows)
  {
    hide Apply, Enabled, ValidHistory, Database.PolledBuckets, ResetIsSafe;
    hide RowOps.Claimed, RowOps.Reaped, RowOps.Stale;
    forall id | id in acts
      ensures Apply(Now(w.rows[id]), acts[id]).row == Database.RunOp(limits, w.db, op).rows[id]
    {
      BatchRow(Now(w.rows[id]), acts[id]);
    }
  }

  lemma SingleAgrees(limits: Limits, w: World, op: Database.Op, acts: map<Id, Act>)
    requires Linked(w) && CanStep(limits, w, Commit(op, acts)) && !op.Claim? && !op.Reap? && !op.Create?
    ensures RowsAgree(w, acts, Database.RunOp(limits, w.db, op).rows)
  {
    hide Apply, Enabled, Database.RunOp, Inv;
    NowInv(w.rows[op.id]);
    ActIsOperation(limits, w.db, op.id, Now(w.rows[op.id]), acts[op.id]);
  }

  lemma CommitKeepsLink(limits: Limits, w: World, op: Database.Op, acts: map<Id, Act>)
    requires Linked(w) && CanStep(limits, w, Commit(op, acts)) && !op.Create?
    ensures Linked(Next(limits, w, Commit(op, acts)))
  {
    hide Apply, Enabled, Database.RunOp, Matches, Database.Legal, ValidHistory;
    if op.Claim? || op.Reap? {
      BatchAgrees(limits, w, op, acts);
    } else {
      SingleAgrees(limits, w, op, acts);
    }
    forall id | id in acts
      ensures ValidHistory(Grown(w.rows[id], acts[id]))
      ensures Now(Grown(w.rows[id], acts[id])) == Apply(Now(w.rows[id]), acts[id])
    {
      GrownIsValid(w.rows[id], acts[id]);
    }
  }

  lemma BornIsValid(row: Row)
    requires Database.Newborn(row)
    ensures ValidHistory(Born(row))
  {
  }

  /** An insert adds its row with an empty history, or the index turns it away. */
  lemma CreateAdds(limits: Limits, w: World, op: Database.Op)
    requires Linked(w) && CanStep(limits, w, Commit(op, map[])) && op.Create?
    ensures op.id !in w.db.rows && Database.Newborn(op.row)
    ensures var t := Next(limits, w, Commit(op, map[]));
            || (t.db.rows == w.db.rows && t.rows == w.rows)
            || (t.db.rows == w.db.rows[op.id := op.row] && t.rows == w.rows[op.id := Born(op.row)])
  {
    hide Linked, ValidHistory, Database.Newborn, Database.KeyFree, Enabled, Apply;
    assert GrownRows(w.rows, map[]) == w.rows;
  }

  lemma CreateKeepsLink(limits: Limits, w: World, op: Database.Op)
    requires Linked(w) && CanStep(limits, w, Commit(op, map[])) && op.Create?
    ensures Linked(Next(limits, w, Commit(op, map[])))
  {
    hide CanStep, Next, ValidHistory, Database.Newborn;
    CreateAdds(limits, w, op);
    BornIsValid(op.row);
  }

  lemma InnerKeepsLink(limits: Limits, w: World, id: Id, a: Act)
    requires Linked(w) && CanStep(limits, w, Inner(id, a))
    ensures Linked(Next(limits, w, Inner(id, a)))
  {
    hide Apply, Enabled, ValidHistory, Inv;
    GrownIsValid(w.rows[id], a);
    NowInv(w.rows[id]);
    Fencing.InnerStepKeepsInv(Now(w.rows[id]), a);
  }

  lemma StepKeepsLink(limits: Limits, w: World, s: Step)
    requires Linked(w) && CanStep(limits, w, s)
    ensures Linked(Next(limits, w, s))
  {
    hide Apply, Enabled, Database.RunOp, Database.Legal, ValidHistory;
    match s
    case Inner(id, a) => InnerKeepsLink(limits, w, id, a);
    case Commit(op, acts) =>
      if op.Create? {
        CreateKeepsLink(limits, w, op);
      } else {
        CommitKeepsLink(limits, w, op, acts);
      }
  }

  // ---- Reachable worlds ----

  ghost predicate Empty(w: World) {
    w.db.rows == map[] && w.db.buckets == map[] && w.rows == map[]
  }

  /** Everything the theorems about single operations and single rows assume. */
  ghost predicate Sound(limits: Limits, w: World) {
    Linked(w) && Database.UniqueActive(w.db.rows) && SerialRuns.Capped(limits, w.db)
  }

  ghost predicate Reaches(limits: Limits, ws: seq<World>, steps: seq<Step>) {
    && |ws| == |steps| + 1 && Empty(ws[0])
    && forall k | 0 <= k < |steps| ::
         Linked(ws[k]) ==> CanStep(limits, ws[k], steps[k]) && ws[k + 1] == Next(limits, ws[k], steps[k])
  }

  lemma StepKeepsSound(limits: Limits, w: World, s: Step)
    requires Sound(limits, w) && CanStep(limits, w, s)
    ensures Sound(limits, Next(limits, w, s))
  {
    hide Apply, Enabled, Matches, Linked, Database.RunOp, Database.Legal, Database.UniqueActive, SerialRuns.Capped;
    StepKeepsLink(limits, w, s);
    if s.Commit? {
      SerialRuns.OpKeepsUnique(limits, w.db, s.op);
      SerialRuns.OpKeepsCap(limits, w.db, s.op);
    }
  }

  /** Every reachable world is sound: each of its rows has a run of the row protocol behind it, at
      most one active row holds each key, and no path runs more rows than its cap. */
  lemma {:induction false} ReachableIsSound(limits: Limits, ws: seq<World>, steps: seq<Step>, k: nat)
    requires forall p | p in limits :: ValidPolicy(limits[p])
    requires Reaches(limits, ws, steps) && k <= |steps|
    ensures Sound(limits, ws[k])
  {
    hide Next, CanStep;
    if k > 0 {
      ReachableIsSound(limits, ws, steps, k - 1);
      StepKeepsSound(limits, ws[k - 1], steps[k - 1]);
    } else {
      assert forall p :: Database.RunningOf(ws[0].db.rows, p) == {};
    }
  }

  /** In every reachable world, each row has stayed within its budget of executions, and an
      at-most-once row whose requeues were quiet never has two functions executing at once. */
  lemma ReachableRowsAreSafe(limits: Limits, ws: seq<World>, steps: seq<Step>, k: nat, id: Id)
    requires forall p | p in limits :: ValidPolicy(limits[p])
    requires Reaches(limits, ws, steps) && k <= |steps| && id in ws[k].rows
    ensures Sound(limits, ws[k])
    ensures Inv(Now(ws[k].rows[id])) && Now(ws[k].rows[id]).row == ws[k].db.rows[id]
    ensures var h := ws[k].rows[id];
            Budget.Starts(Now(h).leases)
              <= Budget.Budgets(h.xs[0].row.maxRetries, Budget.Resets(h.xs, h.acts) + 1)
                 + Budget.KeepingRequeues(h.xs, h.acts)
    ensures var h := ws[k].rows[id];
            Continuations.Keeps(Overlap.SafeAndQuiet, h.xs, h.acts) && h.xs[0].row.delivery.AtMostOnce? ==>
              Overlap.NoOverlap(Now(h))
  {
    hide Apply, Enabled, Inv, Budget.Budgets, Budget.Starts, Budget.Resets, Budget.KeepingRequeues;
    ReachableIsSound(limits, ws, steps, k);
    var h := ws[k].rows[id];
    NowInv(h);
    Budget.ExecutionsAreBudgeted(h.xs, h.acts);
    if Continuations.Keeps(Overlap.SafeAndQuiet, h.xs, h.acts) && h.xs[0].row.delivery.AtMostOnce? {
      Overlap.AtMostOnceNeverOverlaps(h.xs, h.acts, |h.acts|);
    }
  }

  // ---- Rows over time ----

  /** What a worker hands back is still running. */
  lemma CommitsReleaseRunning(limits: Limits, w: World, op: Database.Op, acts: map<Id, Act>)
    requires Linked(w) && CanStep(limits, w, Commit(op, acts))
    ensures RowHistory.ReleasesRunning(w.db, op)
  {
    hide Apply, Inv, ValidHistory, Database.Legal, ResetIsSafe;
    if op.Release? {
      var x, a := Now(w.rows[op.id]), acts[op.id];
      NowInv(w.rows[op.id]);
      ReleaseActsRun(op.id, x, a, op);
    }
  }

  lemma ReleaseActsRun(id: Id, x: Cell, a: Act, op: Database.Op)
    requires Inv(x) && Enabled(x, a) && (Fencing.WritesRow(a) || a.Cancel? || a.Requeue?)
    requires op == OpOf(id, x, a) && op.Release?
    ensures RowOps.Holds(x.row, op.w, op.attempt) ==> x.row.status.Running?
  {
    if RowOps.Holds(x.row, op.w, op.attempt) {
      Fencing.HolderIsLast(x, a.i);
    }
  }

  lemma StepFollows(limits: Limits, w: World, s: Step, id: Id)
    requires Linked(w) && CanStep(limits, w, s) && id in w.rows
    ensures id in Next(limits, w, s).db.rows
    ensures RowHistory.Follows(w.db.rows[id], Next(limits, w, s).db.rows[id])
    ensures RowHistory.Accountable(w.db.rows[id]) ==> RowHistory.Accountable(Next(limits, w, s).db.rows[id])
  {
    hide Apply, Enabled, Matches, ValidHistory, Database.RunOp, Database.Legal;
    hide RowHistory.Follows, RowHistory.Accountable, RowHistory.ReleasesRunning;
    match s
    case Inner(_, _) => RowHistory.RowStaysItself(w.db.rows[id]);
    case Commit(op, acts) =>
      CommitsReleaseRunning(limits, w, op, acts);
      RowHistory.OpFollows(limits, w.db, op, id);
  }

  /** In every reachable world a row is still there at every later time, is the same task, has lost
      no error and no worker from its histories, and if it was successful has the same result. */
  lemma {:induction false} RowsOnlyFollow(limits: Limits, ws: seq<World>, steps: seq<Step>, j: nat, k: nat, id: Id)
    requires forall p | p in limits :: ValidPolicy(limits[p])
    requires Reaches(limits, ws, steps) && j <= k <= |steps| && id in ws[j].rows
    ensures Linked(ws[j]) && id in ws[j].db.rows && id in ws[k].db.rows
    ensures RowHistory.Follows(ws[j].db.rows[id], ws[k].db.rows[id])
  {
    hide Next, CanStep, RowHistory.Follows, Database.UniqueActive, SerialRuns.Capped, ValidHistory;
    ReachableIsSound(limits, ws, steps, j);
    ReachableIsSound(limits, ws, steps, k);
    if k == j {
      RowHistory.RowStaysItself(ws[j].db.rows[id]);
    } else {
      RowsOnlyFollow(limits, ws, steps, j, k - 1, id);
      ReachableIsSound(limits, ws, steps, k - 1);
      StepFollows(limits, ws[k - 1], steps[k - 1], id);
      RowHistory.FollowsIsTransitive(ws[j].db.rows[id], ws[k - 1].db.rows[id], ws[k].db.rows[id]);
    }
  }

  lemma StepKeepsAccounts(limits: Limits, w: World, s: Step)
    requires Linked(w) && CanStep(limits, w, s)
    requires forall id | id in w.db.rows :: RowHistory.Accountable(w.db.rows[id])
    ensures forall id | id in Next(limits, w, s).db.rows :: RowHistory.Accountable(Next(limits, w, s).db.rows[id])
  {
    hide Apply, Enabled, Matches, ValidHistory, Database.PolledBuckets, Database.LegalPoll, Database.Conflicts;
    hide RowHistory.Follows;
    var t := Next(limits, w, s);
    forall id | id in t.db.rows ensures RowHistory.Accountable(t.db.rows[id]) {
      if id in w.db.rows {
        StepFollows(limits, w, s, id);
      }
    }
  }

  /** In every reachable world exactly the successful rows have a return value, and every failed row
      has an error. */
  lemma {:induction false} RowsAreAccountable(limits: Limits, ws: seq<World>, steps: seq<Step>, k: nat)
    requires forall p | p in limits :: ValidPolicy(limits[p])
    requires Reaches(limits, ws, steps) && k <= |steps|
    ensures forall id | id in ws[k].db.rows :: RowHistory.Accountable(ws[k].db.rows[id])
  {
    hide Next, CanStep, RowHistory.Accountable;
    if k > 0 {
      ReachableIsSound(limits, ws, steps, k - 1);
      RowsAreAccountable(limits, ws, steps, k - 1);
      StepKeepsAccounts(limits, ws[k - 1], steps[k - 1]);
    }
  }

  lemma StepSucceeds(limits: Limits, w: World, s: Step, id: Id)
    requires Linked(w) && CanStep(limits, w, s) && id in Next(limits, w, s).db.rows
    requires Next(limits, w, s).db.rows[id].status.Successful?
    requires id in w.db.rows ==> !w.db.rows[id].status.Successful?
    ensures s.Commit? && RowHistory.Wrote(w.db, s.op, id, Next(limits, w, s).db.rows[id])
  {
    hide Apply, Enabled, Matches, ValidHistory, Database.PolledBuckets, Database.LegalPoll, Database.Conflicts;
    if s.Commit? && id in w.db.rows {
      RowHistory.OnlyOwnersSucceed(limits, w.db, s.op, id);
    }
  }

  /** In every reachable world the result of a successful row was written by one `mark_successful`,
      sent by the worker that held the claim. */
  lemma {:induction false} ResultsHaveASource(limits: Limits, ws: seq<World>, steps: seq<Step>, k: nat, id: Id)
    requires forall p | p in limits :: ValidPolicy(limits[p])
    requires Reaches(limits, ws, steps) && k <= |steps|
    requires id in ws[k].db.rows && ws[k].db.rows[id].status.Successful?
    ensures exists m | 0 <= m < k :: steps[m].Commit? && RowHistory.Wrote(ws[m].db, steps[m].op, id, ws[k].db.rows[id])
  {
    hide Next, CanStep, RowHistory.Wrote, RowHistory.SameTask, RowHistory.Extends, ValidHistory;
    if k > 0 {
      ReachableIsSound(limits, ws, steps, k - 1);
      if id in ws[k - 1].db.rows && ws[k - 1].db.rows[id].status.Successful? {
        ResultsHaveASource(limits, ws, steps, k - 1, id);
        var m :| 0 <= m < k - 1 && steps[m].Commit?
                 && RowHistory.Wrote(ws[m].db, steps[m].op, id, ws[k - 1].db.rows[id]);
        StepFollows(limits, ws[k - 1], steps[k - 1], id);
        RowHistory.SameResult(ws[m].db, steps[m].op, id, ws[k - 1].db.rows[id], ws[k].db.rows[id]);
      } else {
        StepSucceeds(limits, ws[k - 1], steps[k - 1], id);
      }
    }
  }
}
