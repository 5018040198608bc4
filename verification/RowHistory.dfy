/** What a row keeps, gains and owes over a serial history of legal operations. */
module RowHistory {
  import opened Model
  import opened RowOps
  import opened Database

  /** The columns that only `create` writes. */
  predicate SameTask(a: Row, b: Row) {
    && a.path == b.path && a.queue == b.queue && a.priority == b.priority && a.maxRetries == b.maxRetries
    && a.delivery == b.delivery && a.uniqueKey == b.uniqueKey
  }

  predicate Extends(a: seq<string>, b: seq<string>) {
    |a| <= |b| && b[..|a|] == a
  }

  /** `b` is a later state of the row `a`: the same task, its error and worker histories only
      extended, and a success left alone. */
  predicate Follows(a: Row, b: Row) {
    && SameTask(a, b) && Extends(a.errors, b.errors) && Extends(a.workerIds, b.workerIds)
    && (a.status.Successful? ==>
          b.status.Successful? && b.returnValue == a.returnValue && b.finishedAt == a.finishedAt)
  }

  /** A return value is there for successful rows only, and each row that finished badly says why. */
  predicate Accountable(r: Row) {
    && (r.returnValue.Some? <==> r.status.Successful?)
    && (r.status.Failed? ==> r.errors != [])
  }

  /** Both hold at a release too: what a worker gives back is still running. */
  predicate ReleasesRunning(db: Db, op: Op) {
    op.Release? && op.id in db.rows && Holds(db.rows[op.id], op.w, op.attempt) ==> db.rows[op.id].status.Running?
  }

  predicate AllReleaseRunning(limits: Limits, db: Db, ops: seq<Op>) {
    forall k | 0 <= k < |ops| :: ReleasesRunning(RunOps(limits, db, ops[..k]), ops[k])
  }

  lemma RowAfterFollows(r: Row, op: Op)
    requires op.Release? && Holds(r, op.w, op.attempt) ==> r.status.Running?
    ensures Follows(r, RowAfter(r, op))
    ensures Accountable(r) ==> Accountable(RowAfter(r, op))
  {
  }

  lemma OpFollows(limits: Limits, db: Db, op: Op, id: Id)
    requires id in db.rows && Legal(limits, db, op) && ReleasesRunning(db, op)
    ensures var t := RunOp(limits, db, op);
            && id in t.rows && Follows(db.rows[id], t.rows[id])
            && (Accountable(db.rows[id]) ==> Accountable(t.rows[id]))
  {
    hide RowAfter, PolledBuckets, LegalPoll, Conflicts, Follows, Accountable, Claimed, Reaped, Stale;
    RowStaysItself(db.rows[id]);
    match op
    case Create(_, _) =>
    case Claim(ids, _, w, now) =>
      if id in ids { ClaimFollows(db.rows[id], w, now); }
    case Reap(delays, staleBefore, now) =>
      if id in delays { ReapFollows(db.rows[id], staleBefore, now, delays[id]); }
    case _ =>
      if op.id == id { RowAfterFollows(db.rows[id], op); }
  }

  lemma RowStaysItself(r: Row)
    ensures Follows(r, r)
  {
  }

  lemma ClaimFollows(r: Row, w: string, now: int)
    requires r.status.Ready?
    ensures Follows(r, Claimed(r, w, now)) && (Accountable(r) ==> Accountable(Claimed(r, w, now)))
  {
  }

  lemma ReapFollows(r: Row, staleBefore: int, now: int, delay: int)
    requires Stale(r, staleBefore)
    ensures Follows(r, Reaped(r, now, delay)) && (Accountable(r) ==> Accountable(Reaped(r, now, delay)))
  {
  }

  lemma FollowsIsTransitive(a: Row, b: Row, c: Row)
    requires Follows(a, b) && Follows(b, c)
    ensures Follows(a, c)
  {
    assert c.errors[..|a.errors|] == b.errors[..|a.errors|];
    assert c.workerIds[..|a.workerIds|] == b.workerIds[..|a.workerIds|];
  }

  lemma Earlier(limits: Limits, db: Db, ops: seq<Op>)
    requires ops != [] && AllReleaseRunning(limits, db, ops)
    ensures AllReleaseRunning(limits, db, ops[..|ops| - 1])
    ensures ReleasesRunning(RunOps(limits, db, ops[..|ops| - 1]), ops[|ops| - 1])
  {
    hide ReleasesRunning, RunOps;
    var front := ops[..|ops| - 1];
    forall k | 0 <= k < |front| ensures ReleasesRunning(RunOps(limits, db, front[..k]), front[k]) {
      assert front[..k] == ops[..k] && front[k] == ops[k];
    }
  }

  /** Over every history a row stays, stays the same task, forgets no error and no worker, and once
      successful keeps its result. */
  lemma {:induction false} HistoryFollows(limits: Limits, db: Db, ops: seq<Op>, id: Id)
    requires id in db.rows && LegalOps(limits, db, ops) && AllReleaseRunning(limits, db, ops)
    ensures var t := RunOps(limits, db, ops);
            && id in t.rows && Follows(db.rows[id], t.rows[id])
            && (Accountable(db.rows[id]) ==> Accountable(t.rows[id]))
  {
    hide Legal, RunOp, Follows, Accountable, ReleasesRunning, AllReleaseRunning;
    if ops == [] {
      RowStaysItself(db.rows[id]);
    } else {
      var front := ops[..|ops| - 1];
      var before := RunOps(limits, db, front);
      Earlier(limits, db, ops);
      HistoryFollows(limits, db, front, id);
      OpFollows(limits, before, ops[|ops| - 1], id);
      FollowsIsTransitive(db.rows[id], before.rows[id], RunOps(limits, db, ops).rows[id]);
    }
  }

  // ---- Where a result comes from ----

  /** The `mark_successful` that wrote this result, by the worker that held the claim. */
  predicate Wrote(before: Db, op: Op, id: Id, r: Row) {
    && op.MarkSuccessful? && op.id == id && id in before.rows && Owns(before.rows[id], op.w, op.attempt)
    && r.returnValue == Some(op.value) && r.finishedAt == Some(op.now)
  }

  lemma OnlyOwnersSucceed(limits: Limits, db: Db, op: Op, id: Id)
    requires id in db.rows && Legal(limits, db, op) && !db.rows[id].status.Successful?
    ensures id in RunOp(limits, db, op).rows
    ensures var r := RunOp(limits, db, op).rows[id]; r.status.Successful? ==> Wrote(db, op, id, r)
  {
    hide PolledBuckets, LegalPoll, Conflicts;
  }

  /** Every result has one source: the worker holding the claim at that time. */
  lemma {:induction false} SuccessHasASource(limits: Limits, db: Db, ops: seq<Op>, id: Id)
    requires id in db.rows && LegalOps(limits, db, ops) && AllReleaseRunning(limits, db, ops)
    requires !db.rows[id].status.Successful?
    ensures id in RunOps(limits, db, ops).rows
    ensures var r := RunOps(limits, db, ops).rows[id];
            r.status.Successful? ==>
              exists k | 0 <= k < |ops| :: Wrote(RunOps(limits, db, ops[..k]), ops[k], id, r)
  {
    hide Legal, RunOp, ReleasesRunning, AllReleaseRunning, Accountable, SameTask, Extends, Wrote;
    if ops != [] {
      var last := |ops| - 1;
      var before, after := RunOps(limits, db, ops[..last]), RunOps(limits, db, ops);
      Earlier(limits, db, ops);
      SuccessHasASource(limits, db, ops[..last], id);
      OpFollows(limits, before, ops[last], id);
      if after.rows[id].status.Successful? {
        if before.rows[id].status.Successful? {
          var k :| 0 <= k < last && Wrote(RunOps(limits, db, ops[..last][..k]), ops[..last][k], id, before.rows[id]);
          assert ops[..last][..k] == ops[..k] && ops[..last][k] == ops[k];
          SameResult(RunOps(limits, db, ops[..k]), ops[k], id, before.rows[id], after.rows[id]);
        } else {
          OnlyOwnersSucceed(limits, before, ops[last], id);
        }
      }
    }
  }

  lemma SameResult(before: Db, op: Op, id: Id, r: Row, r': Row)
    requires Wrote(before, op, id, r) && r'.returnValue == r.returnValue && r'.finishedAt == r.finishedAt
    ensures Wrote(before, op, id, r')
  {
  }

  // ---- Backing off ----

  /** The operations that set when a row may run. */
  predicate Reschedules(op: Op, id: Id) {
    || (op.Nack? && op.id == id) || (op.Requeue? && op.id == id) || (op.Reap? && id in op.delays)
  }

  lemma OpKeepsRunAfter(limits: Limits, db: Db, op: Op, id: Id)
    requires id in db.rows && Legal(limits, db, op) && !Reschedules(op, id)
    ensures var t := RunOp(limits, db, op); id in t.rows && t.rows[id].runAfter == db.rows[id].runAfter
  {
    hide PolledBuckets, LegalPoll, Conflicts;
  }

  /** Until it is rescheduled, a row is claimed by no clock that reads earlier than the time it was
      to wait for, however often it is claimed and given back. */
  lemma {:induction false} NeverClaimedEarly(limits: Limits, db: Db, ops: seq<Op>, id: Id)
    requires id in db.rows && LegalOps(limits, db, ops)
    requires forall k | 0 <= k < |ops| :: !Reschedules(ops[k], id)
    ensures id in RunOps(limits, db, ops).rows && RunOps(limits, db, ops).rows[id].runAfter == db.rows[id].runAfter
    ensures forall k | 0 <= k < |ops| && ops[k].Claim? && id in ops[k].ids :: db.rows[id].runAfter <= ops[k].now
  {
    hide RunOp, LegalPoll;
    if ops != [] {
      var last := |ops| - 1;
      NeverClaimedEarly(limits, db, ops[..last], id);
      OpKeepsRunAfter(limits, RunOps(limits, db, ops[..last]), ops[last], id);
      forall k | 0 <= k < |ops| && ops[k].Claim? && id in ops[k].ids ensures db.rows[id].runAfter <= ops[k].now {
        if k < last { assert ops[..last][k] == ops[k]; }
      }
    }
  }

  /** A retry waits for its time: what `nack` asks for, and the delay the reaper adds to its own
      clock. */
  lemma RetriesWait(limits: Limits, db: Db, first: Op, ops: seq<Op>, id: Id, k: nat)
    requires id in db.rows && LegalOps(limits, RunOp(limits, db, first), ops) && Legal(limits, db, first)
    requires forall j | 0 <= j < |ops| :: !Reschedules(ops[j], id)
    requires k < |ops| && ops[k].Claim? && id in ops[k].ids
    ensures first.Nack? && first.id == id && Owns(db.rows[id], first.w, first.attempt) ==>
              ops[k].now >= first.retryAfter
    ensures first.Reap? && id in first.delays && ReapRetries(db.rows[id]) ==>
              ops[k].now >= first.now + first.delays[id]
  {
    hide LegalPoll, PolledBuckets;
    var t := RunOp(limits, db, first);
    assert id in t.rows;
    NeverClaimedEarly(limits, t, ops, id);
  }

  /** And no longer than that: from its time on, and not before, a claim of the row is legal. */
  lemma RetriesAreDueOnTime(limits: Limits, db: Db, first: Op, id: Id, w: string, t: int)
    requires id in db.rows && Legal(limits, db, first) && db.rows[id].path !in limits && w != ""
    ensures var claim := Legal(limits, RunOp(limits, db, first), Op.Claim({id}, {}, w, t));
            && (first.Nack? && first.id == id && Owns(db.rows[id], first.w, first.attempt) ==>
                  (claim <==> t >= first.retryAfter))
            && (first.Reap? && id in first.delays ==>
                  (claim <==> db.rows[id].delivery == AtLeastOnce && db.rows[id].attempts <= db.rows[id].maxRetries
                              && t >= first.now + first.delays[id]))
  {
  }

  // ---- Cancelling ----

  /** A cancel request stays on the row until it is requeued. */
  lemma {:induction false} CancelRequestStays(limits: Limits, db: Db, ops: seq<Op>, id: Id)
    requires id in db.rows && LegalOps(limits, db, ops) && db.rows[id].cancelRequestedAt.Some?
    requires forall k | 0 <= k < |ops| :: !(ops[k].Requeue? && ops[k].id == id)
    ensures var t := RunOps(limits, db, ops);
            id in t.rows && t.rows[id].cancelRequestedAt == db.rows[id].cancelRequestedAt
  {
    hide RunOp, Legal;
    if ops != [] {
      CancelRequestStays(limits, db, ops[..|ops| - 1], id);
      OneOpKeepsRequest(limits, RunOps(limits, db, ops[..|ops| - 1]), ops[|ops| - 1], id);
    }
  }

  lemma OneOpKeepsRequest(limits: Limits, db: Db, op: Op, id: Id)
    requires id in db.rows && Legal(limits, db, op) && db.rows[id].cancelRequestedAt.Some?
    requires !(op.Requeue? && op.id == id)
    ensures id in RunOp(limits, db, op).rows
    ensures RunOp(limits, db, op).rows[id].cancelRequestedAt == db.rows[id].cancelRequestedAt
  {
    hide PolledBuckets, LegalPoll, Conflicts;
  }
}
