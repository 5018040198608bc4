/** What every serial history of legal operations keeps: the unique index, the cluster-wide
    concurrency caps and the rate limits. */
module SerialRuns {
  import opened Model
  import opened RowOps
  import opened TokenBucket
  import opened Database

  // ---- The unique index ----

  lemma RowAfterKeepsKey(r: Row, op: Op)
    ensures RowAfter(r, op).uniqueKey == r.uniqueKey && RowAfter(r, op).path == r.path
  {
  }

  /** No operation on one row starts it running, and only three make a finished row active. */
  lemma RowAfterActivates(r: Row, op: Op)
    ensures RowAfter(r, op).status.Running? ==> r.status.Running?
    ensures !op.Requeue? && !op.Release? && Active(RowAfter(r, op)) ==> Active(r)
  {
  }

  lemma WrittenKeepsUnique(rows: Rows, id: Id, r: Row)
    requires UniqueActive(rows)
    requires id in rows ==> rows[id].uniqueKey == r.uniqueKey
    ensures UniqueActive(Written(rows, id, r))
  {
  }

  lemma NoneActivatedKeepsUnique(rows: Rows, after: Rows)
    requires UniqueActive(rows) && after.Keys == rows.Keys
    requires forall i | i in rows ::
      after[i].uniqueKey == rows[i].uniqueKey && (Active(after[i]) ==> Active(rows[i]))
    ensures UniqueActive(after)
  {
  }

  /** At most one row per key is READY or RUNNING after every operation, including the requeue
      and the insert that the index turns away. */
  lemma OpKeepsUnique(limits: Limits, db: Db, op: Op)
    requires UniqueActive(db.rows) && Legal(limits, db, op)
    ensures UniqueActive(RunOp(limits, db, op).rows)
  {
    match op
    case Create(id, row) => WrittenKeepsUnique(db.rows, id, row);
    case Claim(ids, polled, w, now) => NoneActivatedKeepsUnique(db.rows, ClaimedRows(db.rows, ids, w, now));
    case Reap(delays, _, now) => NoneActivatedKeepsUnique(db.rows, ReapedRows(db.rows, delays, now));
    case _ =>
      if op.id in db.rows {
        RowAfterKeepsKey(db.rows[op.id], op);
        WrittenKeepsUnique(db.rows, op.id, RowAfter(db.rows[op.id], op));
      }
  }

  // ---- The concurrency cap ----

  ghost predicate Capped(limits: Limits, db: Db) {
    forall p | p in limits && limits[p].concurrency.Some? ::
      |RunningOf(db.rows, p)| <= limits[p].concurrency.value
  }

  lemma SubsetSize<T>(a: set<T>, b: set<T>)
    requires a <= b
    ensures |a| <= |b|
  {
    assert b == a + (b - a);
  }

  /** Rows that were not running before are not running after. */
  predicate NoneStarted(before: Rows, after: Rows) {
    && after.Keys <= before.Keys
    && forall i | i in after ::
         after[i].path == before[i].path && (after[i].status.Running? ==> before[i].status.Running?)
  }

  lemma NoneStartedCount(before: Rows, after: Rows, p: Path)
    requires NoneStarted(before, after)
    ensures |RunningOf(after, p)| <= |RunningOf(before, p)|
  {
    SubsetSize(RunningOf(after, p), RunningOf(before, p));
  }

  lemma WrittenStartsNone(rows: Rows, id: Id, r: Row)
    requires id in rows && r.path == rows[id].path && (r.status.Running? ==> rows[id].status.Running?)
    ensures NoneStarted(rows, Written(rows, id, r))
  {
  }

  /** Only a claim adds running rows, and it adds at most the rows it takes. */
  lemma OpRunning(limits: Limits, db: Db, op: Op, p: Path)
    requires Legal(limits, db, op)
    ensures |RunningOf(RunOp(limits, db, op).rows, p)|
         <= |RunningOf(db.rows, p)| + (if op.Claim? then |OfPath(db.rows, op.ids, p)| else 0)
  {
    hide RowAfter, PolledBuckets, LegalPoll, Written;
    var after := RunOp(limits, db, op).rows;
    match op
    case Claim(ids, _, _, _) =>
      SubsetSize(RunningOf(after, p), RunningOf(db.rows, p) + OfPath(db.rows, ids, p));
    case Create(id, row) => CreatedRunsNot(db.rows, id, row, p);
    case Reap(_, _, _) => NoneStartedCount(db.rows, after, p);
    case _ =>
      if op.id in db.rows {
        RowAfterKeepsKey(db.rows[op.id], op);
        RowAfterActivates(db.rows[op.id], op);
        WrittenStartsNone(db.rows, op.id, RowAfter(db.rows[op.id], op));
        NoneStartedCount(db.rows, after, p);
      }
  }

  lemma CreatedRunsNot(rows: Rows, id: Id, row: Row, p: Path)
    requires !row.status.Running?
    ensures |RunningOf(Written(rows, id, row), p)| <= |RunningOf(rows, p)|
  {
    SubsetSize(RunningOf(Written(rows, id, row), p), RunningOf(rows, p));
  }

  lemma OpKeepsCap(limits: Limits, db: Db, op: Op)
    requires Capped(limits, db) && Legal(limits, db, op)
    ensures Capped(limits, RunOp(limits, db, op))
  {
    forall p | p in limits && limits[p].concurrency.Some?
      ensures |RunningOf(RunOp(limits, db, op).rows, p)| <= limits[p].concurrency.value
    {
      OpRunning(limits, db, op, p);
      if op.Claim? && p !in op.polled {
        assert OfPath(db.rows, op.ids, p) == {};
      }
    }
  }

  lemma {:induction false} HistoryKeepsUniqueAndCap(limits: Limits, db: Db, ops: seq<Op>)
    requires UniqueActive(db.rows) && Capped(limits, db) && LegalOps(limits, db, ops)
    ensures UniqueActive(RunOps(limits, db, ops).rows) && Capped(limits, RunOps(limits, db, ops))
  {
    if ops != [] {
      var front := ops[..|ops| - 1];
      HistoryKeepsUniqueAndCap(limits, db, front);
      OpKeepsUnique(limits, RunOps(limits, db, front), ops[|ops| - 1]);
      OpKeepsCap(limits, RunOps(limits, db, front), ops[|ops| - 1]);
    }
  }

  // ---- The rate bound ----

  predicate Polls(op: Op, p: Path) {
    op.Claim? && p in op.polled
  }

  /** Claims of path p minus effective releases of p, in one operation. */
  function Net(db: Db, op: Op, p: Path): int {
    match op
    case Claim(ids, polled, _, _) => |OfPath(db.rows, ids, p)|
    case Release(id, path, w, a) =>
      if path == p && id in db.rows && Holds(db.rows[id], w, a)
         && !Conflicts(db.rows, id, Released(db.rows[id], w, a)) then -1 else 0
    case _ => 0
  }

  /** Seconds by which one operation advances the clock of p's bucket. */
  function Gap(db: Db, op: Op, p: Path): real {
    if Polls(op, p) && p in db.buckets then Elapsed(db.buckets[p], op.now) else 0.0
  }

  function TotalNet(limits: Limits, db: Db, ops: seq<Op>, p: Path): int {
    if ops == [] then 0
    else TotalNet(limits, db, ops[..|ops| - 1], p)
         + Net(RunOps(limits, db, ops[..|ops| - 1]), ops[|ops| - 1], p)
  }

  function TotalGap(limits: Limits, db: Db, ops: seq<Op>, p: Path): real {
    if ops == [] then 0.0
    else TotalGap(limits, db, ops[..|ops| - 1], p)
         + Gap(RunOps(limits, db, ops[..|ops| - 1]), ops[|ops| - 1], p)
  }

  ghost predicate RateLimited(limits: Limits, p: Path) {
    p in limits && ValidPolicy(limits[p]) && limits[p].rate.Some?
  }

  /** Tokens never go negative, and a poll leaves at most the burst. */
  lemma OpTokens(limits: Limits, db: Db, op: Op, p: Path)
    requires RateLimited(limits, p) && Legal(limits, db, op)
    requires p in db.buckets ==> db.buckets[p].tokens >= 0.0
    ensures var b := RunOp(limits, db, op).buckets;
      && (p in b ==> b[p].tokens >= 0.0)
      && (p in db.buckets ==> p in b)
      && (Polls(op, p) ==> p in b && b[p].tokens + Net(db, op, p) as real <= Capacity(limits[p]))
      && (p in db.buckets ==>
            b[p].tokens <= db.buckets[p].tokens + Gap(db, op, p) * limits[p].rate.value
                           - Net(db, op, p) as real)
      && (p !in db.buckets && !Polls(op, p) ==> p !in b)
  {
    match op
    case Claim(ids, polled, w, now) =>
      var n := |OfPath(db.rows, ids, p)|;
      if p in polled {
        var b := BucketOf(db.buckets, p, limits[p], now);
        PollStaysInRange(b, limits[p], now, |RunningOf(db.rows, p)|, n, n);
      } else {
        assert OfPath(db.rows, ids, p) == {};
      }
    case _ =>
  }

  lemma {:induction false} TokensStayInRange(limits: Limits, db: Db, ops: seq<Op>, p: Path)
    requires RateLimited(limits, p) && LegalOps(limits, db, ops)
    requires p in db.buckets ==> db.buckets[p].tokens >= 0.0
    ensures var b := RunOps(limits, db, ops).buckets;
      && (p in b ==> b[p].tokens >= 0.0)
      && (ops != [] && Polls(ops[|ops| - 1], p) ==> p in b && b[p].tokens <= Capacity(limits[p]))
  {
    if ops != [] {
      var front := ops[..|ops| - 1];
      TokensStayInRange(limits, db, front, p);
      OpTokens(limits, RunOps(limits, db, front), ops[|ops| - 1], p);
    }
  }

  /** Tokens added by the clock moving forward, before the cap at the burst. */
  function TotalRefill(limits: Limits, db: Db, ops: seq<Op>, p: Path): real
    requires p in limits && limits[p].rate.Some?
  {
    if ops == [] then 0.0
    else TotalRefill(limits, db, ops[..|ops| - 1], p)
         + Gap(RunOps(limits, db, ops[..|ops| - 1]), ops[|ops| - 1], p) * limits[p].rate.value
  }

  lemma Distribute(rate: real, a: real, b: real)
    ensures rate * (a + b) == rate * a + b * rate
  {
  }

  lemma {:induction false} RefillIsRateTimesGap(limits: Limits, db: Db, ops: seq<Op>, p: Path)
    requires p in limits && limits[p].rate.Some?
    ensures TotalRefill(limits, db, ops, p) == limits[p].rate.value * TotalGap(limits, db, ops, p)
  {
    hide RunOp, RunOps, Gap;
    if ops != [] {
      var front := ops[..|ops| - 1];
      RefillIsRateTimesGap(limits, db, front, p);
      Distribute(limits[p].rate.value, TotalGap(limits, db, front, p),
                 Gap(RunOps(limits, db, front), ops[|ops| - 1], p));
    }
  }

  lemma {:induction false} TokensAgainstNet(limits: Limits, db: Db, ops: seq<Op>, p: Path)
    requires RateLimited(limits, p) && LegalOps(limits, db, ops)
    requires p in db.buckets && db.buckets[p].tokens >= 0.0
    ensures var b := RunOps(limits, db, ops).buckets;
      && p in b && b[p].tokens >= 0.0
      && b[p].tokens <= db.buckets[p].tokens + TotalRefill(limits, db, ops, p)
                        - TotalNet(limits, db, ops, p) as real
  {
    hide RunOp, Net, Gap, Legal;
    if ops != [] {
      var front, last := ops[..|ops| - 1], ops[|ops| - 1];
      TokensAgainstNet(limits, db, front, p);
      OpTokens(limits, RunOps(limits, db, front), last, p);
    }
  }

  /** The rate bound, over any window of a history that begins at a poll: claims minus releases
      are at most the burst plus the rate times the time the bucket's clock moved forward. */
  lemma RateBound(limits: Limits, db: Db, first: Op, rest: seq<Op>, p: Path)
    requires RateLimited(limits, p)
    requires p in db.buckets ==> db.buckets[p].tokens >= 0.0
    requires Polls(first, p) && Legal(limits, db, first)
    requires LegalOps(limits, RunOp(limits, db, first), rest)
    ensures var next := RunOp(limits, db, first);
      (Net(db, first, p) + TotalNet(limits, next, rest, p)) as real
        <= Capacity(limits[p]) + limits[p].rate.value * TotalGap(limits, next, rest, p)
  {
    hide RunOp, RunOps, Legal, LegalOps, TotalGap, TotalNet, TotalRefill, Net;
    OpTokens(limits, db, first, p);
    var next := RunOp(limits, db, first);
    TokensAgainstNet(limits, next, rest, p);
    RefillIsRateTimesGap(limits, next, rest, p);
  }

  /** The polls of p read a clock that never goes back, starting from `start`. */
  predicate PollsInOrder(ops: seq<Op>, p: Path, start: int) {
    forall i, j | 0 <= i <= j < |ops| && Polls(ops[i], p) && Polls(ops[j], p) ::
      start <= ops[i].now <= ops[j].now
  }

  function LastPoll(ops: seq<Op>, p: Path, start: int): int {
    if ops == [] then start
    else if Polls(ops[|ops| - 1], p) then ops[|ops| - 1].now
    else LastPoll(ops[..|ops| - 1], p, start)
  }

  lemma {:induction false} GapsTelescope(limits: Limits, db: Db, ops: seq<Op>, p: Path, start: int)
    requires p in limits && limits[p].rate.Some?
    requires p in db.buckets && db.buckets[p].updatedAt == start
    requires PollsInOrder(ops, p, start)
    ensures var b := RunOps(limits, db, ops).buckets;
      && p in b && b[p].updatedAt == LastPoll(ops, p, start) >= start
      && TotalGap(limits, db, ops, p) == (LastPoll(ops, p, start) - start) as real / 1000000.0
      && (LastPoll(ops, p, start) != start ==>
            exists i :: 0 <= i < |ops| && Polls(ops[i], p) && ops[i].now == LastPoll(ops, p, start))
  {
    hide Legal, Net;
    if ops != [] {
      var front, last := ops[..|ops| - 1], ops[|ops| - 1];
      assert forall i | 0 <= i < |front| :: front[i] == ops[i];
      GapsTelescope(limits, db, front, p, start);
      if Polls(last, p) {
        assert LastPoll(front, p, start) <= last.now;
      }
    }
  }

  /** With a clock that never goes back, the time in the bound is the plain elapsed time. */
  lemma RateBoundElapsed(limits: Limits, db: Db, first: Op, rest: seq<Op>, p: Path)
    requires RateLimited(limits, p)
    requires p in db.buckets ==> db.buckets[p].tokens >= 0.0
    requires Polls(first, p) && Legal(limits, db, first)
    requires LegalOps(limits, RunOp(limits, db, first), rest)
    requires PollsInOrder(rest, p, first.now)
    ensures (Net(db, first, p) + TotalNet(limits, RunOp(limits, db, first), rest, p)) as real
         <= Capacity(limits[p])
            + limits[p].rate.value * ((LastPoll(rest, p, first.now) - first.now) as real / 1000000.0)
  {
    hide RunOps, LegalOps, TotalGap, TotalNet, Net;
    RateBound(limits, db, first, rest, p);
    GapsTelescope(limits, RunOp(limits, db, first), rest, p, first.now);
  }

  // ---- The wait hint over whole histories ----

  /** No operation takes a row of p or refunds its bucket. */
  predicate TakesNothing(limits: Limits, db: Db, ops: seq<Op>, p: Path) {
    forall k | 0 <= k < |ops| :: Net(RunOps(limits, db, ops[..k]), ops[k], p) == 0
  }

  lemma TakingNothingKeepsOpening(limits: Limits, db: Db, op: Op, p: Path, later: int, k: nat)
    requires RateLimited(limits, p) && k as real <= Capacity(limits[p]) && p in db.buckets && Net(db, op, p) == 0
    requires Polls(op, p) ==> db.buckets[p].updatedAt <= op.now <= later
    ensures var b := RunOp(limits, db, op).buckets;
            && p in b
            && b[p].updatedAt == (if Polls(op, p) then op.now else db.buckets[p].updatedAt)
            && (Opens(b[p], limits[p], later, k) <==> Opens(db.buckets[p], limits[p], later, k))
  {
    hide Opens, Polled, Conflicts;
    if Polls(op, p) {
      EmptyPollKeepsOpening(db.buckets[p], limits[p], op.now, later, k);
    }
  }

  /** However many workers poll in the meantime, and whatever else is committed: while nothing of the
      path is taken or given back, it opens for k rows when its bucket said it would. With
      `HintIsExact` this makes the hint exact over every history. */
  lemma {:induction false} OpeningIsKept(limits: Limits, db: Db, ops: seq<Op>, p: Path, later: int, k: nat)
    requires RateLimited(limits, p) && k as real <= Capacity(limits[p]) && p in db.buckets
    requires TakesNothing(limits, db, ops, p) && PollsInOrder(ops, p, db.buckets[p].updatedAt)
    requires forall i | 0 <= i < |ops| && Polls(ops[i], p) :: ops[i].now <= later
    ensures var b := RunOps(limits, db, ops).buckets;
            && p in b && b[p].updatedAt == LastPoll(ops, p, db.buckets[p].updatedAt)
            && (Opens(b[p], limits[p], later, k) <==> Opens(db.buckets[p], limits[p], later, k))
  {
    hide RunOp, Net, Opens, Capacity;
    if ops != [] {
      var front, last := ops[..|ops| - 1], ops[|ops| - 1];
      assert forall i | 0 <= i < |front| :: front[i] == ops[i] && front[..i] == ops[..i];
      OpeningIsKept(limits, db, front, p, later, k);
      LastPollIsBefore(ops, p, db.buckets[p].updatedAt);
      assert Net(RunOps(limits, db, ops[..|ops| - 1]), last, p) == 0;
      TakingNothingKeepsOpening(limits, RunOps(limits, db, front), last, p, later, k);
    }
  }

  /** So from the bucket as it is now follows for every later poll how many rows it may take: k of
      them, k at least one, if and only if the burst holds k, the time from the last poll before the
      history on makes up for them at the rate, and the concurrency leaves as many slots. */
  lemma ClaimableOverHistory(limits: Limits, db: Db, ops: seq<Op>, p: Path, later: int, running: int, limit: int,
                             k: nat)
    requires RateLimited(limits, p) && p in db.buckets && k >= 1
    requires TakesNothing(limits, db, ops, p) && PollsInOrder(ops, p, db.buckets[p].updatedAt)
    requires forall i | 0 <= i < |ops| && Polls(ops[i], p) :: ops[i].now <= later
    ensures var b' := RunOps(limits, db, ops).buckets;
            && p in b'
            && (Allowance(b'[p], limits[p], later, running, limit) >= k
                <==> AllowsFrom(db.buckets[p], limits[p], later, running, limit, k))
  {
    hide RunOps, Allowance, AllowsFrom, Opens, TakesNothing, PollsInOrder, LastPoll;
    BucketStays(limits, db, ops, p);
    if k as real <= Capacity(limits[p]) {
      OpeningIsKept(limits, db, ops, p, later, k);
    }
    AllowanceFrom(db.buckets[p], RunOps(limits, db, ops).buckets[p], limits[p], later, running, limit, k);
  }

  lemma {:induction false} BucketStays(limits: Limits, db: Db, ops: seq<Op>, p: Path)
    requires p in db.buckets
    ensures p in RunOps(limits, db, ops).buckets
  {
    hide Polled, Conflicts;
    if ops != [] {
      BucketStays(limits, db, ops[..|ops| - 1], p);
    }
  }

  lemma LastPollIsBefore(ops: seq<Op>, p: Path, start: int)
    requires ops != [] && PollsInOrder(ops, p, start)
    ensures Polls(ops[|ops| - 1], p) ==> LastPoll(ops[..|ops| - 1], p, start) <= ops[|ops| - 1].now
  {
    var front, last := ops[..|ops| - 1], ops[|ops| - 1];
    if front != [] && Polls(last, p) {
      LastPollIsBounded(front, p, start, last.now);
    }
  }

  lemma {:induction false} LastPollIsBounded(ops: seq<Op>, p: Path, start: int, end: int)
    requires start <= end && forall i | 0 <= i < |ops| && Polls(ops[i], p) :: ops[i].now <= end
    ensures LastPoll(ops, p, start) <= end
  {
    if ops != [] {
      LastPollIsBounded(ops[..|ops| - 1], p, start, end);
    }
  }
}
