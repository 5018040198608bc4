/** The broker, the result store and the cancel/requeue API over their shared table. Each method
    is one transaction; it leaves the database exactly as the atomic operation does. */
module TaskStore {
  import opened Model
  import opened RowOps
  import opened TokenBucket
  import opened Database
  import opened Ranking
  import opened ClaimSpec
  import opened ClaimLoop
  import opened ClaimColumns

  /** What `cancel` and `requeue` tell their caller. */
  datatype Answer = Unknown | Answered(done: bool)

  datatype ReclaimedItem = ReclaimedItem(id: Id, failed: bool)

  function ItemOf(id: Id, r: Row): ClaimedItem {
    ClaimedItem(id, r.queue, r.path, r.attempts, r.maxRetries)
  }

  /** Another row holds the key of this one. */
  ghost predicate OtherActive(rows: Rows, id: Id)
    requires id in rows
  {
    rows[id].uniqueKey.Some? && exists j | j in rows && j != id ::
      rows[j].uniqueKey == rows[id].uniqueKey && (rows[j].status == Ready || rows[j].status == Running)
  }

  class TaskStore {
    var rows: Rows
    var buckets: map<Path, Bucket>

    ghost function Contents(): Db
      reads this
    {
      Db(rows, buckets)
    }

    constructor ()
      ensures rows == map[] && buckets == map[]
    {
      rows, buckets := map[], map[];
    }

    // ---- Claiming ----

    /** Picks due rows of one limited path, within its limits, and updates its bucket. */
    method ClaimLimited(limits: Limits, req: Request, path: Path, limit: nat, locked: bool)
      returns (ids: set<Id>, wait: Option<real>)
      requires path in limits && (locked ==> path in buckets)
      modifies this`buckets
      ensures VisitedFrom(limits, rows, old(buckets), req, path, limit, locked, ids, wait, buckets)
      ensures ValidPolicy(limits[path]) ==>
                VisitInColumns(limits, rows, old(buckets), req, path, limit, locked, ids, wait, buckets)
    {
      hide Elapsed, MinReal, WaitHint, RunningOf, RankOf, Due, VisitInColumns;
      var policy, now, due := limits[path], req.now, DueOf(rows, req, path);
      var capacity := Capacity(policy);
      if path !in buckets {
        buckets := buckets[path := Bucket(capacity, now)];
      }
      if locked {
        LockedVisit(limits, rows, buckets, req, path, limit);
        return {}, None;
      }
      var bucket := buckets[path];
      var allowed := limit;
      if policy.rate.Some? {
        bucket := Refilled(bucket, policy, now);
        allowed := Min(allowed, bucket.tokens.Floor);
      }
      if policy.concurrency.Some? {
        allowed := Min(allowed, policy.concurrency.value - |RunningOf(rows, path)|);
      }
      ids := {};
      if allowed > 0 {
        ids := PickFirst(Ranks(rows), due, allowed);
      }
      if policy.rate.Some? {
        bucket := bucket.(tokens := bucket.tokens - |ids| as real);
        buckets := buckets[path := bucket];
      }
      // Held back perhaps: come back when a token is due, or soon, for a free slot.
      wait := WaitHint(bucket, policy, allowed, limit);
      if ValidPolicy(policy) {
        VisitedInColumns(limits, rows, old(buckets), req, path, limit, locked, ids, wait, buckets);
      }
    }

    /** The loop over limited paths with due work. */
    method ClaimLimitedPaths(limits: Limits, req: Request, order: seq<Path>)
      returns (ids: set<Id>, hint: Option<real>, ghost polled: set<Path>)
      requires Ordered(limits, order)
      modifies this`buckets
      ensures Progress(limits, old(Contents()), req, order, |order|, ids, hint, polled, buckets)
    {
      hide Progress, Share, WaitOf, Allowance, FirstK, PolledBuckets, PolledPaths, WaitHint;
      ghost var db := Contents();
      ids, hint, polled := {}, None, {};
      var i := 0;
      NoProgress(limits, db, req, order);
      while i < |order| && |ids| < req.limit
        invariant 0 <= i <= |order|
        invariant Progress(limits, db, req, order, i, ids, hint, polled, buckets)
      {
        i, ids, hint, polled := ClaimOnePath(limits, req, order, i, ids, hint, db, polled);
      }
      if i < |order| {
        RoomUsedUp(limits, db, req, order, i, ids, hint, polled, buckets);
        NothingLeft(limits, db, req, order, i, |order|, ids, hint, polled, buckets);
      }
    }

    method ClaimOnePath(limits: Limits, req: Request, order: seq<Path>, i: nat, ids: set<Id>, hint: Option<real>,
                        ghost db: Db, ghost polled: set<Path>)
      returns (i': nat, ids': set<Id>, hint': Option<real>, ghost polled': set<Path>)
      requires Ordered(limits, order) && i < |order| && |ids| < req.limit && rows == db.rows
      requires Progress(limits, db, req, order, i, ids, hint, polled, buckets)
      modifies this`buckets
      ensures i' == i + 1 && Progress(limits, db, req, order, i', ids', hint', polled', buckets)
    {
      hide VisitedFrom, Visited, BucketsAfter, PolledPaths, PolledBuckets, Due;
      var path := order[i];
      var room := req.limit - |ids|;
      var skipped := path in req.lockedBuckets && path in buckets;
      AdvancePolled(limits, db, req, order, i);
      var part, wait := ClaimLimited(limits, req, path, room, skipped);
      VisitOfUntouched(limits, db, req, ids, polled, path, room, part, wait, buckets);
      Advance(limits, db, req, order, i, ids, hint, polled, old(buckets), part, wait);
      hint' := hint;
      if wait.Some? {
        hint' := if hint.None? || hint.value == 0.0 then wait else Some(MinReal(wait.value, hint.value));
      }
      ids' := ids + part;
      polled' := if skipped then polled else polled + {path};
      i' := i + 1;
    }

    /** Claims up to `limit` due rows: limited paths first, then the rest by priority. */
    method Claim(limits: Limits, req: Request)
      returns (batch: seq<ClaimedItem>, hint: Option<real>,
               ghost ids: set<Id>, ghost polled: set<Path>, ghost order: seq<Path>)
      requires req.w != ""
      modifies this
      ensures Selected(limits, old(Contents()), req, order, ids)
      ensures hint == Hint(limits, old(Contents()), req, order, |order|)
      ensures polled == PolledPaths(limits, old(Contents()), req, order, |order|)
      ensures var op := Op.Claim(ids, polled, req.w, req.now);
        Legal(limits, old(Contents()), op) && Contents() == RunOp(limits, old(Contents()), op)
      ensures TakesTheFirst(limits, old(rows), req, ids) && PathsInOrder(limits, old(rows), req, order)
      ensures YieldsAllItCan(limits, old(Contents()), req, order, ids)
      ensures ids <= old(rows).Keys == rows.Keys
      ensures forall i | i in old(rows) ::
                var r := old(rows)[i];
                rows[i] == if i !in ids then r
                           else r.(status := Running, claimedBy := req.w, claimedAt := Some(req.now),
                                   lastHeartbeatAt := Some(req.now), lastAttemptedAt := Some(req.now),
                                   startedAt := if r.startedAt.Some? then r.startedAt else Some(req.now),
                                   attempts := r.attempts + 1)
      ensures |batch| == |ids| && forall i | i in ids ::
                var r := old(rows)[i];
                ClaimedItem(i, r.queue, r.path, r.attempts + 1, r.maxRetries) in batch
    {
      hide Due, Hint, FirstK, PolledPaths, Selected, Legal, RunOp, ClaimedRows, WaitingPaths, Unlimited, RowsSoFar;
      var waiting := Sorted(WaitingPaths(limits, rows, req));
      order := waiting;
      WaitingAreLimited(limits, rows, req);
      var chosen: set<Id>;
      chosen, hint, polled := ClaimLimitedPaths(limits, req, waiting);
      var rest := PickRest(limits, req, chosen);
      ClaimIsDone(limits, old(Contents()), req, order, chosen, hint, polled, buckets, rest);
      chosen := chosen + rest;
      ids := chosen;
      SelectedInColumns(limits, old(Contents()), req, order, ids);
      ClaimedInColumns(rows, ids, req.w, req.now);
      hide TakesTheFirst, PathsInOrder, YieldsAllItCan, ItemOf;
      if chosen == {} {
        NoneClaimed(rows, req.w, req.now);
        return [], hint, ids, polled, order;
      }
      rows := ClaimedRows(rows, chosen, req.w, req.now);
      ClaimedKeys(old(rows), chosen, req.w, req.now);
      batch := ItemsOf(rows, chosen);
    }

    /** The remaining capacity goes to all other tasks. */
    method PickRest(limits: Limits, req: Request, chosen: set<Id>) returns (rest: set<Id>)
      ensures FirstK(Ranks(rows), Unlimited(limits, rows, DueRows(rows, req)),
                     if |chosen| < req.limit then req.limit - |chosen| else 0, rest)
    {
      rest := {};
      if |chosen| < req.limit {
        rest := PickFirst(Ranks(rows), Unlimited(limits, rows, DueRows(rows, req)), req.limit - |chosen|);
      }
    }

    // ---- Finishing and giving back ----

    method Ack(id: Id, w: string, attempt: int)
      modifies this`rows
      ensures Contents() == RunOp(map[], old(Contents()), Op.Ack(id, w, attempt))
      ensures var rs := old(rows);
              rows == if id in rs && rs[id].claimedBy == w && rs[id].attempts == attempt
                      then rs[id := rs[id].(claimedBy := "", claimedAt := None, lastHeartbeatAt := None)]
                      else rs
    {
      if id in rows && rows[id].claimedBy == w && rows[id].attempts == attempt {
        rows := rows[id := rows[id].(claimedBy := "", claimedAt := None, lastHeartbeatAt := None)];
      }
    }

    /** Undoes a claim. `raised` is the index refusing to make a finished row active again. */
    method Release(item: ClaimedItem, w: string) returns (released: bool, raised: bool)
      modifies this
      ensures Contents() == RunOp(map[], old(Contents()), Op.Release(item.id, item.path, w, item.attempt))
      ensures released || raised <==>
                var rs := old(rows);
                item.id in rs && rs[item.id].claimedBy == w && rs[item.id].attempts == item.attempt
      ensures !released ==> Contents() == old(Contents())
      ensures released ==>
                var r := old(rows)[item.id];
                && rows == old(rows)[item.id := r.(
                     status := Ready, attempts := r.attempts - 1,
                     startedAt := if r.attempts == 1 then None else r.startedAt,
                     lastAttemptedAt := if r.attempts == 1 then None else r.lastAttemptedAt,
                     claimedBy := "", claimedAt := None, lastHeartbeatAt := None)]
                && buckets == if item.path !in old(buckets) then old(buckets)
                              else var b := old(buckets)[item.path];
                                   old(buckets)[item.path := Bucket(b.tokens + 1.0, b.updatedAt)]
      ensures raised ==> !released && !Active(old(rows)[item.id]) && OtherActive(old(rows), item.id)
      ensures released ==> Active(old(rows)[item.id]) || !OtherActive(old(rows), item.id)
    {
      released, raised := false, false;
      if item.id !in rows || rows[item.id].claimedBy != w || rows[item.id].attempts != item.attempt {
        return;
      }
      var row := rows[item.id];
      var firstAttempt := row.attempts == 1;
      var given := row.(
        status := Ready,
        attempts := row.attempts - 1,
        startedAt := if firstAttempt then None else row.startedAt,
        lastAttemptedAt := if firstAttempt then None else row.lastAttemptedAt,
        claimedBy := "", claimedAt := None, lastHeartbeatAt := None);
      if Conflicts(rows, item.id, given) {
        return false, true;
      }
      rows := rows[item.id := given];
      if item.path in buckets {
        buckets := buckets[item.path := buckets[item.path].(tokens := buckets[item.path].tokens + 1.0)];
      }
      released := true;
    }

    method Nack(id: Id, w: string, attempt: int, retryAfter: int)
      modifies this`rows
      ensures Contents() == RunOp(map[], old(Contents()), Op.Nack(id, w, attempt, retryAfter))
      ensures var rs := old(rows);
              rows == if id in rs && rs[id].status == Running && rs[id].claimedBy == w && rs[id].attempts == attempt
                      then rs[id := rs[id].(status := Ready, runAfter := retryAfter,
                                            claimedBy := "", claimedAt := None, lastHeartbeatAt := None)]
                      else rs
    {
      if id in rows && rows[id].status.Running? && rows[id].claimedBy == w && rows[id].attempts == attempt {
        rows := rows[id := rows[id].(status := Ready, runAfter := retryAfter,
                                     claimedBy := "", claimedAt := None, lastHeartbeatAt := None)];
      }
    }

    /** Anything legal that other sessions commit between two statements. */
    method OthersCommit(limits: Limits, ops: seq<Op>)
      modifies this
      ensures Contents() == RunLegal(limits, old(Contents()), ops)
    {
      var db := RunLegal(limits, Db(rows, buckets), ops);
      rows, buckets := db.rows, db.buckets;
    }

    /** Two statements, with `others` in between: renews the claim, then asks whether cancelling was
        requested, which only one who owns the claim by then learns. */
    method Heartbeat(limits: Limits, id: Id, w: string, attempt: int, now: int, others: seq<Op>)
      returns (cancelRequested: bool)
      modifies this
      ensures Contents()
           == RunLegal(limits, RunOp(map[], old(Contents()), Op.Heartbeat(id, w, attempt, now)), others)
      ensures cancelRequested <==>
                id in rows && Owns(rows[id], w, attempt) && rows[id].cancelRequestedAt.Some?
    {
      Beat(id, w, attempt, now);
      OthersCommit(limits, others);
      cancelRequested := id in rows && rows[id].status.Running? && rows[id].claimedBy == w
                         && rows[id].attempts == attempt && rows[id].cancelRequestedAt.Some?;
    }

    method Beat(id: Id, w: string, attempt: int, now: int)
      modifies this`rows
      ensures Contents() == RunOp(map[], old(Contents()), Op.Heartbeat(id, w, attempt, now))
      ensures var rs := old(rows);
              rows == if id in rs && rs[id].status == Running && rs[id].claimedBy == w && rs[id].attempts == attempt
                      then rs[id := rs[id].(lastHeartbeatAt := Some(now))]
                      else rs
    {
      if id in rows && rows[id].status.Running? && rows[id].claimedBy == w && rows[id].attempts == attempt {
        rows := rows[id := rows[id].(lastHeartbeatAt := Some(now))];
      }
    }

    // ---- The result store ----

    method MarkRunning(id: Id, w: string, attempt: int) returns (owns: bool)
      modifies this`rows
      ensures Contents() == RunOp(map[], old(Contents()), Op.MarkRunning(id, w, attempt))
      ensures var rs := old(rows);
              rows == if id in rs && rs[id].status == Running && rs[id].claimedBy == w && rs[id].attempts == attempt
                      then rs[id := rs[id].(workerIds := rs[id].workerIds + [w])]
                      else rs
      ensures owns <==> id in old(rows) && Owns(old(rows)[id], w, attempt)
    {
      owns := id in rows && rows[id].status.Running? && rows[id].claimedBy == w && rows[id].attempts == attempt;
      if owns {
        rows := rows[id := rows[id].(workerIds := rows[id].workerIds + [w])];
      }
    }

    method MarkSuccessful(id: Id, w: string, attempt: int, value: string, now: int) returns (owns: bool)
      modifies this`rows
      ensures Contents() == RunOp(map[], old(Contents()), Op.MarkSuccessful(id, w, attempt, value, now))
      ensures var rs := old(rows);
              rows == if id in rs && rs[id].status == Running && rs[id].claimedBy == w && rs[id].attempts == attempt
                      then rs[id := rs[id].(status := Successful, returnValue := Some(value), finishedAt := Some(now))]
                      else rs
      ensures owns <==> id in old(rows) && Owns(old(rows)[id], w, attempt)
    {
      owns := id in rows && rows[id].status.Running? && rows[id].claimedBy == w && rows[id].attempts == attempt;
      if owns {
        rows := rows[id := rows[id].(status := Successful, returnValue := Some(value), finishedAt := Some(now))];
      }
    }

    method MarkFailed(id: Id, w: string, attempt: int, error: string, willRetry: bool, now: int) returns (owns: bool)
      modifies this`rows
      ensures Contents() == RunOp(map[], old(Contents()), Op.MarkFailed(id, w, attempt, error, willRetry, now))
      ensures var rs := old(rows);
              rows == if id in rs && rs[id].status == Running && rs[id].claimedBy == w && rs[id].attempts == attempt
                      then rs[id := rs[id].(errors := rs[id].errors + [error],
                                            status := if willRetry then Running else Failed,
                                            finishedAt := if willRetry then rs[id].finishedAt else Some(now))]
                      else rs
      ensures owns <==> id in old(rows) && Owns(old(rows)[id], w, attempt)
    {
      owns := id in rows && rows[id].status.Running? && rows[id].claimedBy == w && rows[id].attempts == attempt;
      if owns {
        var row := rows[id].(errors := rows[id].errors + [error]);
        if !willRetry {
          row := row.(status := Failed, finishedAt := Some(now));
        }
        rows := rows[id := row];
      }
    }

    // ---- The API ----

    method Cancel(id: Id, now: int) returns (answer: Answer)
      modifies this`rows
      ensures Contents() == RunOp(map[], old(Contents()), Op.Cancel(id, now))
      ensures id !in old(rows) ==> rows == old(rows)
      ensures id in old(rows) ==>
                var r := old(rows)[id];
                rows == if r.status == Ready then
                          old(rows)[id := r.(status := Failed, finishedAt := Some(now),
                                             errors := r.errors + ["werker.exceptions.TaskCancelled"])]
                        else if r.status == Running && r.cancelRequestedAt.None? then
                          old(rows)[id := r.(cancelRequestedAt := Some(now))]
                        else old(rows)
      ensures answer == if id in old(rows) then Answered(Active(old(rows)[id])) else Unknown
    {
      if id !in rows {
        return Unknown;
      }
      var row := rows[id];
      if row.status.Ready? {
        rows := rows[id := row.(status := Failed, finishedAt := Some(now), errors := row.errors + [CANCELLED_ERROR])];
        return Answered(true);
      }
      if row.status.Running? {
        if row.cancelRequestedAt.None? {
          rows := rows[id := row.(cancelRequestedAt := Some(now))];
        }
        return Answered(true);
      }
      return Answered(false);
    }

    /** False for a row that is not FAILED, and for one whose key is active again; then nothing
        is written. */
    method Requeue(id: Id, reset: bool, now: int) returns (answer: Answer)
      modifies this`rows
      ensures Contents() == RunOp(map[], old(Contents()), Op.Requeue(id, reset, now))
      ensures answer.Unknown? <==> id !in old(rows)
      ensures answer == Answered(true) <==>
                id in old(rows) && old(rows)[id].status == Failed && !OtherActive(old(rows), id)
      ensures answer != Answered(true) ==> rows == old(rows)
      ensures answer == Answered(true) ==>
                var r := old(rows)[id];
                rows == old(rows)[id := r.(
                  status := Ready, runAfter := now, finishedAt := None, cancelRequestedAt := None,
                  claimedBy := "", claimedAt := None, lastHeartbeatAt := None,
                  attempts := if reset then 0 else r.attempts)]
    {
      if id !in rows {
        return Unknown;
      }
      if !rows[id].status.Failed? {
        return Answered(false);
      }
      var row := rows[id].(
        status := Ready, runAfter := now, finishedAt := None,
        claimedBy := "", claimedAt := None, lastHeartbeatAt := None, cancelRequestedAt := None,
        attempts := if reset then 0 else rows[id].attempts);
      if !KeyFree(rows, id, row.uniqueKey) {
        return Answered(false);
      }
      rows := rows[id := row];
      return Answered(true);
    }

    // ---- The reaper ----

    /** Reclaims up to `limit` rows whose heartbeat is too old, oldest first. `retryDelay` draws
        the delay of a row from its path and attempt number. */
    method ReclaimStale(staleBefore: int, limit: nat, now: int, lockedRows: set<Id>, retryDelay: (Id, Path, int) -> int)
      returns (items: seq<ReclaimedItem>, ghost delays: map<Id, int>)
      modifies this`rows
      ensures FirstK(HeartbeatRanks(old(rows)), StaleRows(old(rows), staleBefore, lockedRows), limit, delays.Keys)
      ensures forall i | i in delays :: i in old(rows)
                && delays[i] == retryDelay(i, old(rows)[i].path, old(rows)[i].attempts)
      ensures Contents() == RunOp(map[], old(Contents()), Op.Reap(delays, staleBefore, now))
      ensures Legal(map[], old(Contents()), Op.Reap(delays, staleBefore, now))
      ensures ReapsTheStalest(old(rows), staleBefore, lockedRows, limit, delays.Keys)
      ensures WritesTheDecisions(old(rows), delays, now, rows)
      ensures |items| == |delays.Keys|
      ensures ReportsTheDecisions(old(rows), delays.Keys, items)
    {
      hide FirstK, ReapedPart, ReapedRows, Reaped, ReapRetries, StaleRows, HeartbeatRanks, Legal;
      hide ReapsTheStalest, WritesTheDecisions, ReportsTheDecisions;
      ghost var before := rows;
      var ids := PickStale(staleBefore, limit, lockedRows);
      delays := map i | i in ids :: retryDelay(i, rows[i].path, rows[i].attempts);
      assert delays.Keys == ids;
      var retryRows, failRows;
      items, retryRows, failRows := Sort(rows, ids);
      ReapInColumns(Contents(), staleBefore, lockedRows, limit, delays, now, items);
      RetryRows(retryRows, retryDelay, now, before, delays);
      FailRows(failRows, now, before, delays, retryRows);
      ReapedAll(before, delays, now);
    }

    method PickStale(staleBefore: int, limit: nat, lockedRows: set<Id>) returns (ids: set<Id>)
      ensures FirstK(HeartbeatRanks(rows), StaleRows(rows, staleBefore, lockedRows), limit, ids)
      ensures ids <= rows.Keys
    {
      ids := PickFirst(HeartbeatRanks(rows), StaleRows(rows, staleBefore, lockedRows), limit);
    }

    method RetryRows(retryRows: set<Id>, retryDelay: (Id, Path, int) -> int, now: int,
                     ghost before: Rows, ghost delays: map<Id, int>)
      requires rows == before && retryRows <= delays.Keys && delays.Keys <= before.Keys
      requires forall i | i in delays :: delays[i] == retryDelay(i, before[i].path, before[i].attempts)
      requires forall i | i in retryRows :: ReapRetries(before[i])
      modifies this`rows
      ensures rows == ReapedPart(before, delays, retryRows, now)
    {
      hide ReapedPart, Reaped, ReapRetries;
      var left := retryRows;
      ReapedNothing(before, delays, now);
      assert retryRows - left == {};
      while left != {}
        invariant left <= retryRows && rows == ReapedPart(before, delays, retryRows - left, now)
        decreases |left|
      {
        var i :| i in left;
        ReapedOneMore(before, delays, retryRows - left, i, now);
        var row := rows[i];
        var delay := retryDelay(i, row.path, row.attempts);
        RetryIsReap(row, now, delay);
        rows := rows[i := row.(status := Ready, runAfter := now + delay,
                               claimedBy := "", claimedAt := None, lastHeartbeatAt := None)];
        assert retryRows - (left - {i}) == (retryRows - left) + {i};
        left := left - {i};
      }
      assert retryRows - {} == retryRows;
    }

    method FailRows(failRows: set<Id>, now: int, ghost before: Rows, ghost delays: map<Id, int>, ghost done: set<Id>)
      requires rows == ReapedPart(before, delays, done, now) && failRows !! done
      requires failRows <= delays.Keys && delays.Keys <= before.Keys
      requires forall i | i in failRows :: !ReapRetries(before[i])
      modifies this`rows
      ensures rows == ReapedPart(before, delays, done + failRows, now)
    {
      hide ReapedPart, Reaped, ReapRetries;
      var left := failRows;
      assert done + (failRows - left) == done;
      while left != {}
        invariant left <= failRows && rows == ReapedPart(before, delays, done + (failRows - left), now)
        decreases |left|
      {
        var i :| i in left;
        ReapedOneMore(before, delays, done + (failRows - left), i, now);
        var row := rows[i];
        FailureIsReap(row, now, delays[i]);
        rows := rows[i := row.(status := Failed, finishedAt := Some(now), errors := row.errors + [REAPER_ERROR],
                               claimedBy := "", claimedAt := None, lastHeartbeatAt := None)];
        assert done + (failRows - (left - {i})) == done + (failRows - left) + {i};
        left := left - {i};
      }
      assert failRows - {} == failRows;
    }
  }

  /** Oldest heartbeat first. */
  function HeartbeatRanks(rows: Rows): map<Id, Rank> {
    map i | i in rows :: Rank(if rows[i].lastHeartbeatAt.Some? then rows[i].lastHeartbeatAt.value else 0, 0)
  }

  function StaleRows(rows: Rows, staleBefore: int, lockedRows: set<Id>): set<Id> {
    set i | i in rows && i !in lockedRows && Stale(rows[i], staleBefore)
  }

  /** The rows when the decisions about `done` have been written. */
  ghost function ReapedPart(rows: Rows, delays: map<Id, int>, done: set<Id>, now: int): Rows {
    map i | i in rows :: if i in delays && i in done then Reaped(rows[i], now, delays[i]) else rows[i]
  }

  lemma ReapedNothing(rows: Rows, delays: map<Id, int>, now: int)
    ensures ReapedPart(rows, delays, {}, now) == rows
  {
  }

  lemma ReapedOneMore(rows: Rows, delays: map<Id, int>, done: set<Id>, i: Id, now: int)
    requires i in rows && i in delays && i !in done
    ensures var part := ReapedPart(rows, delays, done, now);
      && i in part && part[i] == rows[i]
      && part[i := Reaped(rows[i], now, delays[i])] == ReapedPart(rows, delays, done + {i}, now)
  {
  }

  lemma ReapedAll(rows: Rows, delays: map<Id, int>, now: int)
    ensures ReapedPart(rows, delays, delays.Keys, now) == ReapedRows(rows, delays, now)
  {
  }

  lemma RetryIsReap(r: Row, now: int, delay: int)
    requires ReapRetries(r)
    ensures Reaped(r, now, delay)
         == r.(status := Ready, runAfter := now + delay, claimedBy := "", claimedAt := None, lastHeartbeatAt := None)
  {
  }

  lemma FailureIsReap(r: Row, now: int, delay: int)
    requires !ReapRetries(r)
    ensures Reaped(r, now, delay)
         == r.(status := Failed, finishedAt := Some(now), errors := r.errors + [REAPER_ERROR],
               claimedBy := "", claimedAt := None, lastHeartbeatAt := None)
  {
  }

  /** Decides between another try and failure, row by row. */
  method Sort(rows: Rows, ids: set<Id>) returns (items: seq<ReclaimedItem>, retryRows: set<Id>, failRows: set<Id>)
    requires ids <= rows.Keys
    ensures retryRows !! failRows && retryRows + failRows == ids
    ensures forall i | i in retryRows :: ReapRetries(rows[i])
    ensures forall i | i in failRows :: !ReapRetries(rows[i])
    ensures |items| == |ids| && forall i | i in ids :: ReclaimedItem(i, !ReapRetries(rows[i])) in items
  {
    hide ReapRetries;
    items, retryRows, failRows := [], {}, {};
    var left := ids;
    while left != {}
      invariant left <= ids && |items| + |left| == |ids|
      invariant retryRows !! failRows && retryRows + failRows == ids - left
      invariant forall i | i in retryRows :: ReapRetries(rows[i])
      invariant forall i | i in failRows :: !ReapRetries(rows[i])
      invariant forall i | i in ids - left :: ReclaimedItem(i, !ReapRetries(rows[i])) in items
      decreases |left|
    {
      var i :| i in left;
      var canRetry := ReapRetries(rows[i]);
      if canRetry {
        retryRows := retryRows + {i};
      } else {
        failRows := failRows + {i};
      }
      items := items + [ReclaimedItem(i, !canRetry)];
      left := left - {i};
    }
  }

  /** Reclaimed are unlocked RUNNING rows whose heartbeat is older than the cutoff; at most as many as
      asked for, all of them if there are no more, and none left out has an older heartbeat. */
  ghost predicate ReapsTheStalest(rows: Rows, staleBefore: int, lockedRows: set<Id>, limit: nat, ids: set<Id>) {
    var stale := set i | i in rows && i !in lockedRows && rows[i].status == Running
                         && rows[i].lastHeartbeatAt.Some? && rows[i].lastHeartbeatAt.value < staleBefore;
    && ids <= stale && |ids| <= limit && (|ids| < limit ==> ids == stale)
    && forall i, j | i in ids && j in stale && j !in ids ::
         rows[i].lastHeartbeatAt.value <= rows[j].lastHeartbeatAt.value
  }

  lemma PickedAreStalest(rows: Rows, staleBefore: int, lockedRows: set<Id>, limit: nat, ids: set<Id>)
    requires FirstK(HeartbeatRanks(rows), StaleRows(rows, staleBefore, lockedRows), limit, ids)
    ensures ReapsTheStalest(rows, staleBefore, lockedRows, limit, ids)
  {
    var stale := StaleRows(rows, staleBefore, lockedRows);
    if |ids| < limit {
      SameSizeSubset(ids, stale);
    }
    forall i, j | i in ids && j in stale && j !in ids
      ensures rows[i].lastHeartbeatAt.value <= rows[j].lastHeartbeatAt.value
    {
      assert !Before(HeartbeatRanks(rows)[j], HeartbeatRanks(rows)[i]);
    }
  }

  /** An at-least-once row with retries left is READY again after its delay; any other reclaimed row
      has FAILED, with an error that says why. Nothing else changes. */
  ghost predicate WritesTheDecisions(before: Rows, delays: map<Id, int>, now: int, after: Rows) {
    && after.Keys == before.Keys
    && forall i | i in before ::
         var r := before[i];
         var free := r.(claimedBy := "", claimedAt := None, lastHeartbeatAt := None);
         after[i] == if i !in delays then r
                     else if r.delivery == AtLeastOnce && r.attempts <= r.maxRetries then
                       free.(status := Ready, runAfter := now + delays[i])
                     else
                       free.(status := Failed, finishedAt := Some(now),
                             errors := r.errors + ["werker.exceptions.StaleClaimReclaimed"])
  }

  ghost predicate ReportsTheDecisions(before: Rows, ids: set<Id>, items: seq<ReclaimedItem>) {
    && |items| == |ids| && ids <= before.Keys
    && forall i | i in ids ::
         var r := before[i];
         ReclaimedItem(i, !(r.delivery == AtLeastOnce && r.attempts <= r.maxRetries)) in items
  }

  lemma ReapedInColumns(rows: Rows, delays: map<Id, int>, now: int)
    ensures WritesTheDecisions(rows, delays, now, ReapedRows(rows, delays, now))
  {
  }

  lemma ItemsReport(rows: Rows, ids: set<Id>, items: seq<ReclaimedItem>)
    requires |items| == |ids| && ids <= rows.Keys
    requires forall i | i in ids :: ReclaimedItem(i, !ReapRetries(rows[i])) in items
    ensures ReportsTheDecisions(rows, ids, items)
  {
  }

  lemma ReapInColumns(db: Db, staleBefore: int, lockedRows: set<Id>, limit: nat, delays: map<Id, int>, now: int,
                      items: seq<ReclaimedItem>)
    requires FirstK(HeartbeatRanks(db.rows), StaleRows(db.rows, staleBefore, lockedRows), limit, delays.Keys)
    requires |items| == |delays.Keys| && delays.Keys <= db.rows.Keys
    requires forall i | i in delays.Keys :: ReclaimedItem(i, !ReapRetries(db.rows[i])) in items
    ensures Legal(map[], db, Op.Reap(delays, staleBefore, now))
    ensures ReapsTheStalest(db.rows, staleBefore, lockedRows, limit, delays.Keys)
    ensures WritesTheDecisions(db.rows, delays, now, ReapedRows(db.rows, delays, now))
    ensures ReportsTheDecisions(db.rows, delays.Keys, items)
  {
    hide HeartbeatRanks, StaleRows, FirstK, Reaped, ReapRetries;
    PickedAreStale(db, staleBefore, limit, lockedRows, delays, now);
    PickedAreStalest(db.rows, staleBefore, lockedRows, limit, delays.Keys);
    ReapedInColumns(db.rows, delays, now);
    ItemsReport(db.rows, delays.Keys, items);
  }

  lemma PickedAreStale(db: Db, staleBefore: int, limit: nat, lockedRows: set<Id>, delays: map<Id, int>, now: int)
    requires FirstK(HeartbeatRanks(db.rows), StaleRows(db.rows, staleBefore, lockedRows), limit, delays.Keys)
    ensures Legal(map[], db, Op.Reap(delays, staleBefore, now))
  {
  }

  lemma WaitingAreLimited(limits: Limits, rows: Rows, req: Request)
    ensures forall p | p in WaitingPaths(limits, rows, req) :: p in limits
  {
  }

  lemma LockedVisit(limits: Limits, rows: Rows, found: map<Path, Bucket>, req: Request, path: Path, room: nat)
    requires path in limits
    ensures VisitedFrom(limits, rows, found, req, path, room, true, {}, None, found)
    ensures ValidPolicy(limits[path]) ==>
              VisitInColumns(limits, rows, found, req, path, room, true, {}, None, found)
  {
    hide Allowance, Polled, WaitHint, VisitInColumns;
    var none: set<Id> := {};
    if ValidPolicy(limits[path]) {
      VisitedInColumns(limits, rows, found, req, path, room, true, none, None, found);
    }
  }

  lemma ClaimedInColumns(rows: Rows, ids: set<Id>, w: string, now: int)
    ensures forall i | i in rows ::
              var r, after := rows[i], ClaimedRows(rows, ids, w, now)[i];
              && after == (if i !in ids then r
                           else r.(status := Running, claimedBy := w, claimedAt := Some(now),
                                   lastHeartbeatAt := Some(now), lastAttemptedAt := Some(now),
                                   startedAt := if r.startedAt.Some? then r.startedAt else Some(now),
                                   attempts := r.attempts + 1))
              && (i in ids ==> ItemOf(i, after) == ClaimedItem(i, r.queue, r.path, r.attempts + 1, r.maxRetries))
  {
  }

  lemma NoneClaimed(rows: Rows, w: string, now: int)
    ensures ClaimedRows(rows, {}, w, now) == rows
  {
  }

  lemma ClaimedKeys(rows: Rows, ids: set<Id>, w: string, now: int)
    ensures ClaimedRows(rows, ids, w, now).Keys == rows.Keys
  {
  }

  /** The read that follows the claim; its order is unspecified. */
  method ItemsOf(rows: Rows, ids: set<Id>) returns (items: seq<ClaimedItem>)
    requires ids <= rows.Keys
    ensures |items| == |ids| && forall i | i in ids :: ItemOf(i, rows[i]) in items
  {
    items := [];
    var left := ids;
    while left != {}
      invariant left <= ids && |items| + |left| == |ids|
      invariant forall i | i in ids - left :: ItemOf(i, rows[i]) in items
      decreases |left|
    {
      var i :| i in left;
      items := items + [ItemOf(i, rows[i])];
      left := left - {i};
    }
  }
}
