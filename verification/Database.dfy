/** The database as the protocol sees it, and every committed operation on it as one atomic step.
    The imperative store and the lock-granular transactions are both proved against `RunOp`. */
module Database {
  import opened Model
  import opened RowOps
  import opened TokenBucket

  datatype Db = Db(rows: Rows, buckets: map<Path, Bucket>)

  datatype Op =
    | Create(id: Id, row: Row)
    | Claim(ids: set<Id>, polled: set<Path>, w: string, now: int)
    | Reap(delays: map<Id, int>, staleBefore: int, now: int)
    | Ack(id: Id, w: string, attempt: int)
    | Release(id: Id, path: Path, w: string, attempt: int)
    | Nack(id: Id, w: string, attempt: int, retryAfter: int)
    | Heartbeat(id: Id, w: string, attempt: int, now: int)
    | MarkRunning(id: Id, w: string, attempt: int)
    | MarkSuccessful(id: Id, w: string, attempt: int, value: string, now: int)
    | MarkFailed(id: Id, w: string, attempt: int, error: string, willRetry: bool, now: int)
    | Cancel(id: Id, now: int)
    | Requeue(id: Id, reset: bool, now: int)

  /** The row an operation on a single row leaves behind, before any constraint is checked. */
  function RowAfter(r: Row, op: Op): Row {
    match op
    case Ack(_, w, a) => Acked(r, w, a)
    case Release(_, _, w, a) => Released(r, w, a)
    case Nack(_, w, a, t) => Nacked(r, w, a, t)
    case Heartbeat(_, w, a, now) => Beaten(r, w, a, now)
    case MarkRunning(_, w, a) => MarkedRunning(r, w, a)
    case MarkSuccessful(_, w, a, v, now) => MarkedSuccessful(r, w, a, v, now)
    case MarkFailed(_, w, a, e, retry, now) => MarkedFailed(r, w, a, e, retry, now)
    case Cancel(_, now) => Cancelled(r, now)
    case Requeue(_, reset, now) => Requeued(r, reset, now)
    case _ => r
  }

  /** No row other than `id` is active under this key; a missing key conflicts with nothing. */
  predicate KeyFree(rows: Rows, id: Id, key: Option<string>) {
    key.None? || forall j | j in rows && j != id :: !(Active(rows[j]) && rows[j].uniqueKey == key)
  }

  /** The partial unique index: at most one READY or RUNNING row per key. */
  predicate UniqueActive(rows: Rows) {
    forall i, j | i in rows && j in rows && i != j && Active(rows[i]) && Active(rows[j]) ::
      rows[i].uniqueKey.None? || rows[i].uniqueKey != rows[j].uniqueKey
  }

  /** Whether writing `r` to `id` trips the unique index. */
  predicate Conflicts(rows: Rows, id: Id, r: Row) {
    Active(r) && !(id in rows && Active(rows[id])) && !KeyFree(rows, id, r.uniqueKey)
  }

  /** One write, rolled back when it trips the unique index. */
  function Written(rows: Rows, id: Id, r: Row): Rows {
    if Conflicts(rows, id, r) then rows else rows[id := r]
  }

  function ClaimedRows(rows: Rows, ids: set<Id>, w: string, now: int): Rows {
    map i | i in rows :: if i in ids then Claimed(rows[i], w, now) else rows[i]
  }

  function ReapedRows(rows: Rows, delays: map<Id, int>, now: int): Rows {
    map i | i in rows :: if i in delays then Reaped(rows[i], now, delays[i]) else rows[i]
  }

  function OfPath(rows: Rows, ids: set<Id>, path: Path): set<Id> {
    set i | i in ids && i in rows && rows[i].path == path
  }

  function RunningOf(rows: Rows, path: Path): set<Id> {
    set i | i in rows && rows[i].status.Running? && rows[i].path == path
  }

  function PolledBuckets(limits: Limits, db: Db, ids: set<Id>, polled: set<Path>, now: int): map<Path, Bucket> {
    map p | p in db.buckets.Keys + (polled * limits.Keys) ::
      if p in polled && p in limits then
        Polled(BucketOf(db.buckets, p, limits[p], now), limits[p], now, |OfPath(db.rows, ids, p)|)
      else db.buckets[p]
  }

  /** A release that gives its claim back also gives back its token, if the path has a bucket. */
  function RefundedBuckets(db: Db, id: Id, path: Path, w: string, attempt: int): map<Path, Bucket> {
    if id in db.rows && Holds(db.rows[id], w, attempt) && path in db.buckets
       && !Conflicts(db.rows, id, Released(db.rows[id], w, attempt))
    then db.buckets[path := Refunded(db.buckets[path])]
    else db.buckets
  }

  function RunOp(limits: Limits, db: Db, op: Op): Db {
    match op
    case Create(id, row) => db.(rows := Written(db.rows, id, row))
    case Claim(ids, polled, w, now) =>
      Db(ClaimedRows(db.rows, ids, w, now), PolledBuckets(limits, db, ids, polled, now))
    case Reap(delays, _, now) => db.(rows := ReapedRows(db.rows, delays, now))
    case Release(id, path, w, attempt) =>
      if id !in db.rows then db
      else Db(Written(db.rows, id, RowAfter(db.rows[id], op)), RefundedBuckets(db, id, path, w, attempt))
    case _ =>
      if op.id !in db.rows then db
      else db.(rows := Written(db.rows, op.id, RowAfter(db.rows[op.id], op)))
  }

  /** A row as `create` writes it. */
  predicate Newborn(r: Row) {
    && r.status.Ready? && Unheld(r) && r.attempts == 0
    && r.startedAt.None? && r.lastAttemptedAt.None? && r.finishedAt.None?
    && r.errors == [] && r.returnValue.None? && r.workerIds == [] && r.cancelRequestedAt.None?
  }

  /** What `claim` may take of one limited path it polled. */
  predicate LegalPoll(limits: Limits, db: Db, ids: set<Id>, path: Path, now: int)
    requires path in limits
  {
    var n := |OfPath(db.rows, ids, path)|;
    n > 0 ==>
      n <= Allowance(BucketOf(db.buckets, path, limits[path], now), limits[path], now,
                     |RunningOf(db.rows, path)|, n)
  }

  /** The conditions under which the code commits an operation. A claim takes due rows, and
      those of a limited path only after polling its bucket; a reap takes stale rows. */
  predicate Legal(limits: Limits, db: Db, op: Op) {
    match op
    case Create(id, row) => id !in db.rows && Newborn(row)
    case Claim(ids, polled, w, now) =>
      && w != ""
      && (forall i | i in ids ::
            i in db.rows && db.rows[i].status.Ready? && db.rows[i].runAfter <= now
            && (db.rows[i].path in limits ==> db.rows[i].path in polled))
      && (forall p | p in polled :: p in limits && LegalPoll(limits, db, ids, p, now))
    case Reap(delays, staleBefore, now) =>
      forall i | i in delays :: i in db.rows && Stale(db.rows[i], staleBefore)
    case _ => true
  }

  /** A serial history, its last operation applied last. */
  function RunOps(limits: Limits, db: Db, ops: seq<Op>): Db {
    if ops == [] then db
    else RunOp(limits, RunOps(limits, db, ops[..|ops| - 1]), ops[|ops| - 1])
  }

  ghost predicate LegalOps(limits: Limits, db: Db, ops: seq<Op>) {
    ops == [] ||
    (LegalOps(limits, db, ops[..|ops| - 1])
     && Legal(limits, RunOps(limits, db, ops[..|ops| - 1]), ops[|ops| - 1]))
  }

  lemma RunOpsSnoc(limits: Limits, db: Db, ops: seq<Op>, op: Op)
    ensures RunOps(limits, db, ops + [op]) == RunOp(limits, RunOps(limits, db, ops), op)
    ensures LegalOps(limits, db, ops + [op])
       <==> LegalOps(limits, db, ops) && Legal(limits, RunOps(limits, db, ops), op)
  {
    assert (ops + [op])[..|ops|] == ops;
  }

  /** A history can be cut anywhere. */
  lemma {:induction false} RunOpsSplit(limits: Limits, db: Db, ops: seq<Op>, m: nat)
    requires m <= |ops|
    ensures RunOps(limits, db, ops) == RunOps(limits, RunOps(limits, db, ops[..m]), ops[m..])
    ensures LegalOps(limits, db, ops)
       <==> LegalOps(limits, db, ops[..m]) && LegalOps(limits, RunOps(limits, db, ops[..m]), ops[m..])
  {
    hide RunOp, Legal;
    if m == |ops| {
      assert ops[..m] == ops && ops[m..] == [];
    } else {
      var front := ops[..|ops| - 1];
      assert front[..m] == ops[..m] && front[m..] == ops[m..][..|ops| - m - 1];
      RunOpsSplit(limits, db, front, m);
    }
  }

  /** What other sessions commit, one operation after the other; what is not legal where it
      stands does not happen. */
  function RunLegal(limits: Limits, db: Db, ops: seq<Op>): Db {
    if ops == [] then db
    else
      var before := RunLegal(limits, db, ops[..|ops| - 1]);
      if Legal(limits, before, ops[|ops| - 1]) then RunOp(limits, before, ops[|ops| - 1]) else before
  }

  /** In particular, everything happens of a legal history. */
  lemma {:induction false} LegalOpsAllRun(limits: Limits, db: Db, ops: seq<Op>)
    requires LegalOps(limits, db, ops)
    ensures RunLegal(limits, db, ops) == RunOps(limits, db, ops)
  {
    hide RunOp, Legal;
    if ops != [] {
      LegalOpsAllRun(limits, db, ops[..|ops| - 1]);
    }
  }
}
