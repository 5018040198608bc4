/** The same operations at the granularity of row locks. A claim and a reap pick rows with
    SKIP LOCKED, one lock at a time; mark_running, mark_failed, cancel, requeue and release wait for
    one row, read it, decide and write; all of these become visible only at their commit. Single
    UPDATE statements wait for their row and re-test their filter. Claims also lock the buckets of
    limited paths and count running rows that they do not lock, and a write that activates a row
    reserves its key in the unique index. */
module Locks {
  import opened Model
  import opened RowOps
  import opened TokenBucket
  import opened Database

  type TxId = nat

  datatype Job =
    | ClaimJob(w: string, now: int, queues: set<string>)
    | ReapJob(staleBefore: int, now: int)
    | Single(op: Op)

  /** An open transaction. `view` is what it read of its locked rows, `buf` what it wrote. */
  datatype Tx = Tx(
    job: Job,
    locked: set<Id>,
    view: Rows,
    buf: Rows,
    delays: map<Id, int>,
    buckets: map<Path, Bucket>,
    counted: map<Path, int>,
    reserved: set<string>)

  /** `db` is the committed state; `log` lists the operations in the order they took effect. */
  datatype System = System(db: Db, txs: map<TxId, Tx>, log: seq<Op>)

  datatype Move =
    | Begin(t: TxId, job: Job)
    | LockBucket(t: TxId, path: Path)
    | CountRunning(t: TxId, path: Path)
    | LockRow(t: TxId, id: Id)
    | ReadRow(t: TxId, id: Id)
    | WriteRow(t: TxId, id: Id, delay: int)
    | Commit(t: TxId)
    | Abort(t: TxId)
    | Statement(op: Op)

  /** Operations that lock their row first and decide on what they read. */
  predicate LockFirst(op: Op) {
    op.MarkRunning? || op.MarkFailed? || op.Cancel? || op.Requeue? || op.Release?
  }

  /** Operations that are one UPDATE with a filter. */
  predicate OneStatement(op: Op) {
    op.Ack? || op.Nack? || op.Heartbeat? || op.MarkSuccessful?
  }

  predicate RowFree(s: System, id: Id) {
    forall t | t in s.txs :: id !in s.txs[t].locked
  }

  predicate BucketFree(s: System, path: Path) {
    forall t | t in s.txs :: path !in s.txs[t].buckets
  }

  predicate KeyUnreserved(s: System, key: Option<string>) {
    key.None? || forall t | t in s.txs :: key.value !in s.txs[t].reserved
  }

  predicate Activates(before: Row, after: Row) {
    Active(after) && !Active(before)
  }

  /** The filter of the SELECT that picks rows; a waiting lock has none. */
  ghost predicate Picks(limits: Limits, tx: Tx, rows: Rows, id: Id)
    requires id in rows
  {
    match tx.job
    case ClaimJob(_, now, queues) =>
      && Due(rows[id], queues, now)
      && (rows[id].path in limits ==>
            var p := rows[id].path;
            && p in tx.buckets && p in tx.counted
            && var n := |OfPath(rows, tx.locked, p)| + 1;
               n <= Allowance(tx.buckets[p], limits[p], now, tx.counted[p], n))
    case ReapJob(staleBefore, _) => Stale(rows[id], staleBefore)
    case Single(op) => LockFirst(op) && id == op.id
  }

  function NewRow(job: Job, r: Row, delay: int): Row {
    match job
    case ClaimJob(w, now, _) => Claimed(r, w, now)
    case ReapJob(_, now) => Reaped(r, now, delay)
    case Single(op) => RowAfter(r, op)
  }

  /** The write would trip the unique index on what is committed now. */
  predicate TurnedAway(db: Db, tx: Tx, id: Id)
    requires id in tx.view
  {
    var r := NewRow(tx.job, tx.view[id], 0);
    tx.job.Single? && Activates(tx.view[id], r) && !KeyFree(db.rows, id, r.uniqueKey)
  }

  /** The operation a finished transaction amounts to. */
  function OpOf(tx: Tx): Op {
    match tx.job
    case ClaimJob(w, now, _) => Claim(tx.locked, tx.buckets.Keys, w, now)
    case ReapJob(staleBefore, now) => Reap(tx.delays, staleBefore, now)
    case Single(op) => op
  }

  /** A release that took effect refunds its bucket in the same transaction. */
  predicate Refunds(tx: Tx) {
    tx.job.Single? && tx.job.op.Release? && tx.job.op.id in tx.view
    && Holds(tx.view[tx.job.op.id], tx.job.op.w, tx.job.op.attempt)
  }

  ghost predicate CanMove(limits: Limits, s: System, m: Move) {
    match m
    case Begin(t, job) =>
      t !in s.txs && (job.ClaimJob? ==> job.w != "") && (job.Single? ==> LockFirst(job.op))
    case LockBucket(t, p) =>
      t in s.txs && s.txs[t].job.ClaimJob? && p in limits && BucketFree(s, p)
    case CountRunning(t, p) => t in s.txs && p in s.txs[t].buckets && p !in s.txs[t].counted
    case LockRow(t, id) =>
      && t in s.txs && id in s.db.rows && RowFree(s, id) && Picks(limits, s.txs[t], s.db.rows, id)
    case ReadRow(t, id) => t in s.txs && id in s.txs[t].locked
    case WriteRow(t, id, _) =>
      && t in s.txs && id in s.txs[t].view && id !in s.txs[t].buf
      && (Activates(s.txs[t].view[id], NewRow(s.txs[t].job, s.txs[t].view[id], 0)) ==>
            KeyUnreserved(s, s.txs[t].view[id].uniqueKey))
    case Commit(t) =>
      && t in s.txs && s.txs[t].buf.Keys == s.txs[t].locked
      && (s.txs[t].job.Single? ==> s.txs[t].locked != {})
      && (Refunds(s.txs[t]) && s.txs[t].job.op.path in s.db.buckets ==> BucketFree(s, s.txs[t].job.op.path))
    case Abort(t) => t in s.txs
    case Statement(op) =>
      if op.Create? then Legal(limits, s.db, op) && KeyUnreserved(s, op.row.uniqueKey)
      else OneStatement(op) && RowFree(s, op.id)
  }

  /** The buckets a commit writes. */
  function BucketsOf(limits: Limits, db: Db, tx: Tx): map<Path, Bucket> {
    if tx.job.ClaimJob? then
      map p | p in db.buckets.Keys + (tx.buckets.Keys * limits.Keys) ::
        if p in tx.buckets && p in limits
        then Polled(tx.buckets[p], limits[p], tx.job.now, |OfPath(tx.view, tx.locked, p)|)
        else db.buckets[p]
    else if Refunds(tx) && tx.job.op.path in db.buckets then
      db.buckets[tx.job.op.path := Refunded(db.buckets[tx.job.op.path])]
    else db.buckets
  }

  function Committed(limits: Limits, db: Db, tx: Tx): Db {
    Db(db.rows + tx.buf, BucketsOf(limits, db, tx))
  }

  function WithBucket(limits: Limits, db: Db, tx: Tx, p: Path): Tx
    requires tx.job.ClaimJob? && p in limits
  {
    tx.(buckets := tx.buckets[p := BucketOf(db.buckets, p, limits[p], tx.job.now)])
  }

  function WithCount(db: Db, tx: Tx, p: Path): Tx {
    tx.(counted := tx.counted[p := |RunningOf(db.rows, p)|])
  }

  function WithLock(tx: Tx, id: Id): Tx {
    tx.(locked := tx.locked + {id})
  }

  function WithView(db: Db, tx: Tx, id: Id): Tx {
    if id in db.rows then tx.(view := tx.view[id := db.rows[id]]) else tx
  }

  function WithWrite(tx: Tx, id: Id, delay: int): Tx
    requires id in tx.view
  {
    var r := NewRow(tx.job, tx.view[id], delay);
    tx.(buf := tx.buf[id := r],
        delays := if tx.job.ReapJob? then tx.delays[id := delay] else tx.delays,
        reserved := if Activates(tx.view[id], r) && r.uniqueKey.Some? then tx.reserved + {r.uniqueKey.value}
                    else tx.reserved)
  }

  ghost function Do(limits: Limits, s: System, m: Move): System
    requires CanMove(limits, s, m)
  {
    match m
    case Begin(t, job) => s.(txs := s.txs[t := Tx(job, {}, map[], map[], map[], map[], map[], {})])
    case LockBucket(t, p) => s.(txs := s.txs[t := WithBucket(limits, s.db, s.txs[t], p)])
    case CountRunning(t, p) => s.(txs := s.txs[t := WithCount(s.db, s.txs[t], p)])
    case LockRow(t, id) => s.(txs := s.txs[t := WithLock(s.txs[t], id)])
    case ReadRow(t, id) => s.(txs := s.txs[t := WithView(s.db, s.txs[t], id)])
    case WriteRow(t, id, delay) =>
      if TurnedAway(s.db, s.txs[t], id) then
        // The statement fails, the transaction ends, and the caller is told so.
        System(s.db, s.txs - {t}, s.log + [OpOf(s.txs[t])])
      else s.(txs := s.txs[t := WithWrite(s.txs[t], id, delay)])
    case Commit(t) =>
      var tx := s.txs[t];
      System(Committed(limits, s.db, tx), s.txs - {t}, s.log + [OpOf(tx)])
    case Abort(t) => s.(txs := s.txs - {t})
    case Statement(op) => System(RunOp(limits, s.db, op), s.txs, s.log + [op])
  }

  // ---- The invariant ----

  /** A claim stays within what its buckets allow, counting what it already locked. */
  ghost predicate ClaimOk(limits: Limits, db: Db, tx: Tx)
    requires tx.job.ClaimJob?
  {
    && tx.job.w != "" && tx.buckets.Keys <= limits.Keys && tx.counted.Keys <= tx.buckets.Keys
    && (forall i | i in tx.locked ::
          i in db.rows && Due(db.rows[i], tx.job.queues, tx.job.now)
          && (db.rows[i].path in limits ==> db.rows[i].path in tx.counted))
    && (forall p | p in tx.buckets :: tx.buckets[p] == BucketOf(db.buckets, p, limits[p], tx.job.now))
    && (forall p | p in tx.counted ::
          && |RunningOf(db.rows, p)| <= tx.counted[p]
          && var n := |OfPath(db.rows, tx.locked, p)|;
             n > 0 ==> n <= Allowance(tx.buckets[p], limits[p], tx.job.now, tx.counted[p], n))
  }

  ghost predicate SingleOk(db: Db, tx: Tx)
    requires tx.job.Single?
  {
    var op := tx.job.op;
    && LockFirst(op) && tx.locked <= {op.id}
    && (forall i | i in tx.buf && i in tx.view && Activates(tx.view[i], tx.buf[i]) && tx.buf[i].uniqueKey.Some? ::
          tx.reserved == {tx.buf[i].uniqueKey.value} && KeyFree(db.rows, i, tx.buf[i].uniqueKey))
  }

  ghost predicate TxOk(limits: Limits, db: Db, tx: Tx) {
    && tx.locked <= db.rows.Keys && tx.view.Keys <= tx.locked && tx.buf.Keys <= tx.view.Keys
    && (forall i | i in tx.view :: tx.view[i] == db.rows[i])
    && (forall i | i in tx.buf ::
          tx.buf[i] == NewRow(tx.job, tx.view[i], if i in tx.delays then tx.delays[i] else 0))
    && (tx.job.ReapJob? ==> tx.delays.Keys == tx.buf.Keys)
    && (tx.job.ReapJob? ==> forall i | i in tx.locked :: Stale(db.rows[i], tx.job.staleBefore))
    && (!tx.job.ReapJob? ==> tx.delays == map[])
    && (!tx.job.ClaimJob? ==> tx.buckets == map[] && tx.counted == map[])
    && (tx.job.ClaimJob? ==> ClaimOk(limits, db, tx))
    && (tx.job.Single? ==> SingleOk(db, tx))
    && (tx.buf == map[] || !tx.job.Single? ==> tx.reserved == {})
  }

  predicate Apart(a: Tx, b: Tx) {
    a.locked !! b.locked && a.buckets.Keys !! b.buckets.Keys && a.reserved !! b.reserved
  }

  ghost predicate LocksOk(limits: Limits, s: System) {
    && (forall t | t in s.txs :: TxOk(limits, s.db, s.txs[t]))
    && (forall t, u | t in s.txs && u in s.txs && t != u :: Apart(s.txs[t], s.txs[u]))
  }

  /** The committed state is what the logged operations make of `start` when they are run one
      after the other, each of them legal where it stands. */
  ghost predicate Serial(limits: Limits, start: Db, s: System) {
    s.db == RunOps(limits, start, s.log) && LegalOps(limits, start, s.log)
  }
}
