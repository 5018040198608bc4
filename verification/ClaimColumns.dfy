/** Which rows a claim takes and what it leaves in the buckets, said of the columns alone. */
module ClaimColumns {
  import opened Model
  import RowOps
  import opened TokenBucket
  import opened Database
  import opened Ranking
  import opened ClaimSpec
  import opened ClaimLoop

  /** A row the claim may take: READY, of a queue asked for, its time come, not locked by another. */
  predicate Candidate(rows: Rows, req: Request, i: Id) {
    && i in rows && i !in req.lockedRows
    && rows[i].status == Ready && rows[i].queue in req.queues && rows[i].runAfter <= req.now
  }

  /** A higher priority comes first, then an earlier time. */
  predicate ComesBefore(a: Row, b: Row) {
    a.priority > b.priority || (a.priority == b.priority && a.runAfter < b.runAfter)
  }

  function CandidatesOf(rows: Rows, req: Request, path: Path): set<Id> {
    set i | i in rows && rows[i].path == path && Candidate(rows, req, i)
  }

  /** Code point order. */
  predicate Precedes(a: string, b: string) {
    exists n | 0 <= n <= |a| && n <= |b| ::
      a[..n] == b[..n] && n < |b| && (n == |a| || a[n] < b[n])
  }

  /** Only candidates are taken, at most as many as asked for; a candidate left out comes before none
      that was taken from the same limited path, or, if no limit applies to either, from the rest;
      and one without a limit is left out only when the batch is full. */
  ghost predicate TakesTheFirst(limits: Limits, rows: Rows, req: Request, ids: set<Id>) {
    && |ids| <= req.limit
    && (forall i | i in ids :: Candidate(rows, req, i))
    && (forall i, j | i in ids && Candidate(rows, req, j) && j !in ids ::
          rows[i].path == rows[j].path || (rows[i].path !in limits && rows[j].path !in limits) ==>
            !ComesBefore(rows[j], rows[i]))
    && (forall j | Candidate(rows, req, j) && j !in ids && rows[j].path !in limits :: |ids| == req.limit)
  }

  /** The order in which limited paths are served: those with work due, by code points. */
  ghost predicate PathsInOrder(limits: Limits, rows: Rows, req: Request, order: seq<Path>) {
    && (forall p :: p in order <==>
          p in limits && exists i :: Candidate(rows, req.(lockedRows := {}), i) && rows[i].path == p)
    && (forall m, n | 0 <= m < n < |order| :: Precedes(order[m], order[n]))
  }

  function Burst(p: Policy): real {
    if p.rateCapacity.Some? then p.rateCapacity.value else 1.0
  }

  function RunningCount(rows: Rows, path: Path): nat {
    |set i | i in rows && rows[i].status == Running && rows[i].path == path|
  }

  /** The limits of a path allow k rows more: the room left, the burst and the time since the last
      poll, and the number of its running rows. */
  predicate LimitsAllow(buckets: map<Path, Bucket>, path: Path, p: Policy, now: int, running: nat, room: int, k: nat)
    requires ValidPolicy(p)
  {
    && k <= room
    && (p.rate.Some? ==> k as real <= Burst(p))
    && (p.rate.Some? && path in buckets ==>
          Seconds(buckets[path].updatedAt, now) >= (k as real - buckets[path].tokens) / p.rate.value)
    && (p.concurrency.Some? ==> running + k <= p.concurrency.value)
  }

  /** Whether the n-th limited path can yield k rows: its bucket is free, that many candidates wait,
      and its limits allow them within the room that the earlier paths left. */
  ghost predicate CanYield(limits: Limits, db: Db, req: Request, order: seq<Path>, ids: set<Id>, n: nat, k: nat)
    requires n < |order| && order[n] in limits && ValidPolicy(limits[order[n]])
  {
    var path := order[n];
    var room := req.limit - |set i | i in ids && i in db.rows && db.rows[i].path in order[..n]|;
    && !(path in req.lockedBuckets && path in db.buckets)
    && k <= |CandidatesOf(db.rows, req, path)|
    && LimitsAllow(db.buckets, path, limits[path], req.now, RunningCount(db.rows, path), room, k)
  }

  /** Every limited path yields as many rows as it can, and no more. */
  ghost predicate YieldsAllItCan(limits: Limits, db: Db, req: Request, order: seq<Path>, ids: set<Id>) {
    forall n: nat, k: nat | n < |order| && k >= 1 && order[n] in limits && ValidPolicy(limits[order[n]]) ::
      (|set i | i in ids && i in db.rows && db.rows[i].path == order[n]| >= k
       <==> CanYield(limits, db, req, order, ids, n, k))
  }

  lemma DueAreCandidates(rows: Rows, req: Request)
    ensures forall i :: i in DueRows(rows, req) <==> Candidate(rows, req, i)
    ensures forall p :: DueOf(rows, req, p) == CandidatesOf(rows, req, p)
  {
  }

  lemma SelectedTakesTheFirst(limits: Limits, db: Db, req: Request, order: seq<Path>, ids: set<Id>)
    requires Selected(limits, db, req, order, ids)
    ensures TakesTheFirst(limits, db.rows, req, ids)
  {
    BatchIsFullOrExhaustive(limits, db, req, order, ids);
    DueAreCandidates(db.rows, req);
    forall i, j | i in ids && Candidate(db.rows, req, j) && j !in ids
                  && (db.rows[i].path == db.rows[j].path || (db.rows[i].path !in limits && db.rows[j].path !in limits))
      ensures !ComesBefore(db.rows[j], db.rows[i])
    {
      FirstInColumns(limits, db, req, order, ids, i, j);
    }
  }

  lemma FirstInColumns(limits: Limits, db: Db, req: Request, order: seq<Path>, ids: set<Id>, i: Id, j: Id)
    requires Selected(limits, db, req, order, ids)
    requires i in ids && Candidate(db.rows, req, j) && j !in ids
    requires db.rows[i].path == db.rows[j].path || (db.rows[i].path !in limits && db.rows[j].path !in limits)
    ensures !ComesBefore(db.rows[j], db.rows[i])
  {
    var path := db.rows[i].path;
    assert j in DueRows(db.rows, req) && i in DueRows(db.rows, req);
    if path in limits {
      assert path in WaitingPaths(limits, db.rows, req);
      var n :| 0 <= n < |order| && order[n] == path;
      assert PathServed(limits, db, req, order, ids, n);
      assert i in OfPath(db.rows, ids, path) && j in DueOf(db.rows, req, path);
    } else {
      assert i in Unlimited(limits, db.rows, ids) && j in Unlimited(limits, db.rows, DueRows(db.rows, req));
    }
    assert !Before(Ranks(db.rows)[j], Ranks(db.rows)[i]);
  }

  lemma {:induction false} LessIsPrecedes(a: string, b: string)
    ensures Less(a, b) ==> Precedes(a, b)
  {
    if Less(a, b) {
      if a != "" && a[0] == b[0] {
        LessIsPrecedes(a[1..], b[1..]);
        var n :| 0 <= n <= |a[1..]| && n <= |b[1..]| && a[1..][..n] == b[1..][..n] && n < |b[1..]|
                 && (n == |a[1..]| || a[1..][n] < b[1..][n]);
        assert a[..n + 1] == [a[0]] + a[1..][..n] && b[..n + 1] == [b[0]] + b[1..][..n];
      } else {
        assert a[..0] == b[..0];
      }
    }
  }

  lemma SelectedPathsInOrder(limits: Limits, db: Db, req: Request, order: seq<Path>, ids: set<Id>)
    requires Selected(limits, db, req, order, ids)
    ensures PathsInOrder(limits, db.rows, req, order)
  {
    forall m, n | 0 <= m < n < |order| ensures Precedes(order[m], order[n]) {
      LessIsPrecedes(order[m], order[n]);
    }
    hide Less, PathServed, FirstK;
    forall p ensures p in order <==>
        p in limits && exists i :: Candidate(db.rows, req.(lockedRows := {}), i) && db.rows[i].path == p
    {
      if p in order {
        assert p in WaitingPaths(limits, db.rows, req);
        var i :| i in db.rows && RowOps.Due(db.rows[i], req.queues, req.now) && db.rows[i].path == p;
        assert Candidate(db.rows, req.(lockedRows := {}), i);
      }
      if i :| p in limits && Candidate(db.rows, req.(lockedRows := {}), i) && db.rows[i].path == p {
        assert p in WaitingPaths(limits, db.rows, req);
      }
    }
  }

  /** A new bucket is full, so time plays no part. */
  lemma FullBucketOpens(p: Policy, now: int, k: nat)
    requires ValidPolicy(p) && p.rate.Some? && k >= 1
    ensures Seconds(now, now) >= (k as real - Capacity(p)) / p.rate.value <==> k as real <= Capacity(p)
  {
    DivideByRate(0.0, k as real - Capacity(p), p.rate.value);
  }

  lemma AllowanceInColumns(buckets: map<Path, Bucket>, path: Path, p: Policy, now: int, running: nat, room: int,
                           k: nat)
    requires ValidPolicy(p) && k >= 1
    ensures Allowance(BucketOf(buckets, path, p, now), p, now, running, room) >= k
       <==> LimitsAllow(buckets, path, p, now, running, room, k)
  {
    AllowanceIff(BucketOf(buckets, path, p, now), p, now, running, room, k);
    if p.rate.Some? && path !in buckets {
      FullBucketOpens(p, now, k);
    }
  }

  lemma SelectedYields(limits: Limits, db: Db, req: Request, order: seq<Path>, ids: set<Id>, n: nat, k: nat)
    requires Selected(limits, db, req, order, ids)
    requires n < |order| && k >= 1 && ValidPolicy(limits[order[n]])
    ensures |set i | i in ids && i in db.rows && db.rows[i].path == order[n]| >= k
       <==> CanYield(limits, db, req, order, ids, n, k)
  {
    var path := order[n];
    var room := Room(limits, db, req, order, n);
    RoomIsWhatIsLeft(limits, db, req, order, ids, n);
    PartSize(limits, db, req, order, ids, n);
    DueAreCandidates(db.rows, req);
    assert TakenOf(db.rows, ids, order, n) == set i | i in ids && i in db.rows && db.rows[i].path in order[..n];
    assert OfPath(db.rows, ids, path) == set i | i in ids && i in db.rows && db.rows[i].path == path;
    RunningIsCounted(db.rows, path);
    AllowanceInColumns(db.buckets, path, limits[path], req.now, |RunningOf(db.rows, path)|, room, k);
    hide Room, DueOf, CandidatesOf, OfPath, TakenOf, RunningOf, RunningCount, Allowance, LimitsAllow, Selected;
    assert Share(limits, db, req, path, room) >= k <==>
      room >= 1 && !Skipped(db, req, path) && Allowed(limits, db, req, path, room) >= k
      && |DueOf(db.rows, req, path)| >= k;
    assert LimitsAllow(db.buckets, path, limits[path], req.now, |RunningOf(db.rows, path)|, room, k) ==> room >= k
      by { NoMoreThanRoom(db.buckets, path, limits[path], req.now, |RunningOf(db.rows, path)|, room, k); }
  }

  lemma NoMoreThanRoom(buckets: map<Path, Bucket>, path: Path, p: Policy, now: int, running: nat, room: int, k: nat)
    requires ValidPolicy(p)
    ensures LimitsAllow(buckets, path, p, now, running, room, k) ==> k <= room
  {
  }

  lemma RunningIsCounted(rows: Rows, path: Path)
    ensures |RunningOf(rows, path)| == RunningCount(rows, path)
  {
    assert RunningOf(rows, path) == set i | i in rows && rows[i].status == Running && rows[i].path == path;
  }

  /** The whole of a claim's choice, in columns. */
  lemma SelectedInColumns(limits: Limits, db: Db, req: Request, order: seq<Path>, ids: set<Id>)
    requires Selected(limits, db, req, order, ids)
    ensures TakesTheFirst(limits, db.rows, req, ids) && PathsInOrder(limits, db.rows, req, order)
    ensures YieldsAllItCan(limits, db, req, order, ids)
  {
    SelectedTakesTheFirst(limits, db, req, order, ids);
    SelectedPathsInOrder(limits, db, req, order, ids);
    forall n: nat, k: nat | n < |order| && k >= 1 && order[n] in limits && ValidPolicy(limits[order[n]])
      ensures |set i | i in ids && i in db.rows && db.rows[i].path == order[n]| >= k
         <==> CanYield(limits, db, req, order, ids, n, k)
    {
      SelectedYields(limits, db, req, order, ids, n, k);
    }
  }

  // ---- One limited path ----

  /** What a poll that took n rows leaves of the bucket: what was there, made up at the rate for the
      time since, at most the burst, less n. Without a rate the bucket is left as it is. */
  function BucketLeft(buckets: map<Path, Bucket>, path: Path, p: Policy, now: int, n: nat): Bucket {
    if p.rate.None? then
      if path in buckets then buckets[path] else Bucket(Burst(p), now)
    else
      var b := if path in buckets then buckets[path] else Bucket(Burst(p), now);
      var filled := b.tokens + Seconds(b.updatedAt, now) * p.rate.value;
      Bucket((if filled < Burst(p) then filled else Burst(p)) - n as real, now)
  }

  /** A visit of one limited path, in columns. It asks to wait if and only if its limits, not the
      rows there are, allow less than it asked for: for the time until the next token is due, or,
      when a token is there, for one second. */
  ghost predicate VisitInColumns(limits: Limits, rows: Rows, found: map<Path, Bucket>, req: Request, path: Path,
                                 room: nat, locked: bool, part: set<Id>, wait: Option<real>,
                                 after: map<Path, Bucket>)
    requires path in limits && ValidPolicy(limits[path])
  {
    var p, running := limits[path], RunningCount(rows, path);
    && part <= CandidatesOf(rows, req, path)
    && (forall i, j | i in part && j in CandidatesOf(rows, req, path) && j !in part ::
          i in rows && j in rows && !ComesBefore(rows[j], rows[i]))
    && (forall k: nat | k >= 1 ::
          |part| >= k <==>
            !locked && k <= |CandidatesOf(rows, req, path)|
            && LimitsAllow(found, path, p, req.now, running, room, k))
    && (locked ==> after == found && wait.None?)
    && (!locked ==> after == found[path := BucketLeft(found, path, p, req.now, |part|)])
    && (!locked && room >= 1 ==> (wait.None? <==> LimitsAllow(found, path, p, req.now, running, room, room)))
    && (!locked && wait.Some? ==>
          wait.value == if p.rate.Some? && after[path].tokens < 1.0 then (1.0 - after[path].tokens) / p.rate.value
                        else 1.0)
  }

  lemma PolledInColumns(buckets: map<Path, Bucket>, path: Path, p: Policy, now: int, n: nat)
    requires ValidPolicy(p)
    ensures Polled(BucketOf(buckets, path, p, now), p, now, n) == BucketLeft(buckets, path, p, now, n)
  {
    var b := BucketOf(buckets, path, p, now);
    SecondsElapse(b, now);
  }

  /** How many rows a visit takes. */
  lemma VisitTakes(limits: Limits, rows: Rows, found: map<Path, Bucket>, req: Request, path: Path,
                   room: nat, locked: bool, part: set<Id>, wait: Option<real>, after: map<Path, Bucket>, k: nat)
    requires path in limits && ValidPolicy(limits[path]) && k >= 1
    requires VisitedFrom(limits, rows, found, req, path, room, locked, part, wait, after)
    ensures |part| >= k <==>
              !locked && k <= |CandidatesOf(rows, req, path)|
              && LimitsAllow(found, path, limits[path], req.now, RunningCount(rows, path), room, k)
  {
    DueAreCandidates(rows, req);
    RunningIsCounted(rows, path);
    AllowanceInColumns(found, path, limits[path], req.now, |RunningOf(rows, path)|, room, k);
    hide RunningOf, RunningCount, Allowance, LimitsAllow, CandidatesOf, DueOf, Ranks;
  }

  lemma VisitedInColumns(limits: Limits, rows: Rows, found: map<Path, Bucket>, req: Request, path: Path,
                         room: nat, locked: bool, part: set<Id>, wait: Option<real>, after: map<Path, Bucket>)
    requires path in limits && ValidPolicy(limits[path])
    requires VisitedFrom(limits, rows, found, req, path, room, locked, part, wait, after)
    ensures VisitInColumns(limits, rows, found, req, path, room, locked, part, wait, after)
  {
    var p := limits[path];
    DueAreCandidates(rows, req);
    RunningIsCounted(rows, path);
    forall k: nat | k >= 1
      ensures |part| >= k <==>
                !locked && k <= |CandidatesOf(rows, req, path)|
                && LimitsAllow(found, path, p, req.now, RunningCount(rows, path), room, k)
    {
      VisitTakes(limits, rows, found, req, path, room, locked, part, wait, after, k);
    }
    if room >= 1 {
      AllowanceInColumns(found, path, p, req.now, |RunningOf(rows, path)|, room, room);
    }
    PolledInColumns(found, path, p, req.now, |part|);
    forall i, j | i in part && j in CandidatesOf(rows, req, path) && j !in part
      ensures i in rows && j in rows && !ComesBefore(rows[j], rows[i])
    {
      assert !Before(Ranks(rows)[j], Ranks(rows)[i]);
    }
    hide RunningOf, RunningCount, Allowance, LimitsAllow, CandidatesOf, DueOf, Ranks, Polled, BucketLeft;
  }
}
