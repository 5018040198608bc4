/** Which rows a claim takes: limited paths first, in order, each within its limits and the room
    that is left; then everything else by priority. */
module ClaimSpec {
  import opened Model
  import opened RowOps
  import opened TokenBucket
  import opened Database
  import opened Ranking

  /** The arguments of one claim, its clock reading, and what other transactions hold locked. */
  datatype Request = Request(queues: set<string>, limit: nat, w: string, now: int,
                             lockedRows: set<Id>, lockedBuckets: set<Path>)

  /** Highest priority first, then the longest due. */
  function RankOf(r: Row): Rank {
    Rank(-r.priority, r.runAfter)
  }

  function Ranks(rows: Rows): map<Id, Rank> {
    map i | i in rows :: RankOf(rows[i])
  }

  /** Due rows that SKIP LOCKED does not skip. */
  function DueRows(rows: Rows, req: Request): set<Id> {
    set i | i in rows && i !in req.lockedRows && Due(rows[i], req.queues, req.now)
  }

  function DueOf(rows: Rows, req: Request, path: Path): set<Id> {
    OfPath(rows, DueRows(rows, req), path)
  }

  function Unlimited(limits: Limits, rows: Rows, ids: set<Id>): set<Id> {
    set i | i in ids && i in rows && rows[i].path !in limits
  }

  /** Limited paths with due work, locked or not. */
  function WaitingPaths(limits: Limits, rows: Rows, req: Request): set<Path> {
    set i | i in rows && Due(rows[i], req.queues, req.now) && rows[i].path in limits :: rows[i].path
  }

  /** Another transaction holds the bucket, so the path is left for later. */
  predicate Skipped(db: Db, req: Request, path: Path) {
    path in req.lockedBuckets && path in db.buckets
  }

  function Allowed(limits: Limits, db: Db, req: Request, path: Path, room: nat): int
    requires path in limits
  {
    Allowance(BucketOf(db.buckets, path, limits[path], req.now), limits[path], req.now,
              |RunningOf(db.rows, path)|, room)
  }

  /** How many rows of a limited path a claim with this much room takes. */
  function Share(limits: Limits, db: Db, req: Request, path: Path, room: nat): nat
    requires path in limits
    ensures Share(limits, db, req, path, room) <= room
  {
    if room == 0 || Skipped(db, req, path) then 0
    else
      var allowed := Min(Allowed(limits, db, req, path, room), |DueOf(db.rows, req, path)|);
      if allowed > 0 then allowed else 0
  }

  /** The room left before the i-th waiting path. */
  function Room(limits: Limits, db: Db, req: Request, order: seq<Path>, i: nat): nat
    requires i <= |order| && forall p | p in order :: p in limits
  {
    if i == 0 then req.limit
    else
      var room := Room(limits, db, req, order, i - 1);
      room - Share(limits, db, req, order[i - 1], room)
  }

  /** The wait a visited path asks for. */
  function WaitOf(limits: Limits, db: Db, req: Request, path: Path, room: nat): Option<real>
    requires path in limits
  {
    if room == 0 || Skipped(db, req, path) then None
    else
      var b := BucketOf(db.buckets, path, limits[path], req.now);
      WaitHint(Polled(b, limits[path], req.now, Share(limits, db, req, path, room)), limits[path],
               Allowed(limits, db, req, path, room), room)
  }

  /** `min(wait, hint or wait)`, where a hint of zero counts as none. */
  function Sooner(hint: Option<real>, wait: Option<real>): Option<real> {
    if wait.None? then hint
    else if hint.None? || hint.value == 0.0 then wait
    else Some(MinReal(wait.value, hint.value))
  }

  function Hint(limits: Limits, db: Db, req: Request, order: seq<Path>, i: nat): Option<real>
    requires i <= |order| && forall p | p in order :: p in limits
  {
    if i == 0 then None
    else Sooner(Hint(limits, db, req, order, i - 1),
                WaitOf(limits, db, req, order[i - 1], Room(limits, db, req, order, i - 1)))
  }

  /** The paths whose buckets the claim updates. */
  function PolledPaths(limits: Limits, db: Db, req: Request, order: seq<Path>, i: nat): set<Path>
    requires i <= |order| && forall p | p in order :: p in limits
  {
    set j | 0 <= j < i && Room(limits, db, req, order, j) > 0 && !Skipped(db, req, order[j]) :: order[j]
  }

  /** The i-th waiting path got its share, and its first rows. */
  ghost predicate PathServed(limits: Limits, db: Db, req: Request, order: seq<Path>, ids: set<Id>, i: nat)
    requires i < |order| && forall p | p in order :: p in limits
  {
    FirstK(Ranks(db.rows), DueOf(db.rows, req, order[i]),
           Share(limits, db, req, order[i], Room(limits, db, req, order, i)), OfPath(db.rows, ids, order[i]))
  }

  /** The complete selection rule. */
  ghost predicate Selected(limits: Limits, db: Db, req: Request, order: seq<Path>, ids: set<Id>) {
    && SortedDistinct(order)
    && (forall p :: p in order <==> p in WaitingPaths(limits, db.rows, req))
    && (forall p | p in order :: p in limits)
    && ids <= DueRows(db.rows, req)
    && (forall i | 0 <= i < |order| :: PathServed(limits, db, req, order, ids, i))
    && FirstK(Ranks(db.rows), Unlimited(limits, db.rows, DueRows(db.rows, req)),
              Room(limits, db, req, order, |order|), Unlimited(limits, db.rows, ids))
  }

  // ---- What the rule means for a caller ----

  /** Rows taken of the first i waiting paths. */
  function TakenOf(rows: Rows, ids: set<Id>, order: seq<Path>, i: nat): set<Id>
    requires i <= |order|
  {
    set j | j in ids && j in rows && rows[j].path in order[..i]
  }

  lemma {:induction false} RoomIsWhatIsLeft(limits: Limits, db: Db, req: Request, order: seq<Path>,
                                            ids: set<Id>, i: nat)
    requires Selected(limits, db, req, order, ids) && i <= |order|
    ensures Room(limits, db, req, order, i) == req.limit - |TakenOf(db.rows, ids, order, i)|
  {
    hide FirstK, Due;
    if i == 0 {
      assert TakenOf(db.rows, ids, order, 0) == {};
    } else {
      RoomIsWhatIsLeft(limits, db, req, order, ids, i - 1);
      var before, part := TakenOf(db.rows, ids, order, i - 1), OfPath(db.rows, ids, order[i - 1]);
      assert order[..i] == order[..i - 1] + [order[i - 1]];
      assert TakenOf(db.rows, ids, order, i) == before + part;
      assert order[i - 1] !in order[..i - 1] by { DistinctFromEarlier(order, i - 1); }
      assert before !! part;
      PartSize(limits, db, req, order, ids, i - 1);
    }
  }

  lemma DistinctFromEarlier(order: seq<Path>, i: nat)
    requires SortedDistinct(order) && i < |order|
    ensures order[i] !in order[..i]
  {
    LessIsTotal(order[i], order[i]);
  }

  lemma PartSize(limits: Limits, db: Db, req: Request, order: seq<Path>, ids: set<Id>, i: nat)
    requires i < |order| && (forall p | p in order :: p in limits) && PathServed(limits, db, req, order, ids, i)
    ensures |OfPath(db.rows, ids, order[i])|
         == Share(limits, db, req, order[i], Room(limits, db, req, order, i))
  {
  }

  /** A claim takes at most `limit` rows, all due and unlocked; and a batch that comes out short has
      taken every unlimited row that was due and unlocked. */
  lemma BatchIsFullOrExhaustive(limits: Limits, db: Db, req: Request, order: seq<Path>, ids: set<Id>)
    requires Selected(limits, db, req, order, ids)
    ensures |ids| <= req.limit
    ensures |ids| < req.limit ==> Unlimited(limits, db.rows, DueRows(db.rows, req)) <= ids
  {
    var n := |order|;
    RoomIsWhatIsLeft(limits, db, req, order, ids, n);
    var limited, rest := TakenOf(db.rows, ids, order, n), Unlimited(limits, db.rows, ids);
    assert order[..n] == order;
    assert ids == limited + rest by {
      forall i | i in ids ensures i in limited + rest {
        if db.rows[i].path in limits {
          assert db.rows[i].path in WaitingPaths(limits, db.rows, req);
        }
      }
    }
    assert limited !! rest;
    if |ids| < req.limit {
      var all := Unlimited(limits, db.rows, DueRows(db.rows, req));
      assert |rest| == |all|;
      SameSizeSubset(rest, all);
    }
  }

  lemma SameSizeSubset(a: set<Id>, b: set<Id>)
    requires a <= b && |a| == |b|
    ensures a == b
  {
    assert b == a + (b - a);
  }

  /** The share in the documentation's terms: the least of the room, the whole tokens, the free
      concurrency slots and the due rows, and never below zero. */
  lemma ShareIsTheLeast(limits: Limits, db: Db, req: Request, path: Path, room: nat)
    requires path in limits && room > 0 && !Skipped(db, req, path)
    ensures var p := limits[path];
      var n := Share(limits, db, req, path, room);
      var tokens := Refilled(BucketOf(db.buckets, path, p, req.now), p, req.now).tokens;
      var running := |RunningOf(db.rows, path)|;
      var due := |DueOf(db.rows, req, path)|;
      && n <= room && n <= due
      && (n > 0 && p.rate.Some? ==> n as real <= tokens)
      && (n > 0 && p.concurrency.Some? ==> running + n <= p.concurrency.value)
      && (n < room && n < due ==>
            || (p.rate.Some? && tokens < (n + 1) as real)
            || (p.concurrency.Some? && running + n >= p.concurrency.value))
  {
  }

  /** The batch hint is the least wait among the visited paths that were held back. */
  lemma {:induction false} HintIsLeastWait(limits: Limits, db: Db, req: Request, order: seq<Path>, i: nat)
    requires i <= |order| && forall p | p in order :: p in limits && ValidPolicy(limits[p])
    ensures var hint := Hint(limits, db, req, order, i);
      && (hint.Some? ==> hint.value > 0.0)
      && (hint.Some? <==>
            exists j :: 0 <= j < i && WaitOf(limits, db, req, order[j], Room(limits, db, req, order, j)).Some?)
      && (hint.Some? ==>
            exists j :: 0 <= j < i && WaitOf(limits, db, req, order[j], Room(limits, db, req, order, j)) == hint)
      && (forall j | 0 <= j < i && WaitOf(limits, db, req, order[j], Room(limits, db, req, order, j)).Some? ::
            hint.Some? && hint.value <= WaitOf(limits, db, req, order[j], Room(limits, db, req, order, j)).value)
  {
    hide Room, WaitOf;
    if i > 0 {
      HintIsLeastWait(limits, db, req, order, i - 1);
      WaitsArePositive(limits, db, req, order[i - 1], Room(limits, db, req, order, i - 1));
    }
  }

  lemma WaitsArePositive(limits: Limits, db: Db, req: Request, path: Path, room: nat)
    requires path in limits && ValidPolicy(limits[path])
    ensures WaitOf(limits, db, req, path, room).Some? ==> WaitOf(limits, db, req, path, room).value > 0.0
  {
    if WaitOf(limits, db, req, path, room).Some? {
      var p := limits[path];
      var after := Polled(BucketOf(db.buckets, path, p, req.now), p, req.now, Share(limits, db, req, path, room));
      if p.rate.Some? && after.tokens < 1.0 {
        DivideByRate(0.0, 1.0 - after.tokens, p.rate.value);
      }
    }
  }
}
