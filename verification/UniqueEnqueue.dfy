/** Enqueueing a @unique task: insert, and when the key is taken, look up who holds it, at most
    twice. Between any two of these statements other sessions may commit anything legal. */
module UniqueEnqueue {
  import opened Model
  import opened Database
  import SerialRuns
  import opened TaskStore

  datatype QueueItem = QueueItem(id: Id, queue: string, priority: int, runAfter: int)

  /** How one insert ended. */
  datatype Inserted = Stored | IdTaken | KeyTaken

  datatype Outcome =
    | Created(id: Id)
    | Existing(id: Id)
    | DuplicateId
    | GaveUp

  lemma RunLegalEmpty(limits: Limits, db: Db)
    ensures RunLegal(limits, db, []) == db
  {
  }

  lemma {:induction false} OthersKeepUnique(limits: Limits, db: Db, ops: seq<Op>)
    requires UniqueActive(db.rows)
    ensures UniqueActive(RunLegal(limits, db, ops).rows)
  {
    hide Legal, RunOp, UniqueActive;
    if ops != [] {
      var before := RunLegal(limits, db, ops[..|ops| - 1]);
      OthersKeepUnique(limits, db, ops[..|ops| - 1]);
      if Legal(limits, before, ops[|ops| - 1]) {
        SerialRuns.OpKeepsUnique(limits, before, ops[|ops| - 1]);
      }
    }
  }

  lemma {:induction false} RunLegalConcat(limits: Limits, db: Db, a: seq<Op>, b: seq<Op>)
    ensures RunLegal(limits, db, a + b) == RunLegal(limits, RunLegal(limits, db, a), b)
  {
    hide Legal, RunOp;
    if b == [] {
      assert a + b == a;
    } else {
      assert (a + b)[..|a + b| - 1] == a + b[..|b| - 1];
      RunLegalConcat(limits, db, a, b[..|b| - 1]);
    }
  }

  /** The active rows that hold a key. */
  function Holders(rows: Rows, key: Option<string>): set<Id> {
    set i | i in rows && Active(rows[i]) && rows[i].uniqueKey == key
  }

  /** The row as `create` and `enqueue` leave it. */
  function Enqueued(row: Row, item: QueueItem): Row {
    row.(queue := item.queue, priority := item.priority, runAfter := item.runAfter, status := Ready)
  }

  function HoldersAfter(limits: Limits, db: Db, ops: seq<Op>, row: Row): set<Id> {
    Holders(RunLegal(limits, db, ops).rows, row.uniqueKey)
  }

  /** What the others have committed before each of the two tries. */
  ghost function Before(others: seq<seq<Op>>, tries: nat): seq<Op>
    requires |others| == 4 && tries <= 2
  {
    if tries == 0 then []
    else if tries == 1 then others[0] + others[1]
    else others[0] + others[1] + others[2] + others[3]
  }

  lemma OneHolder(rows: Rows, key: Option<string>, id: Id)
    requires UniqueActive(rows) && key.Some? && id in Holders(rows, key)
    ensures Holders(rows, key) == {id}
  {
    forall j | j in Holders(rows, key) ensures j == id {}
  }

  /** A successful insert is the legal operation `Create`, and leaves one holder of the key. */
  lemma InsertIsCreate(limits: Limits, start: Db, log: seq<Op>, db: Db, item: QueueItem, row: Row)
    requires db == RunLegal(limits, start, log) && UniqueActive(db.rows)
    requires Newborn(row) && item.id !in db.rows
    requires row.uniqueKey.Some? ==> Holders(db.rows, row.uniqueKey) == {}
    ensures var op := Op.Create(item.id, Enqueued(row, item));
            var after := db.(rows := db.rows[item.id := Enqueued(row, item)]);
            && RunLegal(limits, start, log + [op]) == after
            && UniqueActive(after.rows)
            && (row.uniqueKey.Some? ==> Holders(after.rows, row.uniqueKey) == {item.id})
  {
    hide UniqueActive;
    var op := Op.Create(item.id, Enqueued(row, item));
    assert (log + [op])[..|log|] == log;
    forall j | j in db.rows && row.uniqueKey.Some?
      ensures !(Active(db.rows[j]) && db.rows[j].uniqueKey == row.uniqueKey)
    {
      assert j !in Holders(db.rows, row.uniqueKey);
    }
    assert KeyFree(db.rows, item.id, row.uniqueKey);
    SerialRuns.OpKeepsUnique(limits, db, op);
    var after := db.rows[item.id := Enqueued(row, item)];
    if row.uniqueKey.Some? {
      assert item.id in Holders(after, row.uniqueKey);
      assert Holders(after, row.uniqueKey) <= Holders(db.rows, row.uniqueKey) + {item.id};
    }
  }

  class Backend {
    const store: TaskStore

    constructor (store: TaskStore)
      ensures this.store == store
    {
      this.store := store;
    }

    /** `create` and `enqueue` in one transaction. */
    method Insert(item: QueueItem, row: Row) returns (inserted: Inserted)
      requires Newborn(row)
      modifies store`rows
      ensures match inserted
        case Stored =>
          && item.id !in old(store.rows)
          && (row.uniqueKey.Some? ==> Holders(old(store.rows), row.uniqueKey) == {})
          && store.rows == old(store.rows)[item.id := Enqueued(row, item)]
          && store.rows[item.id] == row.(queue := item.queue, priority := item.priority, runAfter := item.runAfter)
        case IdTaken => item.id in old(store.rows) && store.rows == old(store.rows)
        case KeyTaken =>
          && item.id !in old(store.rows)
          && row.uniqueKey.Some? && Holders(old(store.rows), row.uniqueKey) != {} && store.rows == old(store.rows)
    {
      if item.id in store.rows {
        return IdTaken;
      }
      if Conflicts(store.rows, item.id, row) {
        ghost var j :| j in store.rows && Active(store.rows[j]) && store.rows[j].uniqueKey == row.uniqueKey;
        assert j in Holders(store.rows, row.uniqueKey);
        return KeyTaken;
      }
      store.rows := store.rows[item.id := row];
      store.rows := store.rows[item.id := store.rows[item.id].(queue := item.queue, priority := item.priority,
                                                               runAfter := item.runAfter, status := Ready)];
      return Stored;
    }

    /** The id of some active row that holds the key. */
    method LookUp(key: Option<string>) returns (found: Option<Id>)
      ensures match found
        case Some(id) =>
          && id in Holders(store.rows, key)
          && id in store.rows && store.rows[id].uniqueKey == key
          && (store.rows[id].status == Ready || store.rows[id].status == Running)
        case None =>
          && Holders(store.rows, key) == {}
          && forall j | j in store.rows && store.rows[j].uniqueKey == key ::
               store.rows[j].status == Successful || store.rows[j].status == Failed
    {
      var holders := Holders(store.rows, key);
      if holders == {} {
        assert forall j | j in store.rows :: j !in holders;
        return None;
      }
      var id :| id in holders;
      return Some(id);
    }

    /** One round of the loop: insert, and look up the holder when the key was taken. */
    method Try(limits: Limits, ghost start: Db, ghost done: seq<Op>, first: seq<Op>, second: seq<Op>,
               item: QueueItem, row: Row)
      returns (outcome: Outcome, ghost log: seq<Op>)
      requires Newborn(row) && UniqueActive(store.rows)
      requires store.Contents() == RunLegal(limits, start, done)
      modifies store
      ensures UniqueActive(store.rows)
      ensures store.Contents() == RunLegal(limits, start, log)
      ensures match outcome
        case Created(id) =>
          && id == item.id
          && log == done + first + [Op.Create(id, Enqueued(row, item))]
          && id in store.rows && store.rows[id] == Enqueued(row, item)
          && (row.uniqueKey.Some? ==> Holders(store.rows, row.uniqueKey) == {id})
        case Existing(id) =>
          && log == done + first + second
          && row.uniqueKey.Some? && Holders(store.rows, row.uniqueKey) == {id}
        case DuplicateId => log == done + first && item.id in store.rows
        case GaveUp =>
          && log == done + first + second && row.uniqueKey.Some?
          && HoldersAfter(limits, start, done + first, row) != {}
          && HoldersAfter(limits, start, log, row) == {}
    {
      hide RunLegal, UniqueActive, Holders, Newborn;
      RunLegalConcat(limits, start, done, first);
      OthersKeepUnique(limits, store.Contents(), first);
      store.OthersCommit(limits, first);
      log := done + first;
      ghost var before := store.Contents();
      var inserted := Insert(item, row);
      if inserted.Stored? {
        InsertIsCreate(limits, start, log, before, item, row);
        return Created(item.id), log + [Op.Create(item.id, Enqueued(row, item))];
      }
      if inserted.IdTaken? {
        return DuplicateId, log;
      }
      RunLegalConcat(limits, start, log, second);
      OthersKeepUnique(limits, store.Contents(), second);
      store.OthersCommit(limits, second);
      log := log + second;
      var found := LookUp(row.uniqueKey);
      if found.Some? {
        OneHolder(store.rows, row.uniqueKey, found.value);
        return Existing(found.value), log;
      }
      outcome := GaveUp;
    }

    /** Linearizable under any interference: `others[0]` commits before the first insert,
        `others[1]` before its lookup, `others[2]` and `others[3]` likewise on the second try. */
    method WriteEnqueue(limits: Limits, item: QueueItem, row: Row, others: seq<seq<Op>>)
      returns (outcome: Outcome, ghost log: seq<Op>)
      requires Newborn(row) && |others| == 4 && UniqueActive(store.rows)
      modifies store
      ensures UniqueActive(store.rows)
      ensures store.Contents() == RunLegal(limits, old(store.Contents()), log)
      ensures match outcome
        // Our insert is the last thing that happened, and ours is the only active row of the key.
        case Created(id) =>
          && id == item.id
          && (log == others[0] + [Op.Create(id, Enqueued(row, item))]
              || log == others[0] + others[1] + others[2] + [Op.Create(id, Enqueued(row, item))])
          && id in store.rows && store.rows[id] == Enqueued(row, item)
          && store.rows[id] == row.(queue := item.queue, priority := item.priority, runAfter := item.runAfter)
          && (row.uniqueKey.Some? ==> Holders(store.rows, row.uniqueKey) == {id})
        // We wrote nothing, and the row we name is the one that holds the key at the lookup.
        case Existing(id) =>
          && (log == others[0] + others[1] || log == others[0] + others[1] + others[2] + others[3])
          && row.uniqueKey.Some? && Holders(store.rows, row.uniqueKey) == {id}
        // We wrote nothing, because our own id was taken.
        case DuplicateId =>
          && (log == others[0] || log == others[0] + others[1] + others[2])
          && item.id in store.rows
        // We wrote nothing: both inserts met a holder of the key, which both lookups found gone.
        case GaveUp =>
          && log == others[0] + others[1] + others[2] + others[3]
          && row.uniqueKey.Some?
          && HoldersAfter(limits, old(store.Contents()), others[0], row) != {}
          && HoldersAfter(limits, old(store.Contents()), others[0] + others[1], row) == {}
          && HoldersAfter(limits, old(store.Contents()), others[0] + others[1] + others[2], row) != {}
          && HoldersAfter(limits, old(store.Contents()), log, row) == {}
    {
      ghost var db := store.Contents();
      RunLegalEmpty(limits, db);
      hide RunLegal, UniqueActive, Holders, Newborn;
      log := [];
      var tries := 0;
      while tries < 2
        invariant 0 <= tries <= 2
        invariant UniqueActive(store.rows)
        invariant store.Contents() == RunLegal(limits, db, log)
        invariant log == Before(others, tries)
        invariant tries >= 1 ==>
          && row.uniqueKey.Some?
          && HoldersAfter(limits, db, others[0], row) != {}
          && HoldersAfter(limits, db, others[0] + others[1], row) == {}
        invariant tries == 2 ==>
          && HoldersAfter(limits, db, others[0] + others[1] + others[2], row) != {}
          && HoldersAfter(limits, db, log, row) == {}
      {
        assert [] + others[0] == others[0];
        outcome, log := Try(limits, db, log, others[2 * tries], others[2 * tries + 1], item, row);
        if !outcome.GaveUp? {
          return;
        }
        tries := tries + 1;
      }
      return GaveUp, log;
    }
  }
}
