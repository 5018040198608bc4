/** Reconciling the schedule table with the declarations in the code. The table is keyed by its
    unique name. */
module SyncSchedules {
  import opened Model
  import opened Schedules

  datatype Declaration = Declaration(
    name: string,
    taskPath: Path,
    kind: Kind,
    args: seq<string>,
    kwargs: map<string, string>,
    queue: string,
    priority: int,
    cronExpression: string,
    intervalSeconds: Option<nat>,
    timezone: string,
    catchup: bool)

  type Table = map<string, Schedule>

  /** The instant read when the row of a name is created or changed. */
  type Clock = string -> int

  datatype Outcome =
    | CommandError(name: string)
    | Done(created: nat, updated: nat, reenabled: nat, disabled: nat)

  /** The registry is a dictionary: names are distinct. */
  predicate Distinct(ds: seq<Declaration>) {
    forall i, j | 0 <= i < j < |ds| :: ds[i].name != ds[j].name
  }

  function NamesOf(ds: seq<Declaration>): set<string> {
    set i | 0 <= i < |ds| :: ds[i].name
  }

  function HasChanged(s: Schedule, d: Declaration): bool {
    || s.taskPath != d.taskPath || s.args != d.args || s.kwargs != d.kwargs || s.kind != d.kind
    || s.cronExpression != d.cronExpression || s.intervalSeconds != d.intervalSeconds
    || s.timezone != d.timezone || s.queue != d.queue || s.priority != d.priority || s.catchup != d.catchup
  }

  function ApplyFields(s: Schedule, d: Declaration): Schedule {
    s.(taskPath := d.taskPath, args := d.args, kwargs := d.kwargs, kind := d.kind,
       cronExpression := d.cronExpression, intervalSeconds := d.intervalSeconds,
       timezone := d.timezone, queue := d.queue, priority := d.priority, catchup := d.catchup)
  }

  function CreateFrom(cron: CronNext, d: Declaration, now: int): Schedule {
    var s := Schedule(d.taskPath, d.args, d.kwargs, d.kind, d.cronExpression, d.intervalSeconds, d.timezone,
                      d.queue, d.priority, d.catchup, true, now, None, "", None);
    s.(nextRunAt := NextRunAfterSync(cron, s, now))
  }

  /** What a declaration makes of the row of its name. */
  function SyncedRow(cron: CronNext, existing: Table, d: Declaration, now: int): Schedule {
    if d.name !in existing then CreateFrom(cron, d, now)
    else
      var s := existing[d.name];
      if HasChanged(s, d) then
        var applied := ApplyFields(s, d);
        applied.(nextRunAt := NextRunAfterSync(cron, applied, now), enabled := true)
      else s.(enabled := true)
  }

  function Upserted(cron: CronNext, existing: Table, ds: seq<Declaration>, clock: Clock): Table {
    if ds == [] then existing
    else
      var d := ds[|ds| - 1];
      Upserted(cron, existing, ds[..|ds| - 1], clock)[d.name := SyncedRow(cron, existing, d, clock(d.name))]
  }

  function Disabled(table: Table, live: set<string>): Table {
    map n | n in table :: if n in live then table[n] else table[n].(enabled := false)
  }

  function Synced(cron: CronNext, existing: Table, ds: seq<Declaration>, clock: Clock): Table {
    Disabled(Upserted(cron, existing, ds, clock), NamesOf(ds))
  }

  /** A row agrees with its declaration in every declared field. */
  predicate Matches(s: Schedule, d: Declaration) {
    && s.taskPath == d.taskPath && s.args == d.args && s.kwargs == d.kwargs && s.kind == d.kind
    && s.cronExpression == d.cronExpression && s.intervalSeconds == d.intervalSeconds
    && s.timezone == d.timezone && s.queue == d.queue && s.priority == d.priority && s.catchup == d.catchup
  }

  /** What becomes of one declared row. */
  predicate Reconciled(cron: CronNext, existing: Table, d: Declaration, s: Schedule, now: int) {
    && s.enabled && Matches(s, d)
    && if d.name in existing && Matches(existing[d.name], d) then s == existing[d.name].(enabled := true)
       else
         && s.nextRunAt == (if d.kind == Cron then
                              cron(d.cronExpression, if d.timezone == "" then "UTC" else d.timezone, now)
                            else now + (match d.intervalSeconds case Some(n) => n * 1_000_000 case None => 0))
         && if d.name in existing then
              var was := existing[d.name];
              s.lastRunAt == was.lastRunAt && s.claimedBy == was.claimedBy && s.lastHeartbeatAt == was.lastHeartbeatAt
            else s.lastRunAt.None? && s.claimedBy == "" && s.lastHeartbeatAt.None?
  }

  // ---- What a sync achieves ----

  lemma RowIsReconciled(cron: CronNext, existing: Table, d: Declaration, now: int)
    ensures Reconciled(cron, existing, d, SyncedRow(cron, existing, d, now), now)
  {
  }

  lemma {:induction false} UpsertedKeys(cron: CronNext, existing: Table, ds: seq<Declaration>, clock: Clock)
    ensures var t := Upserted(cron, existing, ds, clock);
            && t.Keys == existing.Keys + NamesOf(ds)
            && (forall n | n in existing && n !in NamesOf(ds) :: t[n] == existing[n])
  {
    hide SyncedRow;
    if ds != [] {
      var front := ds[..|ds| - 1];
      UpsertedKeys(cron, existing, front, clock);
      NamesOfSnoc(ds);
    }
  }

  lemma NamesOfSnoc(ds: seq<Declaration>)
    requires ds != []
    ensures NamesOf(ds) == NamesOf(ds[..|ds| - 1]) + {ds[|ds| - 1].name}
  {
    var front := ds[..|ds| - 1];
    forall n | n in NamesOf(ds) ensures n in NamesOf(front) + {ds[|ds| - 1].name} {
      var i :| 0 <= i < |ds| && ds[i].name == n;
      if i < |front| { assert front[i] == ds[i]; }
    }
    forall n | n in NamesOf(front) ensures n in NamesOf(ds) {
      var i :| 0 <= i < |front| && front[i].name == n;
      assert ds[i] == front[i];
    }
  }

  lemma {:induction false} UpsertedRow(cron: CronNext, existing: Table, ds: seq<Declaration>, clock: Clock, i: nat)
    requires Distinct(ds) && i < |ds|
    ensures var t := Upserted(cron, existing, ds, clock);
            ds[i].name in t && t[ds[i].name] == SyncedRow(cron, existing, ds[i], clock(ds[i].name))
  {
    hide SyncedRow;
    var last := |ds| - 1;
    if i < last {
      UpsertedRow(cron, existing, ds[..last], clock, i);
      assert ds[..last][i] == ds[i];
    }
  }

  /** After a sync the enabled rows are exactly the declared names, each agreeing with its
      declaration; no row is deleted, and undeclared rows are at most disabled. A row that
      already agreed keeps its next run; any other declared row starts over from the clock. */
  lemma SyncReconciles(cron: CronNext, existing: Table, ds: seq<Declaration>, clock: Clock)
    requires Distinct(ds)
    ensures var t := Synced(cron, existing, ds, clock);
            && t.Keys == existing.Keys + NamesOf(ds)
            && (forall n | n in t :: t[n].enabled <==> n in NamesOf(ds))
            && (forall n | n in existing && n !in NamesOf(ds) :: t[n] == existing[n].(enabled := false))
            && (forall d | d in ds :: d.name in t && Reconciled(cron, existing, d, t[d.name], clock(d.name)))
  {
    hide SyncedRow, Upserted, Reconciled;
    UpsertedKeys(cron, existing, ds, clock);
    var t := Synced(cron, existing, ds, clock);
    forall d | d in ds
      ensures d.name in NamesOf(ds) && d.name in t && Reconciled(cron, existing, d, t[d.name], clock(d.name))
    {
      var i :| 0 <= i < |ds| && ds[i] == d;
      UpsertedRow(cron, existing, ds, clock, i);
      RowIsReconciled(cron, existing, d, clock(d.name));
    }
    forall n | n in NamesOf(ds) ensures t[n].enabled {
      var i :| 0 <= i < |ds| && ds[i].name == n;
      assert ds[i] in ds;
      ReconciledIsEnabled(cron, existing, ds[i], t[n], clock(n));
    }
  }

  lemma ReconciledIsEnabled(cron: CronNext, existing: Table, d: Declaration, s: Schedule, now: int)
    requires Reconciled(cron, existing, d, s, now)
    ensures s.enabled && Matches(s, d)
  {
  }

  /** A second sync changes nothing, whatever its clock, and so reports nothing done. */
  lemma SyncIsIdempotent(cron: CronNext, existing: Table, ds: seq<Declaration>, first: Clock, second: Clock)
    requires Distinct(ds)
    ensures var t := Synced(cron, existing, ds, first);
            && Synced(cron, t, ds, second) == t
            && Reported(t, ds) == Done(0, 0, 0, 0)
  {
    hide Synced, HasChanged, NextRunAfterSync;
    var t := Synced(cron, existing, ds, first);
    SyncReconciles(cron, existing, ds, first);
    SyncReconciles(cron, t, ds, second);
    var u := Synced(cron, t, ds, second);
    forall n | n in t ensures u[n] == t[n] {
      if n in NamesOf(ds) {
        var i :| 0 <= i < |ds| && ds[i].name == n;
        assert ds[i] in ds;
      }
    }
    assert u == t;
    NothingToReport(t, ds);
  }

  // ---- The counts it reports ----

  function Count(k: nat, p: nat -> bool): nat {
    if k == 0 then 0 else Count(k - 1, p) + (if p(k - 1) then 1 else 0)
  }

  function IsNew(existing: Table, ds: seq<Declaration>): nat -> bool {
    (i: nat) => i < |ds| && ds[i].name !in existing
  }

  function IsUpdated(existing: Table, ds: seq<Declaration>): nat -> bool {
    (i: nat) => i < |ds| && ds[i].name in existing && HasChanged(existing[ds[i].name], ds[i])
  }

  function IsReenabled(existing: Table, ds: seq<Declaration>): nat -> bool {
    (i: nat) => i < |ds| && ds[i].name in existing && !existing[ds[i].name].enabled
  }

  function Orphaned(existing: Table, ds: seq<Declaration>): set<string> {
    set n | n in existing && existing[n].enabled && n !in NamesOf(ds)
  }

  function Reported(existing: Table, ds: seq<Declaration>): Outcome {
    Done(Count(|ds|, IsNew(existing, ds)), Count(|ds|, IsUpdated(existing, ds)),
         Count(|ds|, IsReenabled(existing, ds)), |Orphaned(existing, ds)|)
  }

  /** The counts, as numbers of declarations without a row, of those whose row disagrees or is
      disabled, and of enabled rows that nobody declares. */
  ghost predicate CountsInColumns(existing: Table, ds: seq<Declaration>, created: nat, updated: nat, reenabled: nat,
                                  disabled: nat) {
    && created == |set i | 0 <= i < |ds| && ds[i].name !in existing|
    && updated == |set i | 0 <= i < |ds| && ds[i].name in existing && !Matches(existing[ds[i].name], ds[i])|
    && reenabled == |set i | 0 <= i < |ds| && ds[i].name in existing && !existing[ds[i].name].enabled|
    && disabled == |set n | n in existing && existing[n].enabled && (forall d :: d in ds ==> d.name != n)|
  }

  lemma {:induction false} CountIsSize(k: nat, p: nat -> bool)
    ensures Count(k, p) == |set i: nat | i < k && p(i)|
  {
    var counted := set i: nat | i < k && p(i);
    if k > 0 {
      CountIsSize(k - 1, p);
      var before := set i: nat | i < k - 1 && p(i);
      assert counted == before + (if p(k - 1) then {k - 1} else {});
    }
  }

  lemma ReportedInColumns(existing: Table, ds: seq<Declaration>)
    ensures var r := Reported(existing, ds);
            CountsInColumns(existing, ds, r.created, r.updated, r.reenabled, r.disabled)
  {
    hide Count;
    var n := |ds|;
    CountIsSize(n, IsNew(existing, ds));
    CountIsSize(n, IsUpdated(existing, ds));
    CountIsSize(n, IsReenabled(existing, ds));
    assert (set i: nat | i < n && IsNew(existing, ds)(i)) == set i | 0 <= i < n && ds[i].name !in existing;
    assert (set i: nat | i < n && IsUpdated(existing, ds)(i))
        == set i | 0 <= i < n && ds[i].name in existing && !Matches(existing[ds[i].name], ds[i]);
    assert (set i: nat | i < n && IsReenabled(existing, ds)(i))
        == set i | 0 <= i < n && ds[i].name in existing && !existing[ds[i].name].enabled;
    assert Orphaned(existing, ds)
        == set n | n in existing && existing[n].enabled && (forall d :: d in ds ==> d.name != n) by {
      assert forall n :: n in NamesOf(ds) <==> exists d :: d in ds && d.name == n;
    }
  }

  lemma {:induction false} CountNone(k: nat, p: nat -> bool)
    requires forall i: nat | i < k :: !p(i)
    ensures Count(k, p) == 0
  {
    if k > 0 {
      CountNone(k - 1, p);
    }
  }

  lemma NothingToReport(t: Table, ds: seq<Declaration>)
    requires forall n | n in t :: t[n].enabled <==> n in NamesOf(ds)
    requires forall i | 0 <= i < |ds| :: ds[i].name in t && Matches(t[ds[i].name], ds[i])
    ensures Reported(t, ds) == Done(0, 0, 0, 0)
  {
    assert forall i | 0 <= i < |ds| :: ds[i].name in NamesOf(ds);
    CountNone(|ds|, IsNew(t, ds));
    CountNone(|ds|, IsUpdated(t, ds));
    CountNone(|ds|, IsReenabled(t, ds));
    assert Orphaned(t, ds) == {};
  }

  // ---- The command ----

  class Command {
    var table: Table

    constructor ()
      ensures table == map[]
    {
      table := map[];
    }

    /** The first declaration in an unknown time zone, if any. */
    method Validate(ds: seq<Declaration>, zones: set<string>) returns (bad: Option<nat>)
      ensures match bad
        case Some(k) => k < |ds| && ds[k].timezone !in zones && forall i | 0 <= i < k :: ds[i].timezone in zones
        case None => forall i | 0 <= i < |ds| :: ds[i].timezone in zones
    {
      for k := 0 to |ds|
        invariant forall i | 0 <= i < k :: ds[i].timezone in zones
      {
        if ds[k].timezone !in zones {
          return Some(k);
        }
      }
      return None;
    }

    method DisableAllBut(live: set<string>) returns (disabled: nat)
      modifies this
      ensures table == Disabled(old(table), live)
      ensures disabled == |set n | n in old(table) && old(table)[n].enabled && n !in live|
    {
      disabled := |set n | n in table && table[n].enabled && n !in live|;
      table := map n | n in table :: if table[n].enabled && n !in live then table[n].(enabled := false) else table[n];
    }

    /** Creates, updates and re-enables declared rows; disables the rest. One invalid
        declaration anywhere, and no row is written. */
    method Handle(cron: CronNext, ds: seq<Declaration>, zones: set<string>, clock: Clock) returns (outcome: Outcome)
      requires Distinct(ds)
      modifies this
      ensures outcome.Done? <==> forall i | 0 <= i < |ds| :: ds[i].timezone in zones
      ensures outcome.Done? ==> table == Synced(cron, old(table), ds, clock) && outcome == Reported(old(table), ds)
      ensures outcome.Done? ==>
        CountsInColumns(old(table), ds, outcome.created, outcome.updated, outcome.reenabled, outcome.disabled)
      ensures outcome.CommandError? ==>
        && table == old(table)
        && exists k | 0 <= k < |ds| ::
             && outcome.name == ds[k].name && ds[k].timezone !in zones
             && forall i | 0 <= i < k :: ds[i].timezone in zones
    {
      ReportedInColumns(table, ds);
      hide CountsInColumns;
      var bad := Validate(ds, zones);
      if bad.Some? {
        return CommandError(ds[bad.value].name);
      }
      var existing := table;
      if ds == [] {
        assert NamesOf(ds) == {};
        var disabled := DisableAllBut({});
        assert Orphaned(existing, ds) == set n | n in existing && existing[n].enabled && n !in {};
        return Done(0, 0, 0, disabled);
      }
      var created, updated, reenabled := Upsert(cron, ds, clock);
      UpsertedKeys(cron, existing, ds, clock);
      assert Orphaned(existing, ds)
          == set n | n in table && table[n].enabled && n !in NamesOf(ds);
      var disabled := DisableAllBut(NamesOf(ds));
      return Done(created, updated, reenabled, disabled);
    }

    method Upsert(cron: CronNext, ds: seq<Declaration>, clock: Clock)
      returns (created: nat, updated: nat, reenabled: nat)
      modifies this
      ensures table == Upserted(cron, old(table), ds, clock)
      ensures created == Count(|ds|, IsNew(old(table), ds))
      ensures updated == Count(|ds|, IsUpdated(old(table), ds))
      ensures reenabled == Count(|ds|, IsReenabled(old(table), ds))
    {
      var existing := table;
      created, updated, reenabled := 0, 0, 0;
      for k := 0 to |ds|
        invariant table == Upserted(cron, existing, ds[..k], clock)
        invariant created == Count(k, IsNew(existing, ds))
        invariant updated == Count(k, IsUpdated(existing, ds))
        invariant reenabled == Count(k, IsReenabled(existing, ds))
      {
        var d := ds[k];
        assert ds[..k + 1][..k] == ds[..k];
        if d.name !in existing {
          table := table[d.name := CreateFrom(cron, d, clock(d.name))];
          created := created + 1;
          continue;
        }
        var pt := existing[d.name];
        if HasChanged(pt, d) {
          pt := ApplyFields(pt, d);
          pt := pt.(nextRunAt := NextRunAfterSync(cron, pt, clock(d.name)));
          updated := updated + 1;
        }
        if !pt.enabled {
          pt := pt.(enabled := true);
          reenabled := reenabled + 1;
        }
        table := table[d.name := pt];
      }
      assert ds[..|ds|] == ds;
    }
  }
}
