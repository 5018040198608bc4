/** The retry budget of one row, over every run: how often it is attempted and executed, and how
    often it changes status. */
module Budget {
  import opened RowOps
  import opened Protocol
  import opened Fencing
  import opened Runs

  // ---- Counting along a run ----

  /** A requeue that gave a FAILED row back; a call that answers False is not one. */
  predicate TakesEffect(before: Cell, a: Act, after: Cell) {
    a.Requeue? && after.row.status != before.row.status
  }

  /** Effective requeues that keep the attempts. */
  function KeepingRequeues(xs: seq<Cell>, acts: seq<Act>): nat
    requires |xs| == |acts| + 1
  {
    var n := |acts|;
    if n == 0 then 0
    else KeepingRequeues(xs[..n], acts[..n - 1])
         + (if TakesEffect(xs[n - 1], acts[n - 1], xs[n]) && !acts[n - 1].reset then 1 else 0)
  }

  /** Effective requeues that reset the attempts. */
  function Resets(xs: seq<Cell>, acts: seq<Act>): nat
    requires |xs| == |acts| + 1
  {
    var n := |acts|;
    if n == 0 then 0
    else Resets(xs[..n], acts[..n - 1])
         + (if TakesEffect(xs[n - 1], acts[n - 1], xs[n]) && acts[n - 1].reset then 1 else 0)
  }

  /** Releases that gave the row back. */
  function Releases(xs: seq<Cell>, acts: seq<Act>): nat
    requires |xs| == |acts| + 1
  {
    var n := |acts|;
    if n == 0 then 0
    else Releases(xs[..n], acts[..n - 1])
         + (if acts[n - 1].Release? && xs[n].row != xs[n - 1].row then 1 else 0)
  }

  function StatusChanges(xs: seq<Cell>): nat {
    if |xs| <= 1 then 0
    else StatusChanges(xs[..|xs| - 1]) + (if xs[|xs| - 1].row.status == xs[|xs| - 2].row.status then 0 else 1)
  }

  /** How often the task function was started. */
  function Starts(leases: seq<Lease>): nat {
    if leases == [] then 0
    else Starts(leases[..|leases| - 1]) + (if leases[|leases| - 1].body.Unstarted? then 0 else 1)
  }

  /** The run without its last act. */
  lemma Front(xs: seq<Cell>, acts: seq<Act>)
    requires IsRun(xs, acts) && SafeResets(xs, acts) && acts != []
    ensures var n := |acts|;
            && IsRun(xs[..n], acts[..n - 1]) && SafeResets(xs[..n], acts[..n - 1])
            && xs[..n][0] == xs[0] && xs[..n][n - 1] == xs[n - 1]
            && Inv(xs[n - 1]) && Enabled(xs[n - 1], acts[n - 1]) && xs[n] == Apply(xs[n - 1], acts[n - 1])
            && ResetIsSafe(xs[n - 1], acts[n - 1])
  {
    hide Enabled, Apply, Inv, ResetIsSafe, Fresh;
    RunInv(xs, acts, |acts| - 1);
  }

  // ---- Attempts ----

  lemma OneActGrants(x: Cell, a: Act)
    requires Enabled(x, a)
    ensures var y := Apply(x, a);
            var effect := TakesEffect(x, a, y);
            && y.grants == (if effect && a.reset then 0 else if effect then x.grants + 1 else x.grants)
            && y.base == (if effect && a.reset then |x.leases| else x.base)
            && y.row.maxRetries == x.row.maxRetries
  {
  }

  lemma {:induction false} GrantsAreRequeues(xs: seq<Cell>, acts: seq<Act>)
    requires IsRun(xs, acts) && SafeResets(xs, acts)
    ensures xs[|acts|].grants <= KeepingRequeues(xs, acts)
    ensures xs[|acts|].row.maxRetries == xs[0].row.maxRetries
  {
    hide Apply, Enabled, Inv, Fresh, ResetIsSafe;
    if acts != [] {
      Front(xs, acts);
      GrantsAreRequeues(xs[..|acts|], acts[..|acts| - 1]);
      OneActGrants(xs[|acts| - 1], acts[|acts| - 1]);
    } else {
      FreshGrants(xs, acts);
    }
  }

  lemma FreshGrants(xs: seq<Cell>, acts: seq<Act>)
    requires IsRun(xs, acts) && acts == []
    ensures xs[0].grants == 0 && xs[0].base == 0 && xs[0].changes == 0 && xs[0].leases == []
  {
  }

  /** A row is attempted at most once more than its retries, plus once for each requeue that gave it
      back with its attempts kept. */
  lemma AttemptsAreBudgeted(xs: seq<Cell>, acts: seq<Act>)
    requires IsRun(xs, acts) && SafeResets(xs, acts)
    ensures xs[|acts|].row.attempts <= xs[0].row.maxRetries + 1 + KeepingRequeues(xs, acts)
  {
    RunInv(xs, acts, |acts|);
    GrantsAreRequeues(xs, acts);
  }

  // ---- Executions ----

  lemma {:induction false} SameStarts(a: seq<Lease>, b: seq<Lease>)
    requires |a| == |b| && forall i | 0 <= i < |a| :: a[i].body.Unstarted? <==> b[i].body.Unstarted?
    ensures Starts(a) == Starts(b)
  {
    if a != [] {
      SameStarts(a[..|a| - 1], b[..|b| - 1]);
    }
  }

  /** The claims before the last reset start nothing any more. */
  lemma OldStartsStay(x: Cell, a: Act)
    requires Inv(x) && Enabled(x, a)
    ensures |Apply(x, a).leases| >= |x.leases| >= x.base
    ensures Starts(Apply(x, a).leases[..x.base]) == Starts(x.leases[..x.base])
  {
    hide Shape, Budgeted, LeaseOk, WillRetry, Claimed, Released, Acked, Nacked, Reaped, Requeued, Cancelled, Starts;
    hide Beaten, MarkedRunning, MarkedSuccessful, MarkedFailed, Holds, Owns;
    var y := Apply(x, a);
    assert ByWorker(a) ==> forall j | 0 <= j < |x.leases| && j != a.i :: y.leases[j] == x.leases[j];
    SameStarts(y.leases[..x.base], x.leases[..x.base]);
  }

  /** Since the last reset, at most one start per attempt number. */
  lemma {:induction false} StartsAreCounted(x: Cell, m: nat, top: int)
    requires Inv(x) && x.base <= m <= |x.leases| && top >= 0
    requires forall i | x.base <= i < m && !HandedBack(x.leases[i]) :: x.leases[i].attempt <= top
    ensures Starts(x.leases[..m]) <= Starts(x.leases[..x.base]) + top
  {
    if m > x.base {
      assert x.leases[..m][..m - 1] == x.leases[..m - 1];
      StartsAreCounted(x, m - 1, if HandedBack(x.leases[m - 1]) then top else x.leases[m - 1].attempt - 1);
    }
  }

  lemma StartsWithinAttempts(x: Cell)
    requires Inv(x)
    ensures x.base <= |x.leases|
    ensures Starts(x.leases) <= Starts(x.leases[..x.base]) + x.row.maxRetries + 1 + x.grants
  {
    assert x.leases[..|x.leases|] == x.leases;
    StartsAreCounted(x, |x.leases|, x.row.attempts);
  }

  /** The executions that so many full budgets allow. */
  function Budgets(maxRetries: nat, n: nat): nat {
    (maxRetries + 1) * n
  }

  lemma OneMoreBudget(maxRetries: nat, n: nat)
    ensures Budgets(maxRetries, n + 1) == Budgets(maxRetries, n) + maxRetries + 1
  {
  }

  lemma {:induction false} OldStartsAreBudgeted(xs: seq<Cell>, acts: seq<Act>)
    requires IsRun(xs, acts) && SafeResets(xs, acts)
    ensures var x := xs[|acts|];
            && x.base <= |x.leases|
            && Starts(x.leases[..x.base]) + x.grants
                 <= Budgets(xs[0].row.maxRetries, Resets(xs, acts)) + KeepingRequeues(xs, acts)
  {
    hide Apply, Enabled, Inv, Fresh, ResetIsSafe, Budgets, Starts;
    if acts != [] {
      var n := |acts|;
      var x, a := xs[n - 1], acts[n - 1];
      Front(xs, acts);
      OldStartsAreBudgeted(xs[..n], acts[..n - 1]);
      GrantsAreRequeues(xs[..n], acts[..n - 1]);
      OneActGrants(x, a);
      OldStartsStay(x, a);
      if TakesEffect(x, a, xs[n]) && a.reset {
        ResetKeepsLeases(x, a);
        assert x.leases[..|x.leases|] == x.leases;
        StartsWithinAttempts(x);
        OneMoreBudget(xs[0].row.maxRetries, Resets(xs[..n], acts[..n - 1]));
      }
    } else {
      FreshGrants(xs, acts);
      NoStarts();
    }
  }

  lemma NoStarts()
    ensures Starts([]) == 0
  {
  }

  lemma ResetKeepsLeases(x: Cell, a: Act)
    requires Enabled(x, a) && a.Requeue?
    ensures Apply(x, a).leases == x.leases
  {
  }

  /** MAX_RETRIES = n allows n + 1 executions in total, n + 1 more for each requeue that resets the
      attempts, and one more for each that keeps them: the task function starts no more often,
      however often the row is claimed and handed back. */
  lemma ExecutionsAreBudgeted(xs: seq<Cell>, acts: seq<Act>)
    requires IsRun(xs, acts) && SafeResets(xs, acts)
    ensures Starts(xs[|acts|].leases)
         <= Budgets(xs[0].row.maxRetries, Resets(xs, acts) + 1) + KeepingRequeues(xs, acts)
  {
    hide Apply, Enabled, Inv, Fresh, Starts, Budgets;
    RunInv(xs, acts, |acts|);
    GrantsAreRequeues(xs, acts);
    OldStartsAreBudgeted(xs, acts);
    StartsWithinAttempts(xs[|acts|]);
    OneMoreBudget(xs[0].row.maxRetries, Resets(xs, acts));
  }

  // ---- Changes of status ----

  lemma OneActChanges(x: Cell, a: Act)
    requires Inv(x) && Enabled(x, a)
    ensures var y := Apply(x, a);
            if TakesEffect(x, a, y) then y.changes == if a.reset then 0 else x.changes
            else
              y.changes == x.changes + (if y.row.status == x.row.status then 0 else 1)
                           - 2 * (if a.Release? && y.row != x.row then 1 else 0)
  {
    if a.Release? && Holds(x.row, x.leases[a.i].worker, x.leases[a.i].attempt) {
      HolderIsLast(x, a.i);
    }
  }

  /** Changes of status that are neither requeues nor pairs of a claim and its release. */
  function OwnChanges(xs: seq<Cell>, acts: seq<Act>): int
    requires |xs| == |acts| + 1
  {
    StatusChanges(xs) - 2 * Releases(xs, acts) - Resets(xs, acts) - KeepingRequeues(xs, acts)
  }

  lemma OneMoreOwnChange(xs: seq<Cell>, acts: seq<Act>)
    requires |xs| == |acts| + 1 && acts != []
    ensures var n := |acts|;
            var effect := TakesEffect(xs[n - 1], acts[n - 1], xs[n]);
            OwnChanges(xs, acts) == OwnChanges(xs[..n], acts[..n - 1])
              + (if xs[n].row.status == xs[n - 1].row.status || effect then 0 else 1)
              - 2 * (if acts[n - 1].Release? && xs[n].row != xs[n - 1].row then 1 else 0)
  {
  }

  lemma ChangesWithinAttempts(x: Cell)
    requires Inv(x)
    ensures x.changes <= 2 * (x.row.maxRetries + 1) + 3 * x.grants
  {
  }

  lemma {:induction false} OldChangesAreBudgeted(xs: seq<Cell>, acts: seq<Act>)
    requires IsRun(xs, acts) && SafeResets(xs, acts)
    ensures OwnChanges(xs, acts) - xs[|acts|].changes
         <= 2 * Budgets(xs[0].row.maxRetries, Resets(xs, acts))
            + 3 * (KeepingRequeues(xs, acts) - xs[|acts|].grants)
  {
    hide Apply, Enabled, Inv, Fresh, ResetIsSafe, Budgets, OwnChanges;
    if acts != [] {
      var n := |acts|;
      Front(xs, acts);
      OldChangesAreBudgeted(xs[..n], acts[..n - 1]);
      GrantsAreRequeues(xs[..n], acts[..n - 1]);
      OneActGrants(xs[n - 1], acts[n - 1]);
      OneActChanges(xs[n - 1], acts[n - 1]);
      OneMoreOwnChange(xs, acts);
      ChangesWithinAttempts(xs[n - 1]);
      OneMoreBudget(xs[0].row.maxRetries, Resets(xs[..n], acts[..n - 1]));
    } else {
      FreshGrants(xs, acts);
      NoOwnChanges(xs, acts);
    }
  }

  lemma NoOwnChanges(xs: seq<Cell>, acts: seq<Act>)
    requires |xs| == 1 && acts == []
    ensures OwnChanges(xs, acts) == 0
  {
  }

  /** The termination measure: apart from requeues and from pairs of a claim and its release, a row
      changes status at most 2 (n + 1) times, as often again for each requeue that resets the
      attempts, and three times more for each that keeps them: a claim, its end, and a cancel. */
  lemma StatusChangesAreBounded(xs: seq<Cell>, acts: seq<Act>)
    requires IsRun(xs, acts) && SafeResets(xs, acts)
    ensures StatusChanges(xs) - 2 * Releases(xs, acts) - Resets(xs, acts) - KeepingRequeues(xs, acts)
         <= 2 * Budgets(xs[0].row.maxRetries, Resets(xs, acts) + 1) + 3 * KeepingRequeues(xs, acts)
  {
    hide Apply, Enabled, Inv, Fresh, Budgets;
    RunInv(xs, acts, |acts|);
    GrantsAreRequeues(xs, acts);
    OldChangesAreBudgeted(xs, acts);
    ChangesWithinAttempts(xs[|acts|]);
    OneMoreBudget(xs[0].row.maxRetries, Resets(xs, acts));
  }

  // ---- Without requeues ----

  predicate NoRequeues(acts: seq<Act>) {
    forall k | 0 <= k < |acts| :: !acts[k].Requeue?
  }

  lemma {:induction false} NothingRequeued(xs: seq<Cell>, acts: seq<Act>)
    requires NoRequeues(acts) && |xs| == |acts| + 1
    ensures KeepingRequeues(xs, acts) == 0 && Resets(xs, acts) == 0
  {
    if acts != [] {
      NothingRequeued(xs[..|acts|], acts[..|acts| - 1]);
    }
  }

  lemma NothingReset(xs: seq<Cell>, acts: seq<Act>)
    requires |xs| == |acts| + 1 && NoRequeues(acts)
    ensures SafeResets(xs, acts) && KeepingRequeues(xs, acts) == 0 && Resets(xs, acts) == 0
  {
    NothingRequeued(xs, acts);
  }

  lemma RunSize(xs: seq<Cell>, acts: seq<Act>)
    requires IsRun(xs, acts)
    ensures |xs| == |acts| + 1
  {
  }

  lemma OneBudget(maxRetries: nat)
    ensures Budgets(maxRetries, 1) == maxRetries + 1
  {
  }

  /** In particular, without requeues: n + 1 executions, and 2 (n + 1) changes of status. */
  lemma BudgetWithoutRequeues(xs: seq<Cell>, acts: seq<Act>)
    requires IsRun(xs, acts) && NoRequeues(acts)
    ensures Starts(xs[|acts|].leases) <= xs[0].row.maxRetries + 1
    ensures StatusChanges(xs) - 2 * Releases(xs, acts) <= 2 * (xs[0].row.maxRetries + 1)
  {
    hide IsRun, SafeResets, NoRequeues, Starts, StatusChanges, Releases, Resets, KeepingRequeues, Budgets;
    RunSize(xs, acts);
    NothingReset(xs, acts);
    ExecutionsAreBudgeted(xs, acts);
    StatusChangesAreBounded(xs, acts);
    OneBudget(xs[0].row.maxRetries);
  }
}
