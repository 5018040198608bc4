/** A worker's slot accounting: which executions and threads it counts, and what that bounds.

    The claim loop, the executions, the pool's threads and the callbacks they schedule are
    interleaved arbitrarily, up to the start of draining. */
module Slots {
  /** Pool threads, extra async executions, and the most to claim at once. */
  datatype Config = Config(concurrency: nat, maxAsync: nat, batchSize: nat)

  type Exec = nat

  /** `inflight`, `syncInflight` and `abandoned` are the worker's own counters; `asked` is the
      limit of a claim under way, and `batch` says of each claimed item still to be handled
      whether it needs a thread. The rest is what is really going on, and no counter enters it:
      the `started` executions, those of them that need a thread, `threaded`, and there are
      `submitted` calls, `busy` threads, `timedOut` waits, `ended` coroutines, the callbacks
      `calledSync` and `calledDone` that ran, and `orphans`, the abandoned calls whose end has not
      reached the event loop. */
  datatype Slots = Slots(
    inflight: set<Exec>, syncInflight: set<Exec>, abandoned: int,
    asked: nat, batch: seq<bool>, next: Exec, started: set<Exec>, threaded: set<Exec>,
    submitted: set<Exec>, busy: set<Exec>, timedOut: set<Exec>, ended: set<Exec>,
    calledSync: set<Exec>, calledDone: set<Exec>, orphans: set<Exec>)

  const IDLE := Slots({}, {}, 0, 0, [], 0, {}, {}, {}, {}, {}, {}, {}, {}, {})

  function FreeSyncSlots(c: Config, s: Slots): int {
    c.concurrency - |s.syncInflight| - s.abandoned
  }

  function AvailableCapacity(c: Config, s: Slots): int {
    FreeSyncSlots(c, s) + c.maxAsync - (|s.inflight| - |s.syncInflight|)
  }

  datatype Event =
    | Poll
    | Deliver(claimed: seq<bool>)
    | Start
    | HandBack
    | Submit(id: Exec)
    | Return(id: Exec)
    | TimeOut(id: Exec)
    | End(id: Exec)
    | DiscardSync(id: Exec)
    | DiscardInflight(id: Exec)
    | ReleaseAbandoned(id: Exec)

  /** Whether an event is one of the claim loop's own. */
  predicate Foreground(e: Event) {
    e.Poll? || e.Deliver? || e.Start? || e.HandBack?
  }

  /** A sync coroutine ends once its thread has returned, or by its timeout. A thread may
      return just as the wait for it times out. Its own done callback runs before the other. */
  predicate Enabled(c: Config, s: Slots, e: Event) {
    match e
    case Poll => s.asked == 0 && s.batch == [] && AvailableCapacity(c, s) > 0
    case Deliver(claimed) => s.asked > 0 && |claimed| <= s.asked
    case Start => s.batch != [] && (s.batch[0] ==> FreeSyncSlots(c, s) > 0)
    case HandBack => s.batch != [] && s.batch[0] && FreeSyncSlots(c, s) <= 0
    case Submit(id) => id in s.threaded && id !in s.submitted && id !in s.ended
    case Return(id) => id in s.busy
    case TimeOut(id) => id in s.submitted && id !in s.timedOut && id !in s.ended
    case End(id) => id in s.started && id !in s.ended && (id in s.busy ==> id in s.timedOut)
    case DiscardSync(id) => id in s.ended && id in s.threaded && id !in s.calledSync
    case DiscardInflight(id) => id in s.ended && id !in s.calledDone && (id in s.threaded ==> id in s.calledSync)
    case ReleaseAbandoned(id) => id in s.orphans && id !in s.busy
  }

  function Step(c: Config, s: Slots, e: Event): Slots
    requires Enabled(c, s, e)
  {
    match e
    case Poll =>
      var capacity := AvailableCapacity(c, s);
      s.(asked := if capacity < c.batchSize then capacity else c.batchSize)
    case Deliver(claimed) => s.(asked := 0, batch := claimed)
    case Start =>
      s.(inflight := s.inflight + {s.next},
         syncInflight := if s.batch[0] then s.syncInflight + {s.next} else s.syncInflight,
         next := s.next + 1, batch := s.batch[1..], started := s.started + {s.next},
         threaded := if s.batch[0] then s.threaded + {s.next} else s.threaded)
    case HandBack => s.(batch := s.batch[1..])
    case Submit(id) => s.(submitted := s.submitted + {id}, busy := s.busy + {id})
    case Return(id) => s.(busy := s.busy - {id})
    case TimeOut(id) =>
      s.(timedOut := s.timedOut + {id}, abandoned := s.abandoned + 1, orphans := s.orphans + {id})
    case End(id) => s.(ended := s.ended + {id})
    case DiscardSync(id) => s.(syncInflight := s.syncInflight - {id}, calledSync := s.calledSync + {id})
    case DiscardInflight(id) => s.(inflight := s.inflight - {id}, calledDone := s.calledDone + {id})
    case ReleaseAbandoned(id) => s.(orphans := s.orphans - {id}, abandoned := s.abandoned - 1)
  }

  /** An event that is not enabled where it stands does not happen. */
  function Run(c: Config, s: Slots, events: seq<Event>): Slots {
    if events == [] then s
    else
      var before := Run(c, s, events[..|events| - 1]);
      var e := events[|events| - 1];
      if Enabled(c, before, e) then Step(c, before, e) else before
  }

  lemma {:induction false} RunConcat(c: Config, s: Slots, a: seq<Event>, b: seq<Event>)
    ensures Run(c, s, a + b) == Run(c, Run(c, s, a), b)
  {
    if b == [] {
      assert a + b == a;
    } else {
      assert (a + b)[..|a + b| - 1] == a + b[..|b| - 1];
      RunConcat(c, s, a, b[..|b| - 1]);
    }
  }

  lemma RunOne(c: Config, s: Slots, e: Event)
    ensures Run(c, s, [e]) == if Enabled(c, s, e) then Step(c, s, e) else s
  {
    assert [e][..0] == [];
    assert Run(c, s, []) == s;
  }

  // ---- The invariant ----

  /** The executions that hold a sync slot and have not timed out. */
  function OnTime(s: Slots): set<Exec> {
    s.syncInflight - s.timedOut
  }

  /** The two counters are right: each holds exactly the executions whose callback is still to run. */
  predicate Counted(s: Slots) {
    && s.inflight == s.started - s.calledDone
    && s.syncInflight == s.threaded - s.calledSync
  }

  predicate WellFormed(c: Config, s: Slots) {
    && (forall id | id in s.started :: id < s.next)
    && s.threaded <= s.started && s.ended <= s.started
    && s.submitted <= s.threaded && s.busy <= s.submitted && s.timedOut <= s.submitted
    && s.calledSync <= s.threaded * s.ended && s.calledDone <= s.ended
    && s.calledDone * s.threaded <= s.calledSync
    && (s.asked > 0 ==> s.batch == []) && s.asked <= c.batchSize && |s.batch| <= c.batchSize
  }

  /** Every busy thread is accounted for, by an execution on time or by an abandoned call. */
  predicate Accounted(s: Slots) {
    && s.orphans <= s.timedOut
    && s.abandoned == |s.orphans|
    && s.busy <= OnTime(s) + s.orphans
    && s.busy * s.ended <= s.timedOut
  }

  predicate Bounded(c: Config, s: Slots) {
    && |OnTime(s)| + s.abandoned <= c.concurrency
    && |s.inflight - s.timedOut| + s.abandoned + s.asked + |s.batch| <= c.concurrency + c.maxAsync
  }

  predicate Inv(c: Config, s: Slots) {
    WellFormed(c, s) && Counted(s) && Accounted(s) && Bounded(c, s)
  }

  lemma Subset(a: set<Exec>, b: set<Exec>)
    requires a <= b
    ensures |a| <= |b| && (a != b ==> |a| < |b|)
  {
    assert b == a + (b - a);
    assert |b| == |a| + |b - a|;
  }

  lemma StepKeepsWellFormed(c: Config, s: Slots, e: Event)
    requires Inv(c, s) && Enabled(c, s, e)
    ensures WellFormed(c, Step(c, s, e)) && Counted(Step(c, s, e))
  {
    hide FreeSyncSlots, Accounted, Bounded;
  }

  lemma StartKeepsAccounts(c: Config, s: Slots)
    requires Inv(c, s) && Enabled(c, s, Start)
    ensures Accounted(Step(c, s, Start))
  {
    hide FreeSyncSlots, Bounded;
    var t := Step(c, s, Start);
    assert s.next !in s.timedOut;
    assert OnTime(s) <= OnTime(t);
  }

  lemma TimeOutKeepsAccounts(c: Config, s: Slots, id: Exec)
    requires Inv(c, s) && Enabled(c, s, TimeOut(id))
    ensures Accounted(Step(c, s, TimeOut(id)))
  {
    hide Bounded, Counted;
    var t := Step(c, s, TimeOut(id));
    assert id !in s.orphans;
    assert OnTime(s) <= OnTime(t) + {id};
  }

  lemma DiscardKeepsAccounts(c: Config, s: Slots, id: Exec)
    requires Inv(c, s) && Enabled(c, s, DiscardSync(id))
    ensures Accounted(Step(c, s, DiscardSync(id)))
  {
    hide Bounded, Counted;
    assert id in s.busy ==> id in s.orphans;
    assert OnTime(Step(c, s, DiscardSync(id))) == OnTime(s) - {id};
  }

  lemma SubmitKeepsAccounts(c: Config, s: Slots, id: Exec)
    requires Inv(c, s) && Enabled(c, s, Submit(id))
    ensures Accounted(Step(c, s, Submit(id)))
  {
    hide Bounded;
    assert id in OnTime(s);
  }

  lemma StepKeepsAccounts(c: Config, s: Slots, e: Event)
    requires Inv(c, s) && Enabled(c, s, e)
    ensures Accounted(Step(c, s, e))
  {
    hide FreeSyncSlots, AvailableCapacity, Bounded, Counted;
    match e
    case Start => StartKeepsAccounts(c, s);
    case Submit(id) => SubmitKeepsAccounts(c, s, id);
    case TimeOut(id) => TimeOutKeepsAccounts(c, s, id);
    case DiscardSync(id) => DiscardKeepsAccounts(c, s, id);
    case _ =>
  }

  lemma StepKeepsBounds(c: Config, s: Slots, e: Event)
    requires Inv(c, s) && Enabled(c, s, e)
    ensures Bounded(c, Step(c, s, e))
  {
    match e
    case Poll => Subset(s.inflight - s.timedOut, s.inflight);
    case Start => StartKeepsBounds(c, s);
    case TimeOut(id) => TimeOutKeepsBounds(c, s, id);
    case DiscardSync(id) => Subset(OnTime(Step(c, s, e)), OnTime(s));
    case DiscardInflight(id) => Subset(s.inflight - {id} - s.timedOut, s.inflight - s.timedOut);
    case _ =>
  }

  lemma OneMore(a: set<Exec>, b: set<Exec>, x: Exec)
    requires x !in a && x !in b
    ensures |a + {x} - b| == |a - b| + 1
  {
    assert a + {x} - b == (a - b) + {x};
  }

  lemma StartKeepsBounds(c: Config, s: Slots)
    requires Inv(c, s) && Enabled(c, s, Start)
    ensures Bounded(c, Step(c, s, Start))
  {
    assert s.next !in s.timedOut && s.next !in s.inflight;
    hide Accounted, WellFormed, Counted;
    Subset(OnTime(s), s.syncInflight);
    OneMore(s.inflight, s.timedOut, s.next);
    if s.batch[0] {
      OneMore(s.syncInflight, s.timedOut, s.next);
    }
  }

  lemma TimeOutKeepsBounds(c: Config, s: Slots, id: Exec)
    requires Inv(c, s) && Enabled(c, s, TimeOut(id))
    ensures Bounded(c, Step(c, s, TimeOut(id)))
  {
    var t := Step(c, s, TimeOut(id));
    assert OnTime(t) == OnTime(s) - {id};
    assert t.inflight - t.timedOut == (s.inflight - s.timedOut) - {id};
  }

  lemma {:induction false} InvAlways(c: Config, events: seq<Event>)
    ensures Inv(c, Run(c, IDLE, events))
  {
    hide Inv, Enabled, Step;
    if events == [] {
      IdleInv(c);
    } else {
      var before := Run(c, IDLE, events[..|events| - 1]);
      InvAlways(c, events[..|events| - 1]);
      StepKeepsInv(c, before, events[|events| - 1]);
    }
  }

  lemma IdleInv(c: Config)
    ensures Inv(c, IDLE)
  {
    assert OnTime(IDLE) == {};
    assert IDLE.inflight - IDLE.timedOut == {};
  }

  lemma StepKeepsInv(c: Config, s: Slots, e: Event)
    requires Inv(c, s)
    ensures Enabled(c, s, e) ==> Inv(c, Step(c, s, e))
  {
    if Enabled(c, s, e) {
      StepKeepsWellFormed(c, s, e);
      StepKeepsAccounts(c, s, e);
      StepKeepsBounds(c, s, e);
    }
  }

  // ---- What it means for a worker ----

  /** The worker's counters say what is really going on: `_inflight` holds the executions that were
      started and not yet discarded, `_sync_inflight` those of them that need a thread, and
      `_abandoned` counts the abandoned calls not yet reported back. So the free slots are the
      pool less the executions that need a thread and less the abandoned calls. */
  lemma CountersAreRight(c: Config, events: seq<Event>)
    ensures var s := Run(c, IDLE, events);
            && s.inflight == s.started - s.calledDone
            && s.syncInflight == s.threaded - s.calledSync
            && s.abandoned == |s.orphans|
            && FreeSyncSlots(c, s) == c.concurrency - |s.threaded - s.calledSync| - |s.orphans|
            && AvailableCapacity(c, s) == c.concurrency + c.maxAsync - |s.started - s.calledDone| - |s.orphans|
  {
    InvAlways(c, events);
  }

  /** Whatever is interleaved, the executions that need a thread and did not time out, and the
      abandoned calls, fit the pool; all executions fit both limits together; the pool never holds
      more calls than it has threads; and no batch is larger than asked for. */
  lemma SlotsAreBounded(c: Config, events: seq<Event>)
    ensures var s := Run(c, IDLE, events);
            && |s.threaded - s.calledSync - s.timedOut| + |s.orphans| <= c.concurrency
            && |s.started - s.calledDone - s.timedOut| + |s.orphans| + |s.batch| <= c.concurrency + c.maxAsync
            && |s.busy| <= c.concurrency
            && |s.batch| <= c.batchSize
  {
    InvAlways(c, events);
    BusyThreadsFit(c, Run(c, IDLE, events));
  }

  /** A poll asks for as much as is free, up to the batch size. */
  lemma PollAsksForWhatIsFree(c: Config, events: seq<Event>)
    requires Enabled(c, Run(c, IDLE, events), Poll)
    ensures var s := Run(c, IDLE, events);
            var free := c.concurrency + c.maxAsync - |s.started - s.calledDone| - |s.orphans|;
            free > 0 && Step(c, s, Poll).asked == if c.batchSize <= free then c.batchSize else free
  {
    CountersAreRight(c, events);
  }

  lemma BusyThreadsFit(c: Config, s: Slots)
    requires Inv(c, s)
    ensures |s.busy| <= |OnTime(s) + s.orphans| <= c.concurrency
  {
    Subset(s.busy, OnTime(s) + s.orphans);
    assert OnTime(s) !! s.orphans;
    assert |OnTime(s) + s.orphans| == |OnTime(s)| + |s.orphans|;
  }

  /** A submitted call never queues behind another: some pool thread is free for it. */
  lemma SubmittedCallsNeverQueue(c: Config, events: seq<Event>, id: Exec)
    requires Enabled(c, Run(c, IDLE, events), Submit(id))
    ensures |Run(c, IDLE, events).busy| < c.concurrency
  {
    var s := Run(c, IDLE, events);
    InvAlways(c, events);
    BusyThreadsFit(c, s);
    assert id !in s.busy;
    assert id in OnTime(s);
    Subset(s.busy, OnTime(s) + s.orphans);
  }

  /** An item is handed back only when its slot is really missing: unless some execution past its
      timeout still counts twice, all the pool's threads are spoken for, exactly. */
  lemma HandBackMeansFull(c: Config, events: seq<Event>)
    requires Enabled(c, Run(c, IDLE, events), HandBack)
    ensures var s := Run(c, IDLE, events);
            var held := s.threaded - s.calledSync;
            && (held * s.timedOut == {} ==> |held| + |s.orphans| == c.concurrency)
            && c.concurrency <= |held| + |s.orphans| <= c.concurrency + |held * s.timedOut|
            && s.batch[0]
  {
    var s := Run(c, IDLE, events);
    InvAlways(c, events);
    assert s.syncInflight == OnTime(s) + s.syncInflight * s.timedOut;
    assert |s.syncInflight| == |OnTime(s)| + |s.syncInflight * s.timedOut|;
  }

  /** No slot leaks: with nothing in flight, only abandoned threads still running are missing. */
  lemma NothingLeaks(c: Config, events: seq<Event>)
    requires Run(c, IDLE, events).started == Run(c, IDLE, events).calledDone
    ensures var s := Run(c, IDLE, events);
            && AvailableCapacity(c, s) == c.concurrency + c.maxAsync - |s.orphans|
            && FreeSyncSlots(c, s) == c.concurrency - |s.orphans| >= 0
            && s.busy <= s.orphans && s.inflight == {} && s.syncInflight == {}
  {
    InvAlways(c, events);
    var s := Run(c, IDLE, events);
    assert s.threaded <= s.calledSync;
  }

  /** Nothing that can happen is left out: a claim may bring any items within its limit; an execution
      that needs a thread may submit its call, whose thread may return and whose wait may time out,
      in either order; and what ended is discarded, what was abandoned is reported back. */
  lemma EveryExecutionGoesOn(c: Config, s: Slots, id: Exec, claimed: seq<bool>)
    requires Inv(c, s)
    ensures s.asked > 0 && |claimed| <= s.asked ==>
              Enabled(c, s, Deliver(claimed)) && Step(c, s, Deliver(claimed)).batch == claimed
    ensures s.batch != [] ==> Enabled(c, s, Start) || Enabled(c, s, HandBack)
    ensures s.batch != [] && Enabled(c, s, Start) ==>
              var t := Step(c, s, Start);
              && t.started == s.started + {s.next} && s.next !in s.started
              && t.threaded == s.threaded + (if s.batch[0] then {s.next} else {})
    ensures id in s.threaded && id !in s.submitted + s.ended ==>
              Enabled(c, s, Submit(id)) && id in Step(c, s, Submit(id)).busy
    ensures id in s.busy ==> Enabled(c, s, Return(id)) && id !in Step(c, s, Return(id)).busy
    ensures id in s.submitted && id !in s.timedOut + s.ended ==>
              Enabled(c, s, TimeOut(id)) && id in Step(c, s, TimeOut(id)).orphans
    ensures id in s.started && id !in s.ended && (id !in s.busy || id in s.timedOut) ==> Enabled(c, s, End(id))
    ensures id in s.ended && id in s.threaded && id !in s.calledSync ==> Enabled(c, s, DiscardSync(id))
    ensures id in s.ended && id !in s.calledDone && (id !in s.threaded || id in s.calledSync) ==>
              Enabled(c, s, DiscardInflight(id))
    ensures id in s.orphans && id !in s.busy ==>
              Enabled(c, s, ReleaseAbandoned(id)) && id !in Step(c, s, ReleaseAbandoned(id)).orphans
  {
    hide AvailableCapacity, Bounded, Accounted;
  }

  /** How many items a log starts or hands back. */
  function Handled(events: seq<Event>): nat {
    if events == [] then 0
    else Handled(events[..|events| - 1]) + (if Foreground(events[|events| - 1]) then 1 else 0)
  }

  lemma {:induction false} HandledConcat(a: seq<Event>, b: seq<Event>)
    ensures Handled(a + b) == Handled(a) + Handled(b)
  {
    if b == [] {
      assert a + b == a;
    } else {
      assert (a + b)[..|a + b| - 1] == a + b[..|b| - 1];
      HandledConcat(a, b[..|b| - 1]);
    }
  }

  // ---- The worker object ----

  class WorkerSlots {
    const c: Config
    var inflight: set<Exec>
    var syncInflight: set<Exec>
    var abandoned: int
    var batch: seq<bool>
    var around: Slots  // the rest of the machine; its copies of the fields above are not used

    function Contents(): Slots
      reads this
    {
      around.(inflight := inflight, syncInflight := syncInflight, abandoned := abandoned, batch := batch)
    }

    constructor (c: Config)
      ensures this.c == c && Contents() == IDLE
    {
      this.c := c;
      inflight, syncInflight, abandoned, batch, around := {}, {}, 0, [], IDLE;
    }

    method Become(s: Slots)
      modifies this
      ensures Contents() == s
    {
      inflight, syncInflight, abandoned, batch, around := s.inflight, s.syncInflight, s.abandoned, s.batch, s;
    }

    /** Everything else that happens while the claim loop awaits. */
    method Others(events: seq<Event>)
      modifies this
      ensures Contents() == Run(c, old(Contents()), events)
    {
      Become(Run(c, Contents(), events));
    }

    method StartExecution(needsThread: bool)
      requires batch != [] && batch[0] == needsThread
      requires Enabled(c, Contents(), Start)
      modifies this
      ensures Contents() == Step(c, old(Contents()), Start)
      ensures var id := old(around.next);
              && inflight == old(inflight) + {id}
              && syncInflight == old(syncInflight) + (if needsThread then {id} else {})
              && abandoned == old(abandoned)
    {
      var id := around.next;
      inflight := inflight + {id};
      if needsThread {
        syncInflight := syncInflight + {id};
      }
      batch := batch[1..];
      around := around.(next := id + 1, started := around.started + {id},
                        threaded := if needsThread then around.threaded + {id} else around.threaded);
    }

    /** Handles the claimed items in order; others run while an item is being handed back. The
        whole pass is a run of the machine that starts or hands back every item once. */
    method HandleBatch(others: seq<seq<Event>>) returns (releasedAny: bool, ghost log: seq<Event>)
      requires |others| == |batch|
      requires forall k, j | 0 <= k < |others| && 0 <= j < |others[k]| :: !Foreground(others[k][j])
      modifies this
      ensures batch == [] && Handled(log) == old(|batch|)
      ensures Contents() == Run(c, old(Contents()), log)
      ensures releasedAny <==> HandBack in log
    {
      ghost var before := Contents();
      releasedAny, log := false, [];
      while batch != []
        invariant |batch| <= |others|
        invariant Contents() == Run(c, before, log)
        invariant releasedAny <==> HandBack in log
        invariant Handled(log) + |batch| == |others|
        decreases |batch|
      {
        var needsThread := batch[0];
        ghost var now := Contents();
        if needsThread && FreeSyncSlots(c, Contents()) <= 0 {
          var during := others[|others| - |batch|];
          batch := batch[1..];
          RunOne(c, now, HandBack);
          RunConcat(c, before, log, [HandBack]);
          BackgroundKeepsBatch(c, Contents(), during);
          RunConcat(c, before, log + [HandBack], during);
          Others(during);
          HandledConcat(log, [HandBack]);
          HandledConcat(log + [HandBack], during);
          assert Handled([HandBack]) == 1;
          releasedAny, log := true, log + [HandBack] + during;
        } else {
          StartExecution(needsThread);
          RunOne(c, now, Start);
          RunConcat(c, before, log, [Start]);
          HandledConcat(log, [Start]);
          assert Handled([Start]) == 1;
          log := log + [Start];
        }
      }
    }
  }

  lemma {:induction false} BackgroundKeepsBatch(c: Config, s: Slots, events: seq<Event>)
    requires forall j | 0 <= j < |events| :: !Foreground(events[j])
    ensures Run(c, s, events).batch == s.batch && Handled(events) == 0
  {
    if events != [] {
      BackgroundKeepsBatch(c, s, events[..|events| - 1]);
    }
  }
}
