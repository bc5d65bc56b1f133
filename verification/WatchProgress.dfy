// No hint and no flush is left behind: when they can be, and that otherwise all
// of them are served.
module WatchProgress {
  import opened Basics
  import opened WatchScheduler
  import opened WatchSafety
  import opened WalletWatch
  import opened WatchTheorems
  import opened WatchHints
  import opened OwnedWatches

  // ---- Exactly when a drain leaves something stuck ----

  // A drain leaves the pending hints and the waiting flushes with something that
  // will look at them again if and only if the scope was current, or they had it
  // already.
  lemma DrainMovesIff(s: State, e: Env)
    requires Safe(s)
    ensures Moving(Drain(s, e)) <==> Current(s, e) || Moving(s)
  {
    DrainKeeps(s, e);
  }

  // The only step that can strand something is a drain outside the scope.
  lemma StallCause(s: State, op: Op, e: Env)
    requires Inv(s) && !s.stalled && Apply(s, op, e).stalled
    ensures Drains(s, op) && !Current(s, e)
  {
    hide Inv, Evolves, Sweep;
    if Callback(op) {
      CallbackEvolves(s, op, e);
    } else {
      match op
      case Offered(offers) => EnqueueAllQuiet(s, offers);
      case Leased(chains, offers) => EnqueueAllQuiet(Prune(s, chains), offers);
      case Fired =>
      case Finished(j) =>
      case Flushed(leased) => FlushCases(s, leased, e);
      case Halted(scope) =>
    }
  }

  // A hint that arrives while nothing runs, followed by the refresh timer at a
  // moment when the wallet may not be watched: the hint stays, with no timer and
  // no job. The next hint for any chain sets the timer again, and a flush made
  // while the scope is current leaves no hint without a job.
  lemma StrandedHint(s: State, o: Offer, e: Env, later: Offer, leased: set<ChainId>, e': Env)
    requires Inv(s) && s.running == map[] && !e.canWatch
    ensures var t := RefreshFires(Enqueue(s, o), e);
      && t.pending != [] && !t.timer && t.running == map[] && !Moving(t)
      && Enqueue(t, later).timer
      && (Current(t, e') && Flush(t, leased, e').pending != [] ==> Flush(t, leased, e').running != map[])
  {
    EnqueueKeeps(s, o);
    SetPendingFacts(s.pending, MergeOne(PendingFor(s.pending, o.chain), o));
    assert o.chain in Chains(Enqueue(s, o).pending);
    var t := RefreshFires(Enqueue(s, o), e);
    RefreshFiresKeeps(Enqueue(s, o), e);
    if Current(t, e') {
      FlushServes(t, leased, e');
    }
  }

  lemma FlushServes(s: State, leased: set<ChainId>, e: Env)
    requires Inv(s) && Current(s, e) && !s.timer
    ensures var t := Flush(s, leased, e); t.pending != [] ==> t.running != map[]
  {
    hide Inv, Safe, Sweep, Settle, Prune, Current, Flush, Drain;
    FlushCases(s, leased, e);
    JoinedKeeps(s, leased);
    JoinedSame(s, leased, e);
    DrainServes(Joined(s, leased), e);
  }

  lemma JoinedSame(s: State, leased: set<ChainId>, e: Env)
    ensures Joined(s, leased).timer == s.timer && (Current(Joined(s, leased), e) <==> Current(s, e))
  {
  }

  lemma DrainServes(s: State, e: Env)
    requires Safe(s) && Current(s, e) && !s.timer
    ensures var t := Drain(s, e); t.pending != [] ==> t.running != map[]
  {
    DrainKeeps(s, e);
    DrainMovesIff(s, e);
    SweepGrown(s, 0, e);
  }

  // From the start: an account is added and leased, which queues its catch-up,
  // and the refresh timer fires while the wallet may not be watched.
  function StrandingRun(w: Watch, e: Env): seq<(Action, Env)> {
    [(AddEntries([w], e.scope), e), (SubscribeTimer, e), (RefreshTimer, e.(canWatch := false))]
  }

  // The catch-up is stranded; a flush made while the scope is current starts it.
  lemma StrandedRun(w: Watch, e: Env)
    requires w.account && Usable(w, e) && e.canWatch && e.scope.Some?
    ensures var t := Run(START, StrandingRun(w, e));
      && t.core.pending == [Hint(w.chain, [], true, [])] && !t.core.timer && t.core.running == map[] && !Moving(t.core)
      && var u := Step(t, FlushCalled, e).core;
         u.pending == [] && u.running == map[w.chain := 0] && |u.jobs| == 1
           && u.jobs[0].hint == Hint(w.chain, [], true, [])
  {
    var run := StrandingRun(w, e);
    RunThree(run[0], run[1], run[2]);
    LeasedOne(w, e);
    hide Step, Moving, Usable;
    StrandsOne(Step(Step(START, run[0].0, e), SubscribeTimer, e), w, e);
  }

  lemma StrandsOne(v: Watcher, w: Watch, e: Env)
    requires v.core.timer && v.core.pending == [Hint(w.chain, [], true, [])] && v.core.running == map[]
      && v.core.jobs == []
    requires Current(v.core, e) && w.chain in e.enabled && v.desk.subscribed == [w]
    ensures var t := Step(v, RefreshTimer, e.(canWatch := false));
      && t.core.pending == v.core.pending && !t.core.timer && t.core.running == map[] && !Moving(t.core)
      && var u := Step(t, FlushCalled, e).core;
         u.pending == [] && u.running == map[w.chain := 0] && |u.jobs| == 1 && u.jobs[0].hint == v.core.pending[0]
  {
    hide Flush, Sweep, Settle;
    var t := Step(v, RefreshTimer, e.(canWatch := false));
    assert t == v.(core := v.core.(timer := false, stalled := true));
    FlushOne(t.core, w.chain, LeasedChains(t.desk.subscribed, e), e);
  }

  lemma RunThree(x: (Action, Env), y: (Action, Env), z: (Action, Env))
    ensures Run(START, [x, y, z]) == Step(Step(Step(START, x.0, x.1), y.0, y.1), z.0, z.1)
  {
    hide Step;
    assert Front([x, y, z]) == [x, y] && Front([x, y]) == [x] && Front([x]) == [];
    assert Run(START, []) == START;
    assert Run(START, [x]) == Step(START, x.0, x.1);
  }

  lemma AddedOne(w: Watch, e: Env)
    requires Usable(w, e) && e.scope.Some?
    ensures var t := Step(START, AddEntries([w], e.scope), e);
      && t.core == INITIAL.(session := 1, scope := e.scope)
      && t.desk == START.desk.(owned := [w], subscribeTimer := true, generation := 1)
  {
    assert Front([w]) == [];
    assert PutAll([], [], e) == [];
    assert Record(map[], map[], 0, false) == map[];
  }

  lemma LeasedOne(w: Watch, e: Env)
    requires w.account && Usable(w, e) && e.canWatch && e.scope.Some?
    ensures var t := Step(Step(START, AddEntries([w], e.scope), e), SubscribeTimer, e);
      && t.core == INITIAL.(session := 1, scope := e.scope, timer := true,
           pending := [Hint(w.chain, [], true, [])], ledger := [Entry(CatchupOffer(w.chain), Waiting)])
      && t.desk.subscribed == [w]
  {
    AddedOne(w, e);
    SelectOne(w, e);
    var v := Step(START, AddEntries([w], e.scope), e).(desk := START.desk.(owned := [w], generation := 1));
    ChangedOne(w, v.desk);
    var u := Release(v, [w], e);
    assert u.core == v.core;
    var r := Receiver(e.scope, u.desk.generation, [w], [w.chain], 0, {});
    var u' := u.(desk := u.desk.(receiver := Some(r)));
    assert Front([w.chain]) == [];
    assert CatchUp(u', r, [], e) == u';
    assert w in r.selected;
    assert CatchUp(u', r, [w.chain], e) == Queue(u', CatchupOffer(w.chain), e);
  }

  lemma SelectOne(w: Watch, e: Env)
    requires w.account && w.chain in e.enabled
    ensures Select(Enabled([w], e)) == [w]
  {
    assert [w][1..] == [];
    assert Accounts([]) == [] && Leaves([]) == [];
    assert Accounts([w]) == [w] && Leaves([w]) == [];
    assert Enabled([w], e) == [w];
    assert Sorted([w]) == [w];
  }

  lemma ChangedOne(w: Watch, d: Desk)
    requires d.subscribed == []
    ensures Changed(d, [w]) == [w.chain]
  {
    assert NotKeyed([w], set k | k in Keys(d.subscribed)) == [w];
    assert Front([w]) == [] && ChainsOf([]) == [];
  }

  lemma FlushOne(s: State, c: ChainId, leased: set<ChainId>, e: Env)
    requires Current(s, e) && s.pending == [Hint(c, [], true, [])] && s.running == map[] && s.jobs == []
    requires c in leased && c in e.enabled
    ensures var t := Flush(s, leased, e);
      t.pending == [] && t.running == map[c := 0] && |t.jobs| == 1 && t.jobs[0].hint == s.pending[0]
  {
    FlushCases(s, leased, e);
    var u := Joined(s, leased);
    assert s.pending[1..] == [];
    assert Keep(s.pending, leased) == s.pending;
    assert StartAt(u, 0).pending == [];
    assert Sweep(u, 0, e) == Sweep(StartAt(u, 0), 0, e) == StartAt(u, 0);
  }

  ghost predicate Attended(w: Watcher, a: Action, e: Env) {
    (a.RefreshTimer? && w.core.timer) || (a.Finally? && At(w.core, a.job, Finishing)) ==>
      w.core.scope.Some? ==> Current(w.core, e)
  }

  ghost predicate AttendedRun(trace: seq<(Action, Env)>) {
    trace == [] || (AttendedRun(Front(trace)) && Attended(Run(START, Front(trace)), Last(trace).0, Last(trace).1))
  }

  lemma AttendedStep(w: Watcher, a: Action, e: Env)
    requires Inv(w.core) && (w.core.scope.Some? ==> !w.core.stalled) && Attended(w, a, e)
    ensures Step(w, a, e).core.scope.Some? ==> !Step(w, a, e).core.stalled
  {
    hide Inv, Step, Apply;
    var op := StepOp(w, a, e);
    ScopeChange(w.core, op, e);
    if !w.core.stalled && Apply(w.core, op, e).stalled {
      StallCause(w.core, op, e);
    }
  }

  // While a wallet is being watched and every drain finds it current, pending
  // hints always have a timer or a job, and waiting flushes always have a job.
  lemma {:induction false} NothingStuck(trace: seq<(Action, Env)>)
    requires AttendedRun(trace)
    ensures var s := Run(START, trace).core; s.scope.Some? ==> !s.stalled && Moving(s)
  {
    RunInv(trace);
    if trace != [] {
      hide Step, Safe, Moving, Attended;
      NothingStuck(Front(trace));
      RunInv(Front(trace));
      AttendedStep(Run(START, Front(trace)), Last(trace).0, Last(trace).1);
    }
  }

  lemma ScopeChange(s: State, op: Op, e: Env)
    ensures !op.Halted? ==> Apply(s, op, e).scope == s.scope
    ensures op.Halted? ==> !Apply(s, op, e).stalled
  {
    hide Evolves, Drain, Sweep;
    if Callback(op) {
      CallbackEvolves(s, op, e);
    } else {
      match op
      case Offered(offers) => EnqueueAllQuiet(s, offers);
      case Leased(chains, offers) => EnqueueAllQuiet(Prune(s, chains), offers);
      case Fired => DrainQuiet(s.(timer := false), e);
      case Finished(j) =>
        if At(s, j, Finishing) {
          DrainQuiet(Retire(s, j), e);
        }
      case Flushed(leased) =>
        FlushCases(s, leased, e);
        DrainQuiet(Joined(s, leased), e);
      case Halted(scope) =>
    }
  }

  // ---- Everything pending is served ----

  function Rank(stage: Stage): nat {
    match stage
    case Refreshing => 4
    case Acknowledging => 3
    case Rejected => 2
    case Finishing => 1
    case Done => 0
  }

  function Ranks(jobs: seq<Job>): nat {
    if jobs == [] then 0 else Ranks(Front(jobs)) + Rank(Last(jobs).stage)
  }

  // The callbacks and refreshes still owed.
  function Work(s: State): nat {
    (if s.timer then 1 else 0) + 5 * |s.pending| + Ranks(s.jobs)
  }

  // An operation the scheduler is owed: its timer, or a job's next callback.
  ghost predicate Owed(s: State, op: Op) {
    match op
    case Fired => s.timer
    case Resolved(j) => At(s, j, Refreshing)
    case Acknowledged(j) => At(s, j, Acknowledging)
    case Threw(j) => At(s, j, Refreshing) || At(s, j, Acknowledging)
    case Caught(j) => At(s, j, Rejected)
    case Finished(j) => At(s, j, Finishing)
    case _ => false
  }

  lemma {:induction false} RanksUpdate(jobs: seq<Job>, j: nat, job: Job)
    requires j < |jobs|
    ensures Ranks(jobs[j := job]) == Ranks(jobs) - Rank(jobs[j].stage) + Rank(job.stage)
    ensures Rank(jobs[j].stage) <= Ranks(jobs)
  {
    if j == |jobs| - 1 {
      assert Front(jobs[j := job]) == Front(jobs);
    } else {
      RanksUpdate(Front(jobs), j, job);
      assert Front(jobs[j := job]) == Front(jobs)[j := job];
    }
  }

  lemma {:induction false} SweepWork(s: State, i: nat, e: Env)
    ensures Work(Sweep(s, i, e)) <= Work(s)
    decreases |s.pending| - i
  {
    if i >= |s.pending| {
    } else if s.pending[i].chain !in e.enabled {
      SweepWork(DropAt(s, i), i, e);
    } else if |s.running| >= SLOTS {
    } else if s.pending[i].chain in s.running {
      SweepWork(s, i + 1, e);
    } else {
      assert Front(StartAt(s, i).jobs) == s.jobs;
      SweepWork(StartAt(s, i), i, e);
    }
  }

  lemma DrainWork(s: State, e: Env)
    ensures Work(Settle(Drain(s, e), e)) == Work(Drain(s, e)) <= Work(s)
  {
    SweepWork(s, 0, e);
  }

  // Each owed operation leaves strictly less work.
  lemma OwedIsProgress(s: State, op: Op, e: Env)
    requires Owed(s, op)
    ensures Work(Apply(s, op, e)) < Work(s)
  {
    hide Drain, Settle;
    match op
    case Fired => DrainWork(s.(timer := false), e);
    case Resolved(j) => ResolvedWork(s, j, e);
    case Acknowledged(j) => RanksUpdate(s.jobs, j, Advance(s, j, Finishing).jobs[j]);
    case Threw(j) => RanksUpdate(s.jobs, j, Advance(s, j, Rejected).jobs[j]);
    case Caught(j) => RanksUpdate(s.jobs, j, Advance(s, j, Finishing).jobs[j]);
    case Finished(j) =>
      RanksUpdate(s.jobs, j, Retire(s, j).jobs[j]);
      DrainWork(Retire(s, j), e);
  }

  lemma ResolvedWork(s: State, j: nat, e: Env)
    requires At(s, j, Refreshing)
    ensures Work(RefreshResolves(s, j, e)) < Work(s)
  {
    hide Current, CurrentSession;
    RanksUpdate(s.jobs, j, Advance(s, j, Acknowledging).jobs[j]);
    RanksUpdate(s.jobs, j, Advance(s, j, Finishing).jobs[j]);
  }

  function ApplyAll(s: State, ops: seq<(Op, Env)>): State {
    if ops == [] then s else Apply(ApplyAll(s, Front(ops)), Last(ops).0, Last(ops).1)
  }

  // Only owed operations, each at a moment when the scope is current.
  ghost predicate OwedRun(s: State, ops: seq<(Op, Env)>) {
    ops == []
    || (OwedRun(s, Front(ops)) && Owed(ApplyAll(s, Front(ops)), Last(ops).0)
      && Current(ApplyAll(s, Front(ops)), Last(ops).1))
  }

  lemma {:induction false} OwedRunFacts(s: State, ops: seq<(Op, Env)>)
    requires Inv(s) && !s.stalled && OwedRun(s, ops)
    ensures Inv(ApplyAll(s, ops)) && !ApplyAll(s, ops).stalled
    ensures Evolves(s, ApplyAll(s, ops))
    ensures |ops| + Work(ApplyAll(s, ops)) <= Work(s)
  {
    if ops != [] {
      OwedRunFacts(s, Front(ops));
      var t, op, e := ApplyAll(s, Front(ops)), Last(ops).0, Last(ops).1;
      OwedIsProgress(t, op, e);
      ApplyKeeps(t, op, e);
      ApplyEvolves(t, op, e);
      EvolvesTransitive(s, t, Apply(t, op, e));
      if Apply(t, op, e).stalled {
        StallCause(t, op, e);
        assert false;
      }
    }
  }

  // What an offer that waits can come to under owed operations: it is handed to
  // a refresh, or dropped at a moment when its chain was disabled.
  ghost predicate Served(ops: seq<(Op, Env)>, before: Entry, after: Entry) {
    FateKept(before, after) && (before.fate == Waiting && after.fate.Dropped? ==>
      after.fate.why == Disabled && exists k :: 0 <= k < |ops| && before.offer.chain !in ops[k].1.enabled)
  }

  lemma {:induction false} OwedServes(s: State, ops: seq<(Op, Env)>, i: nat)
    requires OwedRun(s, ops) && i < |s.ledger|
    ensures i < |ApplyAll(s, ops).ledger| && Served(ops, s.ledger[i], ApplyAll(s, ops).ledger[i])
  {
    if ops != [] {
      hide Apply, Inv, Current, Sweep;
      OwedServes(s, Front(ops), i);
      var t, op, e := ApplyAll(s, Front(ops)), Last(ops).0, Last(ops).1;
      ApplyFated(t, op, e);
      assert FatedEntry(t, op, e, t.ledger[i], Apply(t, op, e).ledger[i]);
      assert forall k :: 0 <= k < |ops| - 1 ==> Front(ops)[k] == ops[k];
      assert ops[|ops| - 1].1 == e;
    }
  }

  // Let the watch run on what it is owed, in any order and with any outcomes,
  // while its scope stays current. It comes to rest within Work(s) steps, and at
  // rest nothing is pending or running, every hint that waited has been handed to
  // a refresh, unless its chain was disabled on the way, and every flush has its
  // answer.
  lemma EverythingIsServed(s: State, ops: seq<(Op, Env)>)
    requires Inv(s) && !s.stalled && OwedRun(s, ops)
    ensures |ops| <= Work(s)
    ensures var t := ApplyAll(s, ops);
      (forall op :: !Owed(t, op)) ==>
        && t.pending == [] && t.running == map[] && t.waiters == map[]
        && |s.ledger| <= |t.ledger|
        && (forall i :: 0 <= i < |t.ledger| ==> t.ledger[i].fate != Waiting)
        && (forall i :: 0 <= i < |s.ledger| ==> Served(ops, s.ledger[i], t.ledger[i]))
        && (forall w: nat :: w < s.flushes ==> w in t.verdicts)
  {
    OwedRunFacts(s, ops);
    var t := ApplyAll(s, ops);
    forall i | 0 <= i < |s.ledger| ensures Served(ops, s.ledger[i], t.ledger[i]) {
      OwedServes(s, ops, i);
    }
    if forall op :: !Owed(t, op) {
      AtRest(t);
    }
  }

  lemma AtRest(t: State)
    requires Inv(t) && !t.stalled && forall op :: !Owed(t, op)
    ensures t.pending == [] && t.running == map[] && t.waiters == map[]
    ensures forall i :: 0 <= i < |t.ledger| ==> t.ledger[i].fate != Waiting
  {
    assert !Owed(t, Fired);
    forall c | c in t.running ensures false {
      var op := SlotOwes(t, c);
    }
    assert t.running == map[];
    forall i | 0 <= i < |t.ledger| ensures t.ledger[i].fate != Waiting {
      assert EntryOk(t.ledger[i], t.pending, t.jobs);
    }
  }

  // A taken slot is owed a callback.
  lemma SlotOwes(t: State, c: ChainId) returns (op: Op)
    requires Safe(t) && c in t.running
    ensures Owed(t, op)
  {
    var j := t.running[c];
    assert SlotOk(t.jobs, t.running, t.session, c);
    match t.jobs[j].stage
    case Refreshing => op := Resolved(j);
    case Acknowledging => op := Acknowledged(j);
    case Rejected => op := Caught(j);
    case Finishing => op := Finished(j);
  }
}
