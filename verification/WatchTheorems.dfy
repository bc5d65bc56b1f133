// What holds over every run of the active-wallet watch.
module WatchTheorems {
  import opened Basics
  import opened WatchScheduler
  import opened WatchSafety
  import opened WalletWatch

  // ---- Invariants of every run ----

  lemma {:induction false} RunInv(trace: seq<(Action, Env)>)
    ensures Inv(Run(START, trace).core)
  {
    if trace != [] {
      RunInv(Front(trace));
      var w := Run(START, Front(trace));
      var op := StepOp(w, Last(trace).0, Last(trace).1);
      ApplyKeeps(w.core, op, Last(trace).1);
    }
  }

  // At most two refreshes at a time and one per chain; each unfinished job of
  // the present session holds its chain's slot and no other job holds one.
  lemma SlotsOverRuns(trace: seq<(Action, Env)>)
    ensures var s := Run(START, trace).core;
      && |s.running| <= 2
      && (forall c :: c in s.running ==> s.running[c] < |s.jobs| && s.jobs[s.running[c]].hint.chain == c)
      && (forall j :: 0 <= j < |s.jobs| ==>
            ((s.jobs[j].session == s.session && s.jobs[j].stage != Done)
             <==> (s.jobs[j].hint.chain in s.running && s.running[s.jobs[j].hint.chain] == j)))
  {
    RunInv(trace);
    var s := Run(START, trace).core;
    assert forall c :: c in s.running ==> SlotOk(s.jobs, s.running, s.session, c);
    assert forall j :: 0 <= j < |s.jobs| ==> JobOk(s.jobs[j], j, s.running, s.session, s.scope);
  }

  // ---- What no step undoes ----

  ghost predicate Evolves(s: State, t: State) {
    && s.session <= t.session && s.flushes <= t.flushes
    && |s.ledger| <= |t.ledger|
    && (forall i :: 0 <= i < |s.ledger| ==> FateKept(s.ledger[i], t.ledger[i]))
    && |s.jobs| <= |t.jobs|
    && (forall j :: 0 <= j < |s.jobs| ==> JobKept(s.jobs[j], t.jobs[j]))
    && s.acks <= t.acks
    && (forall v :: v in s.verdicts ==> v in t.verdicts && t.verdicts[v] == s.verdicts[v])
  }

  // An offer that left the pending map never comes back and never moves again.
  ghost predicate FateKept(a: Entry, b: Entry) {
    a.offer == b.offer && (a.fate == Waiting || a.fate == b.fate)
  }

  ghost predicate JobKept(a: Job, b: Job) {
    && a.hint == b.hint && a.session == b.session && a.expected == b.expected
    && (a.refreshed ==> b.refreshed) && (a.stage == Done ==> b.stage == Done)
  }

  lemma EvolvesTransitive(s: State, t: State, u: State)
    requires Evolves(s, t) && Evolves(t, u)
    ensures Evolves(s, u)
  {
    forall i | 0 <= i < |s.ledger| ensures FateKept(s.ledger[i], u.ledger[i]) {
      assert FateKept(s.ledger[i], t.ledger[i]) && FateKept(t.ledger[i], u.ledger[i]);
    }
    forall j | 0 <= j < |s.jobs| ensures JobKept(s.jobs[j], u.jobs[j]) {
      assert JobKept(s.jobs[j], t.jobs[j]) && JobKept(t.jobs[j], u.jobs[j]);
    }
  }

  lemma {:induction false} SweepEvolves(s: State, i: nat, e: Env)
    ensures Evolves(s, Sweep(s, i, e))
    decreases |s.pending| - i
  {
    if i >= |s.pending| {
    } else if s.pending[i].chain !in e.enabled {
      DropEvolves(s, i);
      hide Evolves, DropAt;
      SweepEvolves(DropAt(s, i), i, e);
      EvolvesTransitive(s, DropAt(s, i), Sweep(s, i, e));
    } else if |s.running| >= SLOTS {
    } else if s.pending[i].chain in s.running {
      SweepEvolves(s, i + 1, e);
    } else {
      StartEvolves(s, i);
      hide Evolves, StartAt;
      SweepEvolves(StartAt(s, i), i, e);
      EvolvesTransitive(s, StartAt(s, i), Sweep(s, i, e));
    }
  }

  lemma DropEvolves(s: State, i: nat)
    requires i < |s.pending|
    ensures Evolves(s, DropAt(s, i))
    ensures |DropAt(s, i).pending| == |s.pending| - 1
  {
  }

  lemma StartEvolves(s: State, i: nat)
    requires i < |s.pending|
    ensures Evolves(s, StartAt(s, i))
    ensures |StartAt(s, i).pending| == |s.pending| - 1
  {
  }

  lemma SettleEvolves(s: State, e: Env)
    requires Safe(s)
    ensures Evolves(s, Settle(s, e))
  {
    hide Slots, Booked, Acked, Record;
  }

  lemma DrainEvolves(s: State, e: Env)
    requires Safe(s)
    ensures Evolves(s, Drain(s, e))
  {
    if Current(s, e) {
      SweepEvolves(s, 0, e);
      SweepSafe(s, 0, e);
      SettleEvolves(Sweep(s, 0, e).(stalled := false), e);
      EvolvesTransitive(s, Sweep(s, 0, e).(stalled := false), Drain(s, e));
    }
  }

  lemma {:induction false} EnqueueAllEvolves(s: State, offers: seq<Offer>)
    ensures Evolves(s, EnqueueAll(s, offers))
  {
    if offers != [] {
      EnqueueAllEvolves(s, Front(offers));
      var t := EnqueueAll(s, Front(offers));
      EvolvesTransitive(s, t, Enqueue(t, Last(offers)));
    }
  }

  lemma RetireEvolves(s: State, j: nat)
    requires At(s, j, Finishing)
    ensures Evolves(s, Retire(s, j))
  {
  }

  lemma FinallyEvolves(s: State, j: nat, e: Env)
    requires Safe(s)
    ensures Evolves(s, FinallyRuns(s, j, e))
  {
    EvolvesReflexive(s);
    if At(s, j, Finishing) {
      hide Drain, Settle, Retire, Evolves, Safe;
      RetireEvolves(s, j);
      RetireSafe(s, j);
      DrainEvolves(Retire(s, j), e);
      DrainSafe(Retire(s, j), e);
      SettleEvolves(Drain(Retire(s, j), e), e);
      EvolvesTransitive(Retire(s, j), Drain(Retire(s, j), e), FinallyRuns(s, j, e));
      EvolvesTransitive(s, Retire(s, j), FinallyRuns(s, j, e));
    }
  }

  lemma EvolvesReflexive(s: State)
    ensures Evolves(s, s)
  {
  }

  lemma DrainSafe(s: State, e: Env)
    requires Safe(s)
    ensures Safe(Drain(s, e))
  {
    hide Drain, Slots, Booked, Acked;
    DrainKeeps(s, e);
  }

  lemma PruneEvolves(s: State, chains: set<ChainId>)
    ensures Evolves(s, Prune(s, chains))
  {
  }

  lemma JoinedKeeps(s: State, leased: set<ChainId>)
    requires Inv(s)
    ensures Safe(Joined(s, leased)) && Evolves(s, Joined(s, leased))
  {
    PruneKeeps(s, leased);
    PruneEvolves(s, leased);
    FlushIssued(Prune(s, leased), Joined(s, leased));
  }

  lemma FlushEvolves(s: State, leased: set<ChainId>, e: Env)
    requires Inv(s)
    ensures Evolves(s, Flush(s, leased, e))
  {
    FlushCases(s, leased, e);
    var p := Prune(s, leased);
    EvolvesReflexive(s);
    AnswerEvolves(s, s, false);
    PruneEvolves(s, leased);
    AnswerEvolves(s, p, p.failed == {});
    JoinedKeeps(s, leased);
    hide Evolves, Inv, Safe, Drain, Joined, Prune, Flush;
    if Current(s, e) && !(p.pending == [] && p.running == map[]) {
      DrainEvolves(Joined(s, leased), e);
      EvolvesTransitive(s, Joined(s, leased), Drain(Joined(s, leased), e));
    }
  }

  // A flush answered at once.
  lemma AnswerEvolves(s: State, t: State, ok: bool)
    requires Inv(s) && Evolves(s, t)
    ensures Evolves(s, t.(flushes := s.flushes + 1, verdicts := s.verdicts[s.flushes := ok]))
  {
    hide Slots, Booked, Acked, FateKept, JobKept;
  }

  lemma FiredEvolves(s: State, e: Env)
    requires Inv(s)
    ensures Evolves(s, RefreshFires(s, e))
  {
    if s.timer {
      DrainEvolves(s.(timer := false), e);
      EvolvesTransitive(s, s.(timer := false), Drain(s.(timer := false), e));
    }
  }

  lemma StopEvolves(s: State, scope: Option<Scope>)
    requires Inv(s)
    ensures Evolves(s, Stop(s).(scope := scope))
  {
    hide Slots, Booked, Acked, Record, Chains;
  }

  predicate Callback(op: Op) {
    op.Resolved? || op.Acknowledged? || op.Threw? || op.Caught?
  }

  // The callbacks before the last one touch one job, the failed set and the
  // acknowledgements only.
  lemma CallbackEvolves(s: State, op: Op, e: Env)
    requires Callback(op)
    ensures Evolves(s, Apply(s, op, e))
    ensures Framed(s, Apply(s, op, e))
  {
    match op
    case Resolved(j) => ResolvesEvolves(s, j, e);
    case Acknowledged(j) => AckResolvesEvolves(s, j, e);
    case Threw(j) => RejectsEvolves(s, j);
    case Caught(j) => CatchEvolves(s, j, e);
  }

  ghost predicate Framed(s: State, t: State) {
    t.(jobs := s.jobs, failed := s.failed, acks := s.acks) == s
  }

  lemma ResolvesEvolves(s: State, j: nat, e: Env)
    ensures Evolves(s, RefreshResolves(s, j, e)) && Framed(s, RefreshResolves(s, j, e))
  {
    if At(s, j, Refreshing) {
      if MayAck(s, j, e) {
        AdvanceEvolves(s, j, Acknowledging);
      } else {
        SucceedEvolves(s, j, e);
      }
    }
  }

  lemma AckResolvesEvolves(s: State, j: nat, e: Env)
    ensures Evolves(s, AckResolves(s, j, e)) && Framed(s, AckResolves(s, j, e))
  {
    if At(s, j, Acknowledging) {
      SucceedEvolves(s, j, e);
    }
  }

  lemma RejectsEvolves(s: State, j: nat)
    ensures Evolves(s, Rejects(s, j)) && Framed(s, Rejects(s, j))
  {
    if At(s, j, Refreshing) || At(s, j, Acknowledging) {
      AdvanceEvolves(s, j, Rejected);
    }
  }

  lemma CatchEvolves(s: State, j: nat, e: Env)
    ensures Evolves(s, CatchRuns(s, j, e)) && Framed(s, CatchRuns(s, j, e))
  {
    if At(s, j, Rejected) {
      AdvanceEvolves(s, j, Finishing);
    }
  }

  lemma SucceedEvolves(s: State, j: nat, e: Env)
    requires j < |s.jobs| && s.jobs[j].stage != Done
    ensures Evolves(s, Succeed(s, j, e)) && Framed(s, Succeed(s, j, e))
  {
    AdvanceEvolves(s, j, Finishing);
  }

  lemma AdvanceEvolves(s: State, j: nat, stage: Stage)
    requires j < |s.jobs| && s.jobs[j].stage != Done
    ensures Evolves(s, Advance(s, j, stage)) && Framed(s, Advance(s, j, stage))
  {
  }

  lemma ApplyEvolves(s: State, op: Op, e: Env)
    requires Inv(s)
    ensures Evolves(s, Apply(s, op, e))
  {
    hide Evolves, Drain, Prune, Enqueue, EnqueueAll, RefreshFires, FinallyRuns, Flush, RefreshResolves, AckResolves,
      Rejects, CatchRuns;
    hide Slots, Booked, Acked, Flushes;
    if Callback(op) {
      CallbackEvolves(s, op, e);
    } else {
      match op
      case Offered(offers) => EnqueueAllEvolves(s, offers);
      case Leased(chains, offers) =>
        PruneEvolves(s, chains);
        EnqueueAllEvolves(Prune(s, chains), offers);
        EvolvesTransitive(s, Prune(s, chains), EnqueueAll(Prune(s, chains), offers));
      case Fired => FiredEvolves(s, e);
      case Finished(j) => FinallyEvolves(s, j, e);
      case Flushed(leased) => FlushEvolves(s, leased, e);
      case Halted(scope) => StopEvolves(s, scope);
    }
  }

  // Over any continuation of any run: fates, acknowledgements and verdicts once
  // given stay given.
  lemma {:induction false} HistoryIsFinal(before: seq<(Action, Env)>, after: seq<(Action, Env)>)
    ensures Evolves(Run(START, before).core, Run(START, before + after).core)
  {
    var s := Run(START, before).core;
    if after == [] {
      assert before + after == before;
    } else {
      HistoryIsFinal(before, Front(after));
      RunInv(before + Front(after));
      assert Front(before + after) == before + Front(after) && Last(before + after) == Last(after);
      var w := Run(START, before + Front(after));
      var op := StepOp(w, Last(after).0, Last(after).1);
      ApplyEvolves(w.core, op, Last(after).1);
      EvolvesTransitive(s, w.core, Run(START, before + after).core);
    }
  }

  // ---- Sessions ----

  // The callbacks of a job from before a stop change neither the failed set nor
  // the acknowledgements, and free no slot: all they may do is start work that
  // was pending anyway.
  lemma StaleJobIsHarmless(s: State, op: Op, e: Env)
    requires Inv(s)
    requires Callback(op) || op.Finished?
    requires op.job < |s.jobs| && s.jobs[op.job].session != s.session
    ensures var t := Apply(s, op, e);
      && t.failed == s.failed && t.acks == s.acks && t.session == s.session && t.scope == s.scope
      && (forall c :: c in s.running ==> c in t.running && t.running[c] == s.running[c])
    ensures Callback(op) ==> Apply(s, op, e).(jobs := s.jobs) == s
  {
    if Callback(op) {
      CallbackEvolves(s, op, e);
      StaleCallback(s, op, e);
    } else if At(s, op.job, Finishing) {
      StaleFinish(s, op.job, e);
    }
  }

  lemma StaleCallback(s: State, op: Op, e: Env)
    requires Callback(op)
    requires op.job < |s.jobs| && s.jobs[op.job].session != s.session
    ensures Apply(s, op, e).failed == s.failed && Apply(s, op, e).acks == s.acks
  {
  }

  lemma StaleFinish(s: State, j: nat, e: Env)
    requires Inv(s) && At(s, j, Finishing) && s.jobs[j].session != s.session
    ensures var t := FinallyRuns(s, j, e);
      && t.failed == s.failed && t.acks == s.acks && t.session == s.session && t.scope == s.scope
      && (forall c :: c in s.running ==> c in t.running && t.running[c] == s.running[c])
  {
    var u := Retire(s, j);
    StaleHoldsNoSlot(s, j);
    RetireSafe(s, j);
    DrainKeeps(u, e);
    DrainQuiet(u, e);
    assert Settle(Drain(u, e), e).running == Drain(u, e).running;
  }

  lemma StaleHoldsNoSlot(s: State, j: nat)
    requires Inv(s) && j < |s.jobs| && s.jobs[j].session != s.session
    ensures Retire(s, j).running == s.running
  {
    var c := s.jobs[j].hint.chain;
    if c in s.running {
      assert SlotOk(s.jobs, s.running, s.session, c);
    }
  }

  // drain and settle send no acknowledgement.
  lemma DrainQuiet(s: State, e: Env)
    ensures var t := Drain(s, e);
      && t.acks == s.acks && t.failed == s.failed && t.session == s.session && t.scope == s.scope
      && Settle(t, e).(verdicts := t.verdicts, waiters := t.waiters) == t
  {
    SweepGrown(s, 0, e);
  }

  // Job j is of the present session, at a moment when the wallet being watched
  // may be.
  ghost predicate Present(s: State, j: nat, e: Env) {
    j < |s.jobs| && s.jobs[j].session == s.session && e.canWatch && s.scope.Some? && e.scope == s.scope
  }

  lemma PresentIs(s: State, j: nat, e: Env)
    requires Inv(s) && j < |s.jobs| && s.jobs[j].stage != Done
    ensures CurrentSession(s, s.jobs[j], e) <==> Present(s, j, e)
    ensures Present(s, j, e) ==> s.jobs[j].expected == s.scope
  {
    hide Booked, Acked, Flushes, Moving;
    assert JobOk(s.jobs[j], j, s.running, s.session, s.scope);
  }

  // The refresh of a hint with event ids resolves while its job is present and
  // its chain enabled.
  ghost predicate Acks(s: State, op: Op, e: Env) {
    op.Resolved? && Present(s, op.job, e) && s.jobs[op.job].stage == Refreshing
    && s.jobs[op.job].hint.eventIds != [] && s.jobs[op.job].hint.chain in e.enabled
  }

  // An acknowledgement is sent exactly then, with the hint's own event ids and
  // the present scope; no other step sends one.
  lemma AckFollowsRefresh(s: State, op: Op, e: Env)
    requires Inv(s)
    ensures Apply(s, op, e).acks == s.acks
      + if Acks(s, op, e) then [Ack(op.job, s.jobs[op.job].hint.eventIds, e.scope.value)] else []
  {
    hide Inv;
    match op
    case Offered(offers) => EnqueueAllQuiet(s, offers);
    case Leased(chains, offers) => EnqueueAllQuiet(Prune(s, chains), offers);
    case Fired => DrainQuiet(s.(timer := false), e);
    case Resolved(j) => ResolvedAck(s, j, e);
    case Acknowledged(j) =>
    case Threw(j) =>
    case Caught(j) =>
    case Finished(j) =>
      if At(s, j, Finishing) {
        DrainQuiet(Retire(s, j), e);
      }
    case Flushed(leased) =>
      FlushCases(s, leased, e);
      DrainQuiet(Joined(s, leased), e);
    case Halted(scope) =>
  }

  lemma ResolvedAck(s: State, j: nat, e: Env)
    requires Inv(s)
    ensures RefreshResolves(s, j, e).acks == s.acks
      + if Acks(s, Resolved(j), e) then [Ack(j, s.jobs[j].hint.eventIds, e.scope.value)] else []
  {
    if At(s, j, Refreshing) {
      PresentIs(s, j, e);
    }
    hide Inv, Present, CurrentSession;
    assert s.acks + [] == s.acks;
  }

  lemma {:induction false} EnqueueAllQuiet(s: State, offers: seq<Offer>)
    ensures var t := EnqueueAll(s, offers);
      t.(pending := s.pending, ledger := s.ledger, timer := s.timer) == s
  {
    if offers != [] {
      EnqueueAllQuiet(s, Front(offers));
    }
  }

  // ---- Flush ----

  // Nothing is left to do, no chain has failed, and the wallet being watched may be.
  ghost predicate Quiet(t: State, e: Env) {
    && t.pending == [] && t.running == map[] && t.failed == {}
    && e.canWatch && t.scope.Some? && e.scope == t.scope
  }

  // A flush is answered in the session it was asked in, and true exactly when
  // nothing is pending, nothing is running and no chain has failed, under the
  // present scope; only a stop answers false whatever holds.
  lemma FlushTrueMeansQuiet(s: State, op: Op, e: Env, v: nat)
    requires Inv(s)
    requires v in Apply(s, op, e).verdicts && v !in s.verdicts
    ensures Apply(s, op, e).verdicts[v] <==> !op.Halted? && Quiet(Apply(s, op, e), e)
    ensures if v in s.waiters then s.waiters[v] == s.session else op.Flushed? && v == s.flushes
    ensures Apply(s, op, e).session == s.session || op.Halted?
  {
    hide Slots, Booked, Acked, Flushes, Moving, Quiet, Drain, FinallyRuns, RefreshFires, Flush, Stop, Enqueue;
    if Callback(op) {
      CallbackEvolves(s, op, e);
      assert false;
    } else {
      match op
      case Offered(offers) => EnqueueAllQuiet(s, offers); assert false;
      case Leased(chains, offers) => EnqueueAllQuiet(Prune(s, chains), offers); assert false;
      case Fired => FiredVerdict(s, e, v);
      case Finished(j) => FinallyTrue(s, j, e, v);
      case Flushed(leased) => FlushedVerdict(s, leased, e, v);
      case Halted(scope) => HaltedVerdict(s, v);
    }
  }

  lemma FiredVerdict(s: State, e: Env, v: nat)
    requires Flushes(s.waiters, s.verdicts, s.flushes, s.session)
    requires v in RefreshFires(s, e).verdicts && v !in s.verdicts
    ensures RefreshFires(s, e).verdicts[v] <==> Quiet(RefreshFires(s, e), e)
    ensures v in s.waiters && s.waiters[v] == s.session && RefreshFires(s, e).session == s.session
  {
    hide Drain, Flushes, Quiet;
    SettleTrue(s.(timer := false), e, v);
  }

  lemma FlushedVerdict(s: State, leased: set<ChainId>, e: Env, v: nat)
    requires Flushes(s.waiters, s.verdicts, s.flushes, s.session)
    requires v in Flush(s, leased, e).verdicts && v !in s.verdicts
    ensures Flush(s, leased, e).verdicts[v] <==> Quiet(Flush(s, leased, e), e)
    ensures if v in s.waiters then s.waiters[v] == s.session else v == s.flushes
    ensures Flush(s, leased, e).session == s.session
  {
    hide Drain, Refate, Keep;
    FlushCases(s, leased, e);
    var p := Prune(s, leased);
    if Current(s, e) && (p.pending != [] || p.running != map[]) {
      hide Quiet;
      SettleTrue(Joined(s, leased), e, v);
    }
  }

  lemma HaltedVerdict(s: State, v: nat)
    requires Flushes(s.waiters, s.verdicts, s.flushes, s.session)
    requires v in Stop(s).verdicts && v !in s.verdicts
    ensures v in s.waiters && s.waiters[v] == s.session && !Stop(s).verdicts[v]
  {
  }

  lemma SettleTrue(s: State, e: Env, v: nat)
    requires Flushes(s.waiters, s.verdicts, s.flushes, s.session)
    requires v in Drain(s, e).verdicts && v !in s.verdicts
    ensures Drain(s, e).verdicts[v] <==> Quiet(Drain(s, e), e)
    ensures v in s.waiters && s.waiters[v] == s.session && Drain(s, e).session == s.session
  {
    SweepGrown(s, 0, e);
  }

  lemma FinallyTrue(s: State, j: nat, e: Env, v: nat)
    requires Flushes(s.waiters, s.verdicts, s.flushes, s.session)
    requires v in FinallyRuns(s, j, e).verdicts && v !in s.verdicts
    ensures FinallyRuns(s, j, e).verdicts[v] <==> Quiet(FinallyRuns(s, j, e), e)
    ensures v in s.waiters && s.waiters[v] == s.session && FinallyRuns(s, j, e).session == s.session
  {
    var u := Retire(s, j);
    if Current(u, e) {
      SweepGrown(u, 0, e);
      SettleTwice(Sweep(u, 0, e).(stalled := false), e);
      SettleTrue(u, e, v);
    }
  }

  lemma SettleTwice(s: State, e: Env)
    ensures Settle(Settle(s, e), e) == Settle(s, e)
  {
    var t := Settle(s, e);
    if t != s {
      assert Record(t.verdicts, map[], t.session, Current(t, e) && t.failed == {}) == t.verdicts;
    }
  }

  // stop answers every waiting flush with false and leaves none waiting.
  lemma StopAnswersEveryFlush(s: State, scope: Option<Scope>, e: Env, w: nat)
    requires Inv(s) && w < s.flushes
    ensures var t := Apply(s, Halted(scope), e);
      && t.waiters == map[] && w in t.verdicts
      && t.verdicts[w] == if w in s.waiters then false else s.verdicts[w]
  {
    hide Slots, Booked, Acked, Refate, Chains, Record;
  }
}
