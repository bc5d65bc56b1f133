// Where every offered hint goes: waiting, handed to a refresh, or dropped, and
// then for what.
module WatchHints {
  import opened Basics
  import opened WatchScheduler
  import opened WatchSafety
  import opened WalletWatch
  import opened WatchTheorems

  // ---- Conservation ----

  // The hint an offer's fate puts it in, if any.
  ghost predicate Carried(o: Offer, h: Hint) {
    && h.chain == o.chain
    && (o.txid.Some? ==> o.txid.value in h.txids)
    && (o.eventId.Some? ==> o.eventId.value in h.eventIds)
    && (h.catchup ==> o.catchup)
  }

  // h is the duplicate-free union of the offers with that fate, and a catch-up
  // exactly when all of them were.
  ghost predicate Brought(h: Hint, ledger: seq<Entry>, f: Fate) {
    && Distinct(h.txids) && Distinct(h.eventIds)
    && (forall x ::
      x in h.txids
      <==> exists i :: 0 <= i < |ledger| && Brings(ledger[i], h.chain, f) && ledger[i].offer.txid == Some(x))
    && (forall x ::
      x in h.eventIds
      <==> exists i :: 0 <= i < |ledger| && Brings(ledger[i], h.chain, f) && ledger[i].offer.eventId == Some(x))
    && (h.catchup <==> forall i :: 0 <= i < |ledger| && Brings(ledger[i], h.chain, f) ==> ledger[i].offer.catchup)
  }

  predicate Brings(e: Entry, c: ChainId, f: Fate) {
    e.fate == f && e.offer.chain == c
  }

  lemma HintBrought(h: Hint, ledger: seq<Entry>, f: Fate)
    requires HintOf(h, ledger, f)
    ensures Brought(h, ledger, f)
  {
    var picked := Picked(ledger, h.chain, f);
    MergedMeaning(h.chain, picked);
    PickedMember(ledger, h.chain, f);
    forall o | o in picked ensures exists i ::
      0 <= i < |ledger| && Brings(ledger[i], h.chain, f) && ledger[i].offer == o {
      var i :| 0 <= i < |ledger| && ledger[i] == Entry(o, f) && o.chain == h.chain;
      assert Brings(ledger[i], h.chain, f);
    }
  }

  lemma OfferCarried(s: State, i: nat)
    requires Safe(s) && i < |s.ledger|
    ensures var en := s.ledger[i];
      && (en.fate.Waiting? ==> exists k :: 0 <= k < |s.pending| && Carried(en.offer, s.pending[k]))
      && (en.fate.Handed? ==> en.fate.job < |s.jobs| && Carried(en.offer, s.jobs[en.fate.job].hint))
  {
    var en := s.ledger[i];
    assert EntryOk(en, s.pending, s.jobs);
    assert Brings(en, en.offer.chain, en.fate);
    match en.fate
    case Waiting =>
      var k :| 0 <= k < |s.pending| && s.pending[k].chain == en.offer.chain;
      HintBrought(s.pending[k], s.ledger, Waiting);
    case Handed(j) => HintBrought(s.jobs[j].hint, s.ledger, Handed(j));
    case Dropped(_) =>
  }

  // ---- Drops ----

  predicate Drains(s: State, op: Op) {
    (op.Fired? && s.timer) || (op.Finished? && At(s, op.job, Finishing))
  }

  // What an operation must be to drop a waiting hint of chain c.
  ghost predicate DropCause(s: State, op: Op, e: Env, c: ChainId, why: Reason) {
    match why
    case Stopped => op.Halted?
    case Disabled => (Drains(s, op) || op.Flushed?) && Current(s, e) && c !in e.enabled
    case Unleased => (op.Leased? && c !in op.chains) || (op.Flushed? && Current(s, e) && c !in op.leased)
  }

  // From one ledger to a later one, every offer keeps its fate, or was waiting
  // and is dropped for a cause that holds or handed over; what is new waits.
  ghost predicate Fated(s: State, op: Op, e: Env, l: seq<Entry>, l': seq<Entry>) {
    && |l| <= |l'|
    && (forall i :: 0 <= i < |l| ==> FatedEntry(s, op, e, l[i], l'[i]))
    && (forall i :: |l| <= i < |l'| ==> l'[i].fate == Waiting)
  }

  ghost predicate FatedEntry(s: State, op: Op, e: Env, a: Entry, b: Entry) {
    FateKept(a, b) && (b.fate.Dropped? && a.fate == Waiting ==> DropCause(s, op, e, a.offer.chain, b.fate.why))
  }

  lemma FatedTransitive(s: State, op: Op, e: Env, l: seq<Entry>, m: seq<Entry>, n: seq<Entry>)
    requires Fated(s, op, e, l, m) && Fated(s, op, e, m, n) && |l| == |m|
    ensures Fated(s, op, e, l, n)
  {
    hide DropCause;
    assert forall i :: 0 <= i < |l| ==> FatedEntry(s, op, e, l[i], m[i]) && FatedEntry(s, op, e, m[i], n[i]);
  }

  lemma FatedReflexive(s: State, op: Op, e: Env, l: seq<Entry>)
    ensures Fated(s, op, e, l, l)
  {
  }

  lemma RefateFated(s: State, op: Op, e: Env, l: seq<Entry>, chains: set<ChainId>, f: Fate)
    requires f.Dropped? ==> forall c :: c in chains ==> DropCause(s, op, e, c, f.why)
    ensures Fated(s, op, e, l, Refate(l, chains, f))
  {
    hide DropCause;
  }

  // A drain may drop the hints of the chains that are disabled.
  ghost predicate MayDisable(s: State, op: Op, e: Env) {
    forall c :: c !in e.enabled ==> DropCause(s, op, e, c, Disabled)
  }

  lemma {:induction false} SweepFated(s: State, op: Op, e: Env, u: State, i: nat)
    requires MayDisable(s, op, e)
    ensures Fated(s, op, e, u.ledger, Sweep(u, i, e).ledger)
    ensures |Sweep(u, i, e).ledger| == |u.ledger|
    decreases |u.pending| - i
  {
    hide Fated, DropCause;
    FatedReflexive(s, op, e, u.ledger);
    if i >= |u.pending| {
    } else if u.pending[i].chain !in e.enabled {
      RefateFated(s, op, e, u.ledger, {u.pending[i].chain}, Dropped(Disabled));
      SweepFated(s, op, e, DropAt(u, i), i);
      FatedTransitive(s, op, e, u.ledger, DropAt(u, i).ledger, Sweep(u, i, e).ledger);
    } else if |u.running| >= SLOTS {
    } else if u.pending[i].chain in u.running {
      SweepFated(s, op, e, u, i + 1);
    } else {
      RefateFated(s, op, e, u.ledger, {u.pending[i].chain}, Handed(|u.jobs|));
      SweepFated(s, op, e, StartAt(u, i), i);
      FatedTransitive(s, op, e, u.ledger, StartAt(u, i).ledger, Sweep(u, i, e).ledger);
    }
  }

  lemma DrainFated(s: State, op: Op, e: Env, u: State)
    requires Current(u, e) ==> MayDisable(s, op, e)
    ensures Fated(s, op, e, u.ledger, Drain(u, e).ledger)
    ensures Settle(Drain(u, e), e).ledger == Drain(u, e).ledger
  {
    hide Fated, Sweep, DropCause;
    FatedReflexive(s, op, e, u.ledger);
    if Current(u, e) {
      SweepFated(s, op, e, u, 0);
    }
  }

  lemma {:induction false} EnqueueAllFated(s: State, op: Op, e: Env, u: State, offers: seq<Offer>)
    ensures Fated(s, op, e, u.ledger, EnqueueAll(u, offers).ledger)
  {
    hide DropCause;
    if offers != [] {
      EnqueueAllFated(s, op, e, u, Front(offers));
      var m := EnqueueAll(u, Front(offers)).ledger;
      assert EnqueueAll(u, offers).ledger == m + [Entry(Last(offers), Waiting)];
    }
  }

  lemma LeasedFated(s: State, op: Op, e: Env)
    requires op.Leased?
    ensures Fated(s, op, e, s.ledger, Apply(s, op, e).ledger)
  {
    hide Fated;
    var p := Prune(s, op.chains);
    RefateFated(s, op, e, s.ledger, Chains(s.pending) - op.chains, Dropped(Unleased));
    EnqueueAllFated(s, op, e, p, op.offers);
    FatedTransitive(s, op, e, s.ledger, p.ledger, Apply(s, op, e).ledger);
  }

  lemma FlushedFated(s: State, op: Op, e: Env)
    requires op.Flushed?
    ensures Fated(s, op, e, s.ledger, Apply(s, op, e).ledger)
  {
    hide Fated, Drain;
    FlushCases(s, op.leased, e);
    FatedReflexive(s, op, e, s.ledger);
    if Current(s, e) {
      var p := Prune(s, op.leased);
      RefateFated(s, op, e, s.ledger, Chains(s.pending) - op.leased, Dropped(Unleased));
      DrainFated(s, op, e, Joined(s, op.leased));
      FatedTransitive(s, op, e, s.ledger, p.ledger, Drain(Joined(s, op.leased), e).ledger);
    }
  }

  // One step moves an offer out of the pending map only into a refresh or for a
  // cause that holds.
  lemma ApplyFated(s: State, op: Op, e: Env)
    ensures Fated(s, op, e, s.ledger, Apply(s, op, e).ledger)
  {
    hide Fated, Drain, Evolves, EnqueueAll;
    FatedReflexive(s, op, e, s.ledger);
    if Callback(op) {
      CallbackEvolves(s, op, e);
    } else {
      match op
      case Offered(offers) => EnqueueAllFated(s, op, e, s, offers);
      case Leased(chains, offers) => LeasedFated(s, op, e);
      case Fired =>
        if s.timer {
          DrainFated(s, op, e, s.(timer := false));
        }
      case Finished(j) =>
        if At(s, j, Finishing) {
          DrainFated(s, op, e, Retire(s, j));
        }
      case Flushed(leased) => FlushedFated(s, op, e);
      case Halted(scope) => RefateFated(s, op, e, s.ledger, Chains(s.pending), Dropped(Stopped));
    }
  }

  // ---- Over runs ----

  // What a step of the watch must be to drop a waiting hint of chain c: a stop,
  // by itself or for a new wallet; a drain that finds the chain disabled; or a
  // lease change or a flush that finds no leased address on an enabled chain c.
  ghost predicate Drops(w: Watcher, a: Action, e: Env, c: ChainId, why: Reason) {
    match why
    case Stopped => a.StopCalled? || Rescopes(w, a, e)
    case Disabled =>
      && e.canWatch && w.core.scope.Some? && e.scope == w.core.scope && c !in e.enabled
      && ((a.RefreshTimer? && w.core.timer) || (a.Finally? && At(w.core, a.job, Finishing)) || a.FlushCalled?)
    case Unleased =>
      && (a.SubscribeTimer? || a.FlushCalled?) && !Leases(Step(w, a, e).desk, e, c)
      && e.canWatch && w.core.scope.Some? && e.scope == w.core.scope
  }

  lemma StepDrops(w: Watcher, a: Action, e: Env, i: nat)
    requires i < |Step(w, a, e).core.ledger| && Step(w, a, e).core.ledger[i].fate.Dropped?
    ensures i < |w.core.ledger| && Step(w, a, e).core.ledger[i].offer == w.core.ledger[i].offer
    ensures w.core.ledger[i] != Step(w, a, e).core.ledger[i]
      ==> Drops(w, a, e, w.core.ledger[i].offer.chain, Step(w, a, e).core.ledger[i].fate.why)
  {
    hide Apply, LeasedChains, Leases, Rescopes;
    var op := StepOp(w, a, e);
    ApplyFated(w.core, op, e);
    FlushKeepsLease(w, e);
    if i < |w.core.ledger| {
      LeasesIs(Step(w, a, e).desk, e, w.core.ledger[i].offer.chain);
    }
    if w.core.ledger[i] != Step(w, a, e).core.ledger[i] {
      assert FatedEntry(w.core, op, e, w.core.ledger[i], Step(w, a, e).core.ledger[i]);
    }
  }

  lemma FlushKeepsLease(w: Watcher, e: Env)
    ensures Step(w, FlushCalled, e).desk == w.desk
  {
  }

  // The offer was dropped at a step of the run, for a cause that held there.
  ghost predicate DroppedAt(trace: seq<(Action, Env)>, k: int, c: ChainId, why: Reason) {
    0 <= k < |trace| && Drops(Run(START, trace[..k]), trace[k].0, trace[k].1, c, why)
  }

  lemma {:induction false} DropHasCause(trace: seq<(Action, Env)>, i: nat) returns (k: nat)
    requires i < |Run(START, trace).core.ledger| && Run(START, trace).core.ledger[i].fate.Dropped?
    ensures DroppedAt(trace, k, Run(START, trace).core.ledger[i].offer.chain, Run(START, trace).core.ledger[i].fate.why)
  {
    hide Step, Drops;
    var before := Front(trace);
    var w := Run(START, before);
    StepDrops(w, Last(trace).0, Last(trace).1, i);
    if w.core.ledger[i] == Run(START, trace).core.ledger[i] {
      k := DropHasCause(before, i);
      assert trace[..k] == before[..k];
    } else {
      k := |trace| - 1;
    }
  }

  // Where an offer is at the end of a run.
  ghost predicate Accounted(trace: seq<(Action, Env)>, s: State, en: Entry) {
    match en.fate
    case Waiting => exists k :: 0 <= k < |s.pending| && Carried(en.offer, s.pending[k])
    case Handed(j) => j < |s.jobs| && Carried(en.offer, s.jobs[j].hint)
    case Dropped(why) => exists k :: DroppedAt(trace, k, en.offer.chain, why)
  }

  // Every accepted offer is carried by its chain's pending hint, was carried by
  // the hint handed to one refresh, or was dropped at a step with cause to; and
  // a hint holds nothing that no offer brought.
  lemma HintsConserved(trace: seq<(Action, Env)>)
    ensures var s := Run(START, trace).core;
      && (forall i :: 0 <= i < |s.ledger| ==> Accounted(trace, s, s.ledger[i]))
      && (forall k :: 0 <= k < |s.pending| ==> Brought(s.pending[k], s.ledger, Waiting))
      && (forall j :: 0 <= j < |s.jobs| ==> Brought(s.jobs[j].hint, s.ledger, Handed(j)))
  {
    RunInv(trace);
    hide Run, Brought, Carried;
    var s := Run(START, trace).core;
    forall i | 0 <= i < |s.ledger| ensures Accounted(trace, s, s.ledger[i]) {
      if s.ledger[i].fate.Dropped? {
        var k := DropHasCause(trace, i);
      } else {
        OfferCarried(s, i);
      }
    }
    forall k | 0 <= k < |s.pending| ensures Brought(s.pending[k], s.ledger, Waiting) {
      HintBrought(s.pending[k], s.ledger, Waiting);
    }
    forall j | 0 <= j < |s.jobs| ensures Brought(s.jobs[j].hint, s.ledger, Handed(j)) {
      HintBrought(s.jobs[j].hint, s.ledger, Handed(j));
    }
  }
}
