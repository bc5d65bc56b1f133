// What a drain starts, and what stops, lease changes and flushes clear away.
module WatchDrains {
  import opened Basics
  import opened WatchScheduler
  import opened WatchSafety
  import opened WalletWatch
  import opened WatchTheorems

  // A drain under the scope being watched leaves two refreshes running, or leaves
  // pending only hints of enabled chains that are being refreshed already.
  lemma DrainFills(s: State, e: Env)
    requires Safe(s) && e.canWatch && s.scope.Some? && e.scope == s.scope
    ensures var t := Drain(s, e);
      |t.running| == 2
      || forall k :: 0 <= k < |t.pending| ==> t.pending[k].chain in e.enabled && t.pending[k].chain in t.running
  {
    SweepServes(s, 0, e);
    SweepSafe(s, 0, e);
    hide Sweep, Booked, Acked, Flushes;
    assert |Sweep(s, 0, e).running| <= 2;
  }

  // Job j is the refresh of a hint that was pending, on an enabled chain with no
  // refresh, for the present session and scope.
  ghost predicate Started(s: State, e: Env, job: Job) {
    && job.hint in s.pending && job.hint.chain in e.enabled && job.hint.chain !in s.running
    && job == Job(job.hint, s.session, s.scope, Refreshing, false)
  }

  // Every refresh a drain starts is such a job, and its hint pends no longer.
  lemma DrainStarts(s: State, e: Env)
    requires Safe(s)
    ensures var t := Drain(s, e);
      && s.jobs <= t.jobs
      && (forall j :: |s.jobs| <= j < |t.jobs| ==> Started(s, e, t.jobs[j]) && t.jobs[j].hint !in t.pending)
      && (forall h :: h in t.pending ==> h in s.pending)
      && (forall h :: h in s.pending && h !in t.pending && h.chain in e.enabled ==>
            exists j :: |s.jobs| <= j < |t.jobs| && t.jobs[j].hint == h)
  {
    if Current(s, e) {
      hide Booked, Acked, Flushes, Slots;
      assert OnePerChain(s.pending) by {
        SafePending(s);
      }
      hide Safe;
      SweepStarts(s, 0, e);
      hide Sweep;
    }
  }

  lemma SafePending(s: State)
    requires Safe(s)
    ensures OnePerChain(s.pending)
  {
  }

  ghost predicate Starts(s: State, e: Env, t: State) {
    && s.jobs <= t.jobs && s.session == t.session && s.scope == t.scope
    && OnePerChain(t.pending)
    && (forall c :: c in s.running ==> c in t.running)
    && (forall h :: h in t.pending ==> h in s.pending)
    && (forall j :: |s.jobs| <= j < |t.jobs| ==>
          Started(s, e, t.jobs[j]) && t.jobs[j].hint !in t.pending)
    && (forall h :: h in s.pending && h !in t.pending && h.chain in e.enabled ==>
          exists j :: |s.jobs| <= j < |t.jobs| && t.jobs[j].hint == h)
  }

  lemma StartsTransitive(s: State, e: Env, t: State, u: State)
    requires Starts(s, e, t) && Starts(t, e, u)
    ensures Starts(s, e, u)
  {
    forall j | |s.jobs| <= j < |u.jobs| ensures Started(s, e, u.jobs[j]) && u.jobs[j].hint !in u.pending {
      if j < |t.jobs| {
        assert u.jobs[j] == t.jobs[j];
      } else {
        assert Started(t, e, u.jobs[j]);
      }
    }
    forall h | h in s.pending && h !in u.pending && h.chain in e.enabled
      ensures exists j :: |s.jobs| <= j < |u.jobs| && u.jobs[j].hint == h
    {
      if h in t.pending {
        var j :| |t.jobs| <= j < |u.jobs| && u.jobs[j].hint == h;
      } else {
        var j :| |s.jobs| <= j < |t.jobs| && t.jobs[j].hint == h;
        assert u.jobs[j] == t.jobs[j];
      }
    }
  }

  lemma DropStarts(s: State, i: nat, e: Env)
    requires i < |s.pending| && OnePerChain(s.pending) && s.pending[i].chain !in e.enabled
    ensures Starts(s, e, DropAt(s, i)) && |DropAt(s, i).pending| < |s.pending|
  {
    WithoutFacts(s.pending, i);
    hide Refate, Without;
  }

  lemma StartStarts(s: State, i: nat, e: Env)
    requires i < |s.pending| && OnePerChain(s.pending)
    requires s.pending[i].chain in e.enabled && s.pending[i].chain !in s.running
    ensures Starts(s, e, StartAt(s, i)) && |StartAt(s, i).pending| < |s.pending|
  {
    WithoutFacts(s.pending, i);
    hide Refate, Without;
    var t := StartAt(s, i);
    assert t.jobs[|s.jobs|].hint == s.pending[i];
    assert s.pending[i] in s.pending;
  }

  lemma StartsReflexive(s: State, e: Env)
    requires OnePerChain(s.pending)
    ensures Starts(s, e, s)
  {
  }

  lemma {:induction false} SweepStarts(s: State, i: nat, e: Env)
    requires OnePerChain(s.pending)
    ensures Starts(s, e, Sweep(s, i, e))
    decreases |s.pending| - i
  {
    StartsReflexive(s, e);
    if i >= |s.pending| {
    } else if s.pending[i].chain !in e.enabled {
      DropStarts(s, i, e);
      StartsKeeps(s, e, DropAt(s, i));
      hide Starts, OnePerChain, DropAt;
      SweepStarts(DropAt(s, i), i, e);
      StartsTransitive(s, e, DropAt(s, i), Sweep(s, i, e));
    } else if |s.running| >= SLOTS {
    } else if s.pending[i].chain in s.running {
      SweepStarts(s, i + 1, e);
    } else {
      StartStarts(s, i, e);
      StartsKeeps(s, e, StartAt(s, i));
      hide Starts, OnePerChain, StartAt;
      SweepStarts(StartAt(s, i), i, e);
      StartsTransitive(s, e, StartAt(s, i), Sweep(s, i, e));
    }
  }

  lemma StartsKeeps(s: State, e: Env, t: State)
    requires Starts(s, e, t)
    ensures OnePerChain(t.pending)
  {
  }

  // ---- What is cleared ----

  // A stop, by itself or for another wallet, leaves nothing of the old session.
  lemma StopClears(w: Watcher, a: Action, e: Env)
    requires a.StopCalled? || Rescopes(w, a, e)
    ensures var t := Step(w, a, e);
      && t.core.pending == [] && t.core.running == map[] && t.core.failed == {} && t.core.waiters == map[]
      && !t.core.timer && t.core.session == w.core.session + 1
      && t.core.scope == (if a.StopCalled? then None else e.scope)
      && t.desk.subscribed == [] && t.desk.leaseKey.None? && t.desk.receiver.None?
      && t.desk.seen == map[] && t.desk.lastCatchup == map[] && t.desk.batchDepth == 0
      && (a.StopCalled? ==> t.desk.owned == [] && !t.desk.subscribeTimer)
  {
    hide Record, Refate, PutAll;
  }

  // A lease change or a flush under the scope being watched leaves pending only
  // hints of chains the lease has.
  lemma LeasePrunes(s: State, op: Op, e: Env, h: Hint)
    requires Inv(s) && h in Apply(s, op, e).pending
    ensures op.Leased? ==> h.chain in op.chains || exists o :: o in op.offers && o.chain == h.chain
    ensures op.Flushed? && e.canWatch && s.scope.Some? && e.scope == s.scope ==> h.chain in op.leased && h in s.pending
  {
    hide Inv, Flush, Prune, EnqueueAll, RefreshFires, FinallyRuns, RefreshResolves, AckResolves, Rejects,
      CatchRuns, Stop;
    if op.Leased? {
      LeasedPrunes(s, op, e, h);
    } else if op.Flushed? {
      FlushedPrunes(s, op.leased, e, h);
    }
  }

  lemma LeasedPrunes(s: State, op: Op, e: Env, h: Hint)
    requires Inv(s) && op.Leased? && h in Apply(s, op, e).pending
    ensures h.chain in op.chains || exists o :: o in op.offers && o.chain == h.chain
  {
    hide Inv, Prune;
    PrunedAre(s, op.chains);
    PruneKeeps(s, op.chains);
    OfferedPending(Prune(s, op.chains), op.offers, h);
  }

  lemma FlushedPrunes(s: State, leased: set<ChainId>, e: Env, h: Hint)
    requires Inv(s) && h in Flush(s, leased, e).pending
    ensures e.canWatch && s.scope.Some? && e.scope == s.scope ==> h.chain in leased && h in s.pending
  {
    hide Inv, Safe, Prune, Drain;
    FlushCases(s, leased, e);
    PrunedAre(s, leased);
    JoinedKeeps(s, leased);
    DrainStarts(Joined(s, leased), e);
  }

  lemma PrunedAre(s: State, chains: set<ChainId>)
    requires Inv(s)
    ensures Prune(s, chains).pending == Joined(s, chains).pending
    ensures forall h :: h in Prune(s, chains).pending <==> h in s.pending && h.chain in chains
  {
    hide Slots, Acked, Flushes, Moving;
    KeepFacts(s.pending, chains);
  }

  lemma {:induction false} OfferedPending(s: State, offers: seq<Offer>, h: Hint)
    requires Inv(s) && h in EnqueueAll(s, offers).pending
    ensures (exists x :: x in s.pending && x.chain == h.chain) || exists o :: o in offers && o.chain == h.chain
  {
    if offers != [] {
      var t, o := EnqueueAll(s, Front(offers)), Last(offers);
      EnqueueAllKeeps(s, Front(offers));
      EnqueuedAre(t, o);
      hide Inv, Enqueue;
      if h.chain == o.chain {
        assert o in offers;
      } else {
        OfferedPending(s, Front(offers), h);
      }
    }
  }

  lemma EnqueuedAre(s: State, o: Offer)
    requires Inv(s)
    ensures forall h :: h in Enqueue(s, o).pending ==> h.chain == o.chain || h in s.pending
  {
    hide Slots, Acked, Flushes, Moving;
    PendingForFacts(s.pending, o.chain);
    SetPendingFacts(s.pending, MergeOne(PendingFor(s.pending, o.chain), o));
  }
}
