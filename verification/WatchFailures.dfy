// Which chains count as failed, and so what a flush answers, told from what
// became of the refreshes.
module WatchFailures {
  import opened Basics
  import opened WatchScheduler
  import opened WatchSafety
  import opened WalletWatch
  import opened WatchTheorems

  // ---- One operation ----

  // The refresh of chain c has thrown, and its catch handler runs while the job
  // is present.
  ghost predicate Fails(s: State, op: Op, e: Env, c: ChainId) {
    op.Caught? && Present(s, op.job, e) && s.jobs[op.job].stage == Rejected && s.jobs[op.job].hint.chain == c
  }

  // The refresh of chain c has resolved, and so has its acknowledgement if it
  // sends one, while the job is present.
  ghost predicate Succeeds(s: State, op: Op, e: Env, c: ChainId) {
    && ((op.Acknowledged? && Present(s, op.job, e) && s.jobs[op.job].stage == Acknowledging)
        || (op.Resolved? && Present(s, op.job, e) && s.jobs[op.job].stage == Refreshing && !Acks(s, op, e)))
    && s.jobs[op.job].hint.chain == c
  }

  // Everything is forgotten by a stop, and a chain by losing its lease.
  ghost predicate Forgets(s: State, op: Op, e: Env, c: ChainId) {
    || op.Halted?
    || (op.Leased? && c !in op.chains)
    || (op.Flushed? && e.canWatch && s.scope.Some? && e.scope == s.scope && c !in op.leased)
  }

  lemma FailedStep(s: State, op: Op, e: Env, c: ChainId)
    requires Inv(s)
    ensures c in Apply(s, op, e).failed
      <==> Fails(s, op, e, c) || (c in s.failed && !Succeeds(s, op, e, c) && !Forgets(s, op, e, c))
  {
    hide Inv, Drain, Settle, Present, Acks, FinallyRuns, RefreshFires, Flush, RefreshResolves, AckResolves,
      CatchRuns, Prune;
    match op
    case Offered(offers) => EnqueueAllQuiet(s, offers);
    case Leased(chains, offers) =>
      PruneFailed(s, chains);
      EnqueueAllQuiet(Prune(s, chains), offers);
    case Fired => FiredFailed(s, e);
    case Resolved(j) => ResolvedFailed(s, j, e, c);
    case Acknowledged(j) => AcknowledgedFailed(s, j, e, c);
    case Threw(j) =>
    case Caught(j) => CaughtFailed(s, j, e, c);
    case Finished(j) => FinishedFailed(s, j, e);
    case Flushed(leased) => FlushedFailed(s, leased, e, c);
    case Halted(scope) =>
  }

  lemma PruneFailed(s: State, chains: set<ChainId>)
    ensures Prune(s, chains).failed == s.failed * chains
  {
  }

  lemma FiredFailed(s: State, e: Env)
    ensures RefreshFires(s, e).failed == s.failed
  {
    DrainQuiet(s.(timer := false), e);
  }

  lemma FinishedFailed(s: State, j: nat, e: Env)
    ensures FinallyRuns(s, j, e).failed == s.failed
  {
    if At(s, j, Finishing) {
      DrainQuiet(Retire(s, j), e);
    }
  }

  lemma FlushedFailed(s: State, leased: set<ChainId>, e: Env, c: ChainId)
    ensures c in Flush(s, leased, e).failed <==> c in s.failed && !Forgets(s, Flushed(leased), e, c)
  {
    hide Drain;
    FlushCases(s, leased, e);
    DrainQuiet(Joined(s, leased), e);
  }

  lemma SucceedFailed(s: State, j: nat, e: Env, stage: Stage)
    requires Inv(s) && At(s, j, stage) && stage != Done
    ensures Advance(s, j, Acknowledging).failed == s.failed
    ensures Succeed(s, j, e).failed == if Present(s, j, e) then s.failed - {s.jobs[j].hint.chain} else s.failed
    ensures MayAck(s, j, e) <==>
      Present(s, j, e) && s.jobs[j].hint.eventIds != [] && s.jobs[j].hint.chain in e.enabled
  {
    PresentIs(s, j, e);
    hide Inv, Present, CurrentSession;
  }

  lemma PresentExists(s: State, j: nat, e: Env)
    ensures Present(s, j, e) ==> j < |s.jobs|
  {
  }

  lemma ResolvedFailed(s: State, j: nat, e: Env, c: ChainId)
    requires Inv(s)
    ensures c in RefreshResolves(s, j, e).failed <==> c in s.failed && !Succeeds(s, Resolved(j), e, c)
  {
    hide Inv, Present, Succeed, Advance, MayAck;
    PresentExists(s, j, e);
    if At(s, j, Refreshing) {
      SucceedFailed(s, j, e, Refreshing);
    }
  }

  lemma AcknowledgedFailed(s: State, j: nat, e: Env, c: ChainId)
    requires Inv(s)
    ensures c in AckResolves(s, j, e).failed <==> c in s.failed && !Succeeds(s, Acknowledged(j), e, c)
  {
    hide Inv, Present, Succeed, Advance, MayAck;
    PresentExists(s, j, e);
    if At(s, j, Acknowledging) {
      SucceedFailed(s, j, e, Acknowledging);
    }
  }

  lemma CaughtFailed(s: State, j: nat, e: Env, c: ChainId)
    requires Inv(s)
    ensures c in CatchRuns(s, j, e).failed <==> c in s.failed || Fails(s, Caught(j), e, c)
  {
    if At(s, j, Rejected) {
      PresentIs(s, j, e);
    }
    hide Inv, Present, CurrentSession;
  }

  // ---- Over runs of the watch ----

  ghost predicate FailsAt(trace: seq<(Action, Env)>, k: int, c: ChainId) {
    && 0 <= k < |trace| && trace[k].0.Catch?
    && Fails(Run(START, trace[..k]).core, Caught(trace[k].0.job), trace[k].1, c)
  }

  ghost predicate SucceedsAt(trace: seq<(Action, Env)>, k: int, c: ChainId) {
    && 0 <= k < |trace| && Direct(trace[k].0).Some?
    && Succeeds(Run(START, trace[..k]).core, Direct(trace[k].0).value, trace[k].1, c)
  }

  // A stop, by itself or for another wallet; or a lease change or a flush that
  // finds no leased address on an enabled chain c.
  ghost predicate Forgotten(w: Watcher, a: Action, e: Env, c: ChainId) {
    || a.StopCalled? || Rescopes(w, a, e)
    || (a.SubscribeTimer? && Releases(w.desk, Step(w, a, e).desk) && !Leases(Step(w, a, e).desk, e, c))
    || (a.FlushCalled? && e.canWatch && w.core.scope.Some? && e.scope == w.core.scope && !Leases(w.desk, e, c))
  }

  ghost predicate ForgottenAt(trace: seq<(Action, Env)>, k: int, c: ChainId) {
    0 <= k < |trace| && Forgotten(Run(START, trace[..k]), trace[k].0, trace[k].1, c)
  }

  // The last thing to happen to chain c was a failure.
  ghost predicate LastFailed(trace: seq<(Action, Env)>, c: ChainId) {
    exists k :: FailsAt(trace, k, c)
      && forall m :: k < m < |trace| ==> !SucceedsAt(trace, m, c) && !ForgottenAt(trace, m, c)
  }

  lemma StepFailed(w: Watcher, a: Action, e: Env, c: ChainId)
    requires Inv(w.core)
    ensures c in Step(w, a, e).core.failed
      <==> (a.Catch? && Fails(w.core, Caught(a.job), e, c))
           || (c in w.core.failed && !Forgotten(w, a, e, c)
               && !(Direct(a).Some? && Succeeds(w.core, Direct(a).value, e, c)))
  {
    var op := StepOp(w, a, e);
    FailedStep(w.core, op, e, c);
    LeasesIs(Step(w, a, e).desk, e, c);
    LeasesIs(w.desk, e, c);
    hide Inv, Apply, Step, LeasedChains, Leases, Present, Acks, Rescopes, Releases;
  }

  lemma LastFailedSnoc(trace: seq<(Action, Env)>, c: ChainId)
    requires trace != []
    ensures var n := |trace| - 1;
      LastFailed(trace, c)
      <==> FailsAt(trace, n, c)
           || (LastFailed(Front(trace), c) && !SucceedsAt(trace, n, c) && !ForgottenAt(trace, n, c))
  {
    hide Run, Fails, Succeeds, Forgotten;
    var n, front := |trace| - 1, Front(trace);
    assert forall k :: 0 <= k < n ==> front[..k] == trace[..k] && front[k] == trace[k];
    assert forall k :: 0 <= k < n ==> (FailsAt(front, k, c) <==> FailsAt(trace, k, c));
    assert forall k :: 0 <= k < n ==> (SucceedsAt(front, k, c) <==> SucceedsAt(trace, k, c));
    assert forall k :: 0 <= k < n ==> (ForgottenAt(front, k, c) <==> ForgottenAt(trace, k, c));
    hide FailsAt, SucceedsAt, ForgottenAt;
    LastSplit(trace, c);
  }

  lemma LastSplit(trace: seq<(Action, Env)>, c: ChainId)
    requires trace != []
    requires forall k :: 0 <= k < |trace| - 1 ==> (FailsAt(Front(trace), k, c) <==> FailsAt(trace, k, c))
    requires forall k :: 0 <= k < |trace| - 1 ==> (SucceedsAt(Front(trace), k, c) <==> SucceedsAt(trace, k, c))
    requires forall k :: 0 <= k < |trace| - 1 ==> (ForgottenAt(Front(trace), k, c) <==> ForgottenAt(trace, k, c))
    ensures var n := |trace| - 1;
      LastFailed(trace, c)
      <==> FailsAt(trace, n, c)
           || (LastFailed(Front(trace), c) && !SucceedsAt(trace, n, c) && !ForgottenAt(trace, n, c))
  {
    hide Run, Fails, Succeeds, Forgotten;
    var n := |trace| - 1;
    if LastFailed(trace, c) {
      var k :| FailsAt(trace, k, c)
        && forall m :: k < m < |trace| ==> !SucceedsAt(trace, m, c) && !ForgottenAt(trace, m, c);
      if k < n {
        assert FailsAt(Front(trace), k, c);
      }
    }
    if LastFailed(Front(trace), c) && !SucceedsAt(trace, n, c) && !ForgottenAt(trace, n, c) {
      var k :| FailsAt(Front(trace), k, c)
        && forall m :: k < m < n ==> !SucceedsAt(Front(trace), m, c) && !ForgottenAt(Front(trace), m, c);
      assert FailsAt(trace, k, c);
    }
  }

  // In every run a chain counts as failed exactly when the last of its refreshes
  // to end while present threw, since the chain was last forgotten.
  lemma {:induction false} FailedIff(trace: seq<(Action, Env)>, c: ChainId)
    ensures c in Run(START, trace).core.failed <==> LastFailed(trace, c)
  {
    if trace != [] {
      var n := |trace| - 1;
      FailedIff(Front(trace), c);
      RunInv(Front(trace));
      assert trace[..n] == Front(trace);
      StepFailed(Run(START, Front(trace)), trace[n].0, trace[n].1, c);
      LastFailedSnoc(trace, c);
      hide LastFailed, Fails, Succeeds, Forgotten, Step;
    }
  }

  // A flush is answered true only if no chain's last refresh failed, and false,
  // when nothing is left to do under the present scope, only if one did or by a
  // stop.
  lemma VerdictOverRuns(trace: seq<(Action, Env)>, a: Action, e: Env, v: nat)
    requires v in Run(START, trace + [(a, e)]).core.verdicts && v !in Run(START, trace).core.verdicts
    ensures var t := Run(START, trace + [(a, e)]).core;
      t.verdicts[v] <==>
        && !a.StopCalled? && !Rescopes(Run(START, trace), a, e)
        && t.pending == [] && t.running == map[] && e.canWatch && t.scope.Some? && e.scope == t.scope
        && forall c :: !LastFailed(trace + [(a, e)], c)
  {
    hide LastFailed, Inv, Apply, Step, Rescopes;
    var all := trace + [(a, e)];
    RunSnoc(trace, a, e);
    RunInv(trace);
    var w := Run(START, trace);
    hide Run;
    var op := StepOp(w, a, e);
    FlushTrueMeansQuiet(w.core, op, e, v);
    forall c ensures c in Run(START, all).core.failed <==> LastFailed(all, c) {
      FailedIff(all, c);
    }
  }

  lemma RunSnoc(trace: seq<(Action, Env)>, a: Action, e: Env)
    ensures Run(START, trace + [(a, e)]) == Step(Run(START, trace), a, e)
  {
    assert Front(trace + [(a, e)]) == trace && Last(trace + [(a, e)]) == (a, e);
  }

  // ---- The stages of a job ----

  // What an operation makes of the stage of job j.
  function StageAfter(s: State, op: Op, e: Env, j: nat): Stage
    requires j < |s.jobs|
  {
    match s.jobs[j].stage
    case Refreshing =>
      if op == Threw(j) then Rejected
      else if op != Resolved(j) then Refreshing
      else if s.jobs[j].hint.eventIds != [] && IsPresent(s, j, e)
        && s.jobs[j].hint.chain in e.enabled then Acknowledging
      else Finishing
    case Acknowledging => if op == Threw(j) then Rejected else if op == Acknowledged(j) then Finishing
      else Acknowledging
    case Rejected => if op == Caught(j) then Finishing else Rejected
    case Finishing => if op == Finished(j) then Done else Finishing
    case Done => Done
  }

  predicate IsPresent(s: State, j: nat, e: Env)
    requires j < |s.jobs|
  {
    s.jobs[j].session == s.session && e.canWatch && s.scope.Some? && e.scope == s.scope
  }

  lemma PresentSame(s: State, j: nat, e: Env)
    requires j < |s.jobs|
    ensures IsPresent(s, j, e) <==> Present(s, j, e)
  {
  }

  // Only its own callbacks move a job, in their order, and a new job's refresh
  // is under way.
  lemma StageStep(s: State, op: Op, e: Env, j: nat)
    requires Inv(s) && j < |Apply(s, op, e).jobs|
    ensures Apply(s, op, e).jobs[j].stage == if j < |s.jobs| then StageAfter(s, op, e, j) else Refreshing
    ensures |s.jobs| <= |Apply(s, op, e).jobs|
  {
    hide Inv, Drain, Settle, FinallyRuns, RefreshFires, Flush, RefreshResolves, AckResolves, CatchRuns, Rejects, Prune;
    hide StageAfter;
    match op
    case Offered(offers) =>
      EnqueueAllQuiet(s, offers);
      StageStays(s, op, e, j);
    case Leased(chains, offers) =>
      PruneJobs(s, chains);
      EnqueueAllQuiet(Prune(s, chains), offers);
      StageStays(s, op, e, j);
    case Fired =>
      FiredStages(s, e, j);
      StageStays(s, op, e, j);
    case Resolved(k) => ResolvedStage(s, k, e, j);
    case Acknowledged(k) => AcknowledgedStage(s, k, e, j);
    case Threw(k) => ThrewStage(s, k, e, j);
    case Caught(k) => CaughtStage(s, k, e, j);
    case Finished(k) => FinishedStage(s, k, e, j);
    case Flushed(leased) =>
      FlushedStages(s, leased, e, j);
      StageStays(s, op, e, j);
    case Halted(scope) => StageStays(s, op, e, j);
  }

  lemma StageStays(s: State, op: Op, e: Env, j: nat)
    requires !Callback(op) && !op.Finished?
    ensures j < |s.jobs| ==> StageAfter(s, op, e, j) == s.jobs[j].stage
  {
  }

  lemma PruneJobs(s: State, chains: set<ChainId>)
    ensures Prune(s, chains).jobs == s.jobs
  {
  }

  lemma {:induction false} SweepStages(s: State, i: nat, e: Env)
    ensures var t := Sweep(s, i, e);
      s.jobs <= t.jobs && forall j :: |s.jobs| <= j < |t.jobs| ==> t.jobs[j].stage == Refreshing
    decreases |s.pending| - i
  {
    if i >= |s.pending| {
    } else if s.pending[i].chain !in e.enabled {
      SweepStages(DropAt(s, i), i, e);
    } else if |s.running| >= SLOTS {
    } else if s.pending[i].chain in s.running {
      SweepStages(s, i + 1, e);
    } else {
      SweepStages(StartAt(s, i), i, e);
    }
  }

  lemma DrainStages(s: State, e: Env)
    ensures var t := Drain(s, e);
      && s.jobs <= t.jobs && (forall j :: |s.jobs| <= j < |t.jobs| ==> t.jobs[j].stage == Refreshing)
      && Settle(t, e).jobs == t.jobs
  {
    SweepStages(s, 0, e);
    hide Sweep;
  }

  lemma FiredStages(s: State, e: Env, j: nat)
    requires j < |RefreshFires(s, e).jobs|
    ensures |s.jobs| <= |RefreshFires(s, e).jobs|
    ensures RefreshFires(s, e).jobs[j].stage == if j < |s.jobs| then s.jobs[j].stage else Refreshing
  {
    hide Drain;
    DrainStages(s.(timer := false), e);
  }

  lemma FlushedStages(s: State, leased: set<ChainId>, e: Env, j: nat)
    requires j < |Flush(s, leased, e).jobs|
    ensures |s.jobs| <= |Flush(s, leased, e).jobs|
    ensures Flush(s, leased, e).jobs[j].stage == if j < |s.jobs| then s.jobs[j].stage else Refreshing
  {
    hide Drain;
    FlushCases(s, leased, e);
    DrainStages(Joined(s, leased), e);
  }

  lemma FinishedStage(s: State, k: nat, e: Env, j: nat)
    requires j < |FinallyRuns(s, k, e).jobs|
    ensures |s.jobs| <= |FinallyRuns(s, k, e).jobs|
    ensures FinallyRuns(s, k, e).jobs[j].stage
      == if j < |s.jobs| then StageAfter(s, Finished(k), e, j) else Refreshing
  {
    hide Drain, Settle;
    if At(s, k, Finishing) {
      DrainStages(Retire(s, k), e);
    }
  }

  lemma AdvanceStage(s: State, k: nat, stage: Stage, j: nat)
    requires k < |s.jobs|
    ensures |Advance(s, k, stage).jobs| == |s.jobs|
    ensures j < |s.jobs| ==> Advance(s, k, stage).jobs[j].stage == if j == k then stage else s.jobs[j].stage
  {
  }

  lemma ResolvedStage(s: State, k: nat, e: Env, j: nat)
    requires Inv(s)
    ensures |RefreshResolves(s, k, e).jobs| == |s.jobs|
    ensures j < |s.jobs| ==> RefreshResolves(s, k, e).jobs[j].stage == StageAfter(s, Resolved(k), e, j)
  {
    hide Inv, Present, CurrentSession, Advance, MayAck;
    if At(s, k, Refreshing) {
      SucceedFailed(s, k, e, Refreshing);
      PresentSame(s, k, e);
      AdvanceStage(s, k, Acknowledging, j);
      AdvanceStage(s, k, Finishing, j);
    }
  }

  lemma AcknowledgedStage(s: State, k: nat, e: Env, j: nat)
    ensures |AckResolves(s, k, e).jobs| == |s.jobs|
    ensures j < |s.jobs| ==> AckResolves(s, k, e).jobs[j].stage == StageAfter(s, Acknowledged(k), e, j)
  {
    if At(s, k, Acknowledging) {
      AdvanceStage(s, k, Finishing, j);
    }
    hide CurrentSession, Advance;
  }

  lemma ThrewStage(s: State, k: nat, e: Env, j: nat)
    ensures |Rejects(s, k).jobs| == |s.jobs|
    ensures j < |s.jobs| ==> Rejects(s, k).jobs[j].stage == StageAfter(s, Threw(k), e, j)
  {
    if At(s, k, Refreshing) || At(s, k, Acknowledging) {
      AdvanceStage(s, k, Rejected, j);
    }
    hide Advance;
  }

  lemma CaughtStage(s: State, k: nat, e: Env, j: nat)
    ensures |CatchRuns(s, k, e).jobs| == |s.jobs|
    ensures j < |s.jobs| ==> CatchRuns(s, k, e).jobs[j].stage == StageAfter(s, Caught(k), e, j)
  {
    if At(s, k, Rejected) {
      AdvanceStage(s, k, Finishing, j);
    }
    hide CurrentSession, Advance;
  }

  // ---- What makes a job rejected ----

  // The refresh of job j, or the acknowledgement after it, threw.
  ghost predicate ThrewAt(trace: seq<(Action, Env)>, k: int, j: nat) {
    && 0 <= k < |trace| && trace[k].0 == WalletWatch.Fails(j)
    && var s := Run(START, trace[..k]).core;
       j < |s.jobs| && (s.jobs[j].stage == Refreshing || s.jobs[j].stage == Acknowledging)
  }

  // From step k on the catch handler of job j has not run.
  ghost predicate NotCaught(trace: seq<(Action, Env)>, k: int, j: nat) {
    forall m :: k < m < |trace| && 0 <= m ==> trace[m].0 != Catch(j)
  }

  // It threw, and its catch handler is still to run.
  ghost predicate Uncaught(trace: seq<(Action, Env)>, j: nat) {
    exists k :: ThrewAt(trace, k, j) && NotCaught(trace, k, j)
  }

  lemma ThrewFront(trace: seq<(Action, Env)>, k: int, j: nat)
    requires trace != [] && k < |trace| - 1
    ensures ThrewAt(Front(trace), k, j) <==> ThrewAt(trace, k, j)
  {
    hide Run;
    if 0 <= k {
      assert Front(trace)[..k] == trace[..k] && Front(trace)[k] == trace[k];
    }
  }

  lemma NotCaughtFront(trace: seq<(Action, Env)>, k: int, j: nat)
    requires trace != [] && k < |trace| - 1
    ensures NotCaught(trace, k, j) <==> NotCaught(Front(trace), k, j) && trace[|trace| - 1].0 != Catch(j)
  {
    assert forall m :: 0 <= m < |trace| - 1 ==> Front(trace)[m] == trace[m];
  }

  lemma UncaughtAt(trace: seq<(Action, Env)>, j: nat) returns (k: int)
    requires Uncaught(trace, j)
    ensures 0 <= k < |trace| && ThrewAt(trace, k, j) && NotCaught(trace, k, j)
  {
    hide NotCaught;
    k :| ThrewAt(trace, k, j) && NotCaught(trace, k, j);
  }

  lemma UncaughtBy(trace: seq<(Action, Env)>, k: int, j: nat)
    requires ThrewAt(trace, k, j) && NotCaught(trace, k, j)
    ensures Uncaught(trace, j)
  {
  }

  lemma NoneAfterLast(trace: seq<(Action, Env)>, j: nat)
    ensures NotCaught(trace, |trace| - 1, j)
  {
  }

  lemma UncaughtSnoc(trace: seq<(Action, Env)>, j: nat)
    requires trace != []
    ensures var n := |trace| - 1;
      Uncaught(trace, j) <==> ThrewAt(trace, n, j) || (Uncaught(Front(trace), j) && trace[n].0 != Catch(j))
  {
    hide Uncaught, ThrewAt, NotCaught;
    var n := |trace| - 1;
    if ThrewAt(trace, n, j) {
      NoneAfterLast(trace, j);
      UncaughtBy(trace, n, j);
    } else if Uncaught(trace, j) {
      var k := UncaughtAt(trace, j);
      assert k != n;
      ThrewFront(trace, k, j);
      NotCaughtFront(trace, k, j);
      UncaughtBy(Front(trace), k, j);
    } else if Uncaught(Front(trace), j) && trace[n].0 != Catch(j) {
      var k := UncaughtAt(Front(trace), j);
      ThrewFront(trace, k, j);
      NotCaughtFront(trace, k, j);
      UncaughtBy(trace, k, j);
    }
  }

  predicate IsRejected(s: State, j: nat) {
    j < |s.jobs| && s.jobs[j].stage == Rejected
  }

  lemma RejectedStep(w: Watcher, a: Action, e: Env, j: nat)
    requires Inv(w.core)
    ensures IsRejected(Step(w, a, e).core, j)
      <==> (a == WalletWatch.Fails(j) && j < |w.core.jobs| && w.core.jobs[j].stage in {Refreshing, Acknowledging})
           || (IsRejected(w.core, j) && a != Catch(j))
  {
    hide Inv, Apply, Step;
    var op := StepOp(w, a, e);
    JobsStay(w.core, op, e);
    if j < |Apply(w.core, op, e).jobs| {
      StageStep(w.core, op, e, j);
    }
  }

  lemma JobsStay(s: State, op: Op, e: Env)
    requires Inv(s)
    ensures |s.jobs| <= |Apply(s, op, e).jobs|
  {
    hide Inv;
    ApplyEvolves(s, op, e);
  }

  // In every run a job is rejected exactly when its refresh or acknowledgement
  // has thrown and the catch handler has not run.
  lemma {:induction false} RejectedIff(trace: seq<(Action, Env)>, j: nat)
    ensures IsRejected(Run(START, trace).core, j) <==> Uncaught(trace, j)
  {
    if trace != [] {
      hide Uncaught, Inv, Step, IsRejected;
      var n, front := |trace| - 1, Front(trace);
      RejectedIff(front, j);
      RunInv(front);
      assert trace[..n] == front;
      RejectedStep(Run(START, front), trace[n].0, trace[n].1, j);
      UncaughtSnoc(trace, j);
    } else {
      assert !Uncaught(trace, j);
    }
  }
}
