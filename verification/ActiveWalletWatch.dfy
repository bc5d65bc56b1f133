// createActiveWalletWatch as an object: its fields are the closure's variables,
// its methods change them step by step, and each method is proved to take the
// watch exactly where the state machine of WalletWatch says.
module ActiveWalletWatch {
  import opened Basics
  import opened WatchScheduler
  import opened WatchSafety
  import opened OwnedWatches
  import WalletWatch

  type Receiver = WalletWatch.Receiver
  type EventKey = WalletWatch.EventKey
  type Event = WalletWatch.Event

  lemma FewerKeys<V>(m: map<nat, V>, w: nat)
    requires w in m
    ensures |m - {w}| < |m|
  {
    var rest := m - {w};
    assert m.Keys == rest.Keys + {w};
    assert |rest.Keys| == |rest| && |m.Keys| == |m|;
  }

  lemma KeepStep(pending: seq<Hint>, i: nat, kept: seq<Hint>, chains: set<ChainId>)
    requires i < |pending|
    ensures kept + Keep(pending[i..], chains)
      == (if pending[i].chain in chains then kept + [pending[i]] else kept) + Keep(pending[i + 1..], chains)
  {
    var rest := pending[i + 1..];
    assert pending[i..][0] == pending[i] && pending[i..][1..] == rest;
    assert kept + ([pending[i]] + Keep(rest, chains)) == kept + [pending[i]] + Keep(rest, chains);
  }

  // The hints of pruneInactive's loop over the pending map that stay.
  method KeepChains(pending: seq<Hint>, chains: set<ChainId>) returns (kept: seq<Hint>)
    ensures kept == Keep(pending, chains)
  {
    kept := [];
    var i := 0;
    while i < |pending|
      invariant 0 <= i <= |pending|
      invariant kept + Keep(pending[i..], chains) == Keep(pending, chains)
    {
      KeepStep(pending, i, kept, chains);
      if pending[i].chain in chains {
        kept := kept + [pending[i]];
      }
      i := i + 1;
    }
  }

  class ActiveWatch {
    var owned: seq<OwnedWatches.Watch>
    var pending: seq<Hint>
    var running: map<ChainId, nat>
    var seen: map<EventKey, int>
    var lastCatchup: map<(nat, ChainId), int>
    var scope: Option<Scope>
    var generation: nat
    var leaseKey: Option<seq<Key>>
    var batchDepth: nat
    var batchGeneration: nat
    var failedChains: set<ChainId>
    var waiters: map<nat, nat>
    var subscribed: seq<OwnedWatches.Watch>
    var receive: Option<Receiver>
    var subscribeTimer: bool
    var refreshTimer: bool
    // What each started refresh promise captured, and how far it has got.
    var jobs: seq<Job>
    var flushes: nat
    ghost var ledger: seq<Entry>
    ghost var acks: seq<Ack>
    ghost var verdicts: map<nat, bool>
    ghost var stalled: bool

    ghost function Core(): State
      reads this
    {
      State(scope, batchGeneration, pending, running, failedChains, refreshTimer, waiters, jobs,
            ledger, acks, verdicts, flushes, stalled)
    }

    ghost function Desk(): WalletWatch.Desk
      reads this
    {
      WalletWatch.Desk(owned, subscribed, leaseKey, generation, receive, seen, lastCatchup, subscribeTimer, batchDepth)
    }

    ghost function View(): WalletWatch.Watcher
      reads this
    {
      WalletWatch.Watcher(Core(), Desk())
    }

    constructor ()
      ensures View() == WalletWatch.START
    {
      owned, pending, running, seen, lastCatchup := [], [], map[], map[], map[];
      scope, generation, leaseKey, batchDepth, batchGeneration := None, 0, None, 0, 0;
      failedChains, waiters, subscribed, receive := {}, map[], [], None;
      subscribeTimer, refreshTimer, jobs, flushes := false, false, [], 0;
      ledger, acks, verdicts, stalled := [], [], map[], false;
    }

    predicate IsCurrent(e: Env)
      reads this
    {
      e.canWatch && SameScope(scope, e.scope)
    }

    predicate IsCurrentSession(expected: Option<Scope>, gen: nat, e: Env)
      reads this
    {
      gen == batchGeneration && e.canWatch && SameScope(expected, e.scope)
    }

    method PruneInactive(e: Env)
      modifies this`failedChains, this`pending, this`ledger
      ensures Core() == Prune(old(Core()), WalletWatch.LeasedChains(old(subscribed), e))
    {
      hide Refate, Chains, Keep, WalletWatch.LeasedChains;
      var chains := WalletWatch.LeasedChains(subscribed, e);
      failedChains := failedChains * chains;
      ledger := Refate(ledger, Chains(pending) - chains, Dropped(Unleased));
      pending := KeepChains(pending, chains);
    }

    method SettleWaiters(e: Env)
      modifies this`waiters, this`verdicts
      ensures Core() == Settle(old(Core()), e)
    {
      if pending != [] || |running| > 0 {
        return;
      }
      assert running == map[];
      AnswerAll(IsCurrent(e) && failedChains == {});
    }

    // Resolve and delete each waiter.
    method AnswerAll(ok: bool)
      modifies this`waiters, this`verdicts
      ensures waiters == map[] && verdicts == Record(old(verdicts), old(waiters), batchGeneration, ok)
    {
      hide Record;
      ghost var all, before := waiters, verdicts;
      while |waiters| > 0
        invariant forall w :: w in waiters ==> w in all && waiters[w] == all[w]
        invariant forall w :: w in verdicts <==> w in before || (w in all && w !in waiters)
        invariant forall w ::
          w in verdicts
          ==> verdicts[w] == if w in all && w !in waiters then all[w] == batchGeneration && ok else before[w]
        decreases |waiters|
      {
        assert waiters.Keys != {};
        var w :| w in waiters;
        Answer(w, waiters[w] == batchGeneration && ok);
      }
      assert waiters == map[];
      assert verdicts == Record(before, all, batchGeneration, ok);
    }

    // waiter.resolve(ok), then waiters.delete(waiter).
    method Answer(w: nat, ok: bool)
      requires w in waiters
      modifies this`waiters, this`verdicts
      ensures forall v :: v in waiters <==> v in old(waiters) && v != w
      ensures forall v :: v in waiters ==> waiters[v] == old(waiters)[v]
      ensures forall v :: v in verdicts <==> v in old(verdicts) || v == w
      ensures forall v :: v in verdicts ==> verdicts[v] == if v == w then ok else old(verdicts)[v]
      ensures |waiters| < |old(waiters)|
    {
      FewerKeys(waiters, w);
      verdicts := verdicts[w := ok];
      waiters := waiters - {w};
    }

    method DropPending(i: nat)
      requires i < |pending|
      modifies this`pending, this`ledger
      ensures Core() == DropAt(old(Core()), i)
    {
      ledger := Refate(ledger, {pending[i].chain}, Dropped(Disabled));
      pending := Without(pending, i);
    }

    method StartJob(i: nat)
      requires i < |pending|
      modifies this`pending, this`ledger, this`running, this`jobs
      ensures Core() == StartAt(old(Core()), i)
    {
      var hint := pending[i];
      pending := Without(pending, i);
      ledger := Refate(ledger, {hint.chain}, Handed(|jobs|));
      running := running[hint.chain := |jobs|];
      jobs := jobs + [Job(hint, batchGeneration, scope, Refreshing, false)];
    }

    method DrainPending(e: Env)
      modifies this`pending, this`ledger, this`running, this`jobs, this`stalled, this`waiters, this`verdicts
      ensures Core() == Drain(old(Core()), e)
    {
      if !IsCurrent(e) {
        stalled := true;
        return;
      }
      var i := 0;
      while i < |pending|
        invariant Sweep(Core(), i, e) == Sweep(old(Core()), 0, e)
        decreases |pending| - i
      {
        if pending[i].chain !in e.enabled {
          DropPending(i);
        } else if |running| >= SLOTS {
          break;
        } else if pending[i].chain in running {
          i := i + 1;
        } else {
          StartJob(i);
        }
      }
      assert Core() == Sweep(old(Core()), 0, e);
      stalled := false;
      SettleWaiters(e);
    }

    method QueueOffer(o: Offer, e: Env)
      modifies this
      ensures View() == WalletWatch.Queue(old(View()), o, e)
    {
      hide Enqueue;
      if o.catchup {
        var key := (generation, o.chain);
        if key in lastCatchup && e.now - lastCatchup[key] < WalletWatch.CATCHUP_GAP {
          return;
        }
        lastCatchup := lastCatchup[key := e.now];
      }
      Merge(o);
    }

    method Merge(o: Offer)
      modifies this`pending, this`ledger, this`refreshTimer
      ensures Core() == Enqueue(old(Core()), o)
    {
      var previous := PendingFor(pending, o.chain);
      pending := SetPending(pending, MergeOne(previous, o));
      ledger := ledger + [Entry(o, Waiting)];
      if refreshTimer {
        return;
      }
      refreshTimer := true;
    }

    method CatchUpChains(r: Receiver, chains: seq<ChainId>, e: Env)
      modifies this
      ensures View() == WalletWatch.CatchUp(old(View()), r, chains, e)
    {
      var i := 0;
      while i < |chains|
        invariant 0 <= i <= |chains|
        invariant View() == WalletWatch.CatchUp(old(View()), r, chains[..i], e)
      {
        assert Front(chains[..i + 1]) == chains[..i] && Last(chains[..i + 1]) == chains[i];
        if WalletWatch.Supports(r, chains[i]) {
          QueueOffer(WalletWatch.CatchupOffer(chains[i]), e);
        }
        i := i + 1;
      }
      assert chains[..|chains|] == chains;
    }

    method OnSubscribeTimer(e: Env)
      modifies this
      ensures View() == WalletWatch.SubscribeFires(old(View()), e)
    {
      if !subscribeTimer {
        return;
      }
      subscribeTimer := false;
      SubscribeNow(e);
    }

    method SubscribeNow(e: Env)
      modifies this
      ensures View() == WalletWatch.Subscribe(old(View()), e)
    {
      hide Prune, Enqueue, Select, WalletWatch.CatchUp, WalletWatch.Keys, WalletWatch.LeasedChains, WalletWatch.Enabled,
        WalletWatch.ChainsOf, WalletWatch.NotKeyed;
      if !IsCurrent(e) {
        return;
      }
      var selected := Select(WalletWatch.Enabled(owned, e));
      if leaseKey == Some(WalletWatch.Keys(selected)) {
        return;
      }
      ghost var before := View();
      var changed := ChangedFrom(selected);
      TakeLease(selected, e);
      ghost var released := WalletWatch.Release(before, selected, e);
      assert View() == released;
      if selected == [] {
        return;
      }
      var r := WalletWatch.Receiver(scope, generation, selected, changed, 0, {});
      receive := Some(r);
      assert View() == released.(desk := released.desk.(receiver := Some(r)));
      CatchUpChains(r, changed, e);
    }

    method TakeLease(selected: seq<OwnedWatches.Watch>, e: Env)
      modifies this`subscribed, this`leaseKey, this`generation, this`lastCatchup
      modifies this`failedChains, this`pending, this`ledger
      ensures Core() == Prune(old(Core()), WalletWatch.LeasedChains(selected, e))
      ensures subscribed == selected && leaseKey == Some(WalletWatch.Keys(selected))
      ensures generation == old(generation) + 1 && lastCatchup == map[]
    {
      hide Prune, WalletWatch.LeasedChains, WalletWatch.Keys;
      NameLease(selected);
      PruneInactive(e);
      generation := generation + 1;
      lastCatchup := map[];
    }

    method NameLease(selected: seq<OwnedWatches.Watch>)
      modifies this`subscribed, this`leaseKey
      ensures subscribed == selected && leaseKey == Some(WalletWatch.Keys(selected))
    {
      subscribed := selected;
      leaseKey := Some(WalletWatch.Keys(selected));
    }

    function ChangedFrom(selected: seq<OwnedWatches.Watch>): seq<ChainId>
      reads this
    {
      WalletWatch.ChainsOf(WalletWatch.NotKeyed(selected, set k | k in WalletWatch.Keys(subscribed)))
    }

    method OnEvent(event: Event, e: Env) returns (accepted: bool)
      modifies this
      ensures (View(), accepted) == WalletWatch.Deliver(old(View()), event, e)
    {
      if receive.None? || receive.value.gen != generation || !e.canWatch
        || !SameScope(receive.value.expected, e.scope) {
        return false;
      }
      var r := receive.value;
      match event
      case Connected(unsupported) =>
        var r' := r.(connects := r.connects + 1, unsupported := unsupported);
        receive := Some(r');
        CatchUpChains(r', if r'.connects == 1 then r.changed else WalletWatch.ChainsOf(r.selected), e);
        return true;
      case SyncRequired(networks, subscribing) =>
        var chains := if r.connects <= 1 && subscribing then r.changed else WalletWatch.ChainsOf(r.selected);
        CatchUpChains(r, WalletWatch.NetworkChains(r, chains, networks), e);
        return true;
      case Transfer(_, _, _, _, _, _) =>
        accepted := OnTransfer(r, event, e);
      case Unusable =>
        return false;
    }

    method OnTransfer(r: Receiver, event: Event, e: Env) returns (accepted: bool)
      requires event.Transfer?
      modifies this
      ensures (View(), accepted) == WalletWatch.DeliverTransfer(old(View()), r, event, e)
    {
      var watch := WalletWatch.Find(r.selected, KeyOf(event.network, event.address));
      if watch.None? || watch.value.chain !in e.enabled {
        return false;
      }
      seen := WalletWatch.Unexpired(seen, e.now);
      var id := WalletWatch.StableId(event);
      if id.Some? {
        var key := WalletWatch.EventKey(watch.value.network, id.value, event.confirmed);
        if key in seen && watch.value.chain !in failedChains {
          return true;
        }
        seen := seen[key := e.now + WalletWatch.SEEN_FOR];
      }
      QueueOffer(Offer(watch.value.chain, event.txid, false, event.eventId), e);
      return true;
    }

    method StopWatching()
      modifies this
      ensures View() == WalletWatch.StopAll(old(View()), None)
    {
      StopLease();
      StopRefreshes();
    }

    method StopLease()
      modifies this`generation, this`batchDepth, this`subscribeTimer, this`owned, this`seen, this`lastCatchup,
        this`subscribed, this`leaseKey, this`receive
      ensures generation == old(generation) + 1 && batchDepth == 0 && !subscribeTimer
      ensures owned == [] && seen == map[] && lastCatchup == map[] && subscribed == [] && leaseKey.None?
        && receive.None?
    {
      generation := generation + 1;
      batchDepth := 0;
      subscribeTimer := false;
      owned, seen, lastCatchup := [], map[], map[];
      subscribed, leaseKey, receive := [], None, None;
    }

    method StopRefreshes()
      modifies this`batchGeneration, this`refreshTimer, this`ledger, this`pending, this`running, this`failedChains,
        this`waiters, this`verdicts, this`scope, this`stalled
      ensures Core() == Stop(old(Core()))
    {
      AnswerAll(false);
      batchGeneration := batchGeneration + 1;
      refreshTimer := false;
      ledger := Refate(ledger, Chains(pending), Dropped(Stopped));
      pending, running, failedChains := [], map[], {};
      scope := None;
      stalled := false;
    }

    method AddEntries(entries: seq<OwnedWatches.Watch>, expected: Option<Scope>, e: Env)
      modifies this
      ensures View() == WalletWatch.Add(old(View()), entries, expected, e)
    {
      hide Stop, WalletWatch.PutAll, WalletWatch.StopAll;
      if !SameScope(expected, e.scope) {
        return;
      }
      ghost var before := View();
      if !SameScope(scope, expected) {
        Rescope(expected);
      }
      ghost var rescoped := if SameScope(before.core.scope, expected) then before
        else WalletWatch.StopAll(before, expected);
      assert View() == rescoped;
      PutEntries(entries, e);
      if batchDepth == 0 && !subscribeTimer {
        subscribeTimer := true;
      }
    }

    method Rescope(expected: Option<Scope>)
      modifies this
      ensures View() == WalletWatch.StopAll(old(View()), expected)
    {
      StopWatching();
      scope := expected;
    }

    method PutEntries(entries: seq<OwnedWatches.Watch>, e: Env)
      modifies this`owned
      ensures owned == WalletWatch.PutAll(old(owned), entries, e)
    {
      var i := 0;
      while i < |entries|
        invariant 0 <= i <= |entries|
        invariant owned == WalletWatch.PutAll(old(owned), entries[..i], e)
      {
        assert Front(entries[..i + 1]) == entries[..i] && Last(entries[..i + 1]) == entries[i];
        if WalletWatch.Usable(entries[i], e) {
          owned := WalletWatch.PutOwned(owned, entries[i]);
        }
        i := i + 1;
      }
      assert entries[..|entries|] == entries;
    }

    method ResumeWatching(e: Env)
      modifies this
      ensures View() == WalletWatch.Resume(old(View()), e)
    {
      if scope.None? || !IsCurrent(e) || batchDepth > 0 {
        return;
      }
      var chains := WalletWatch.ChainsOf(subscribed);
      var i := 0;
      while i < |chains|
        invariant 0 <= i <= |chains|
        invariant View() == WalletWatch.QueueAll(old(View()), chains[..i], e)
      {
        assert Front(chains[..i + 1]) == chains[..i] && Last(chains[..i + 1]) == chains[i];
        QueueOffer(WalletWatch.CatchupOffer(chains[i]), e);
        i := i + 1;
      }
      assert chains[..|chains|] == chains;
      if !subscribeTimer {
        subscribeTimer := true;
      }
    }

    method BeginBatch() returns (token: nat)
      modifies this
      ensures View() == WalletWatch.BeginBatch(old(View())) && token == old(batchGeneration)
    {
      token := batchGeneration;
      batchDepth := batchDepth + 1;
      subscribeTimer := false;
    }

    method EndBatch(token: nat)
      modifies this
      ensures View() == WalletWatch.EndBatch(old(View()), token)
    {
      if token != batchGeneration {
        return;
      }
      batchDepth := if batchDepth > 0 then batchDepth - 1 else 0;
      if batchDepth == 0 && !subscribeTimer {
        subscribeTimer := true;
      }
    }

    // The promise flush returns is number call; an answer known at once is given
    // as its value.
    method FlushNow(e: Env) returns (call: nat, answer: Option<bool>)
      modifies this`pending, this`ledger, this`running, this`jobs, this`stalled, this`waiters, this`verdicts,
        this`flushes, this`failedChains
      ensures Core() == Flush(old(Core()), WalletWatch.LeasedChains(old(subscribed), e), e)
      ensures call == old(flushes)
      ensures answer.Some? ==> call in verdicts && verdicts[call] == answer.value
    {
      call := flushes;
      flushes := flushes + 1;
      if !IsCurrent(e) {
        verdicts := verdicts[call := false];
        return call, Some(false);
      }
      PruneInactive(e);
      answer := AnswerOrWait(call, e);
    }

    method AnswerOrWait(call: nat, e: Env) returns (answer: Option<bool>)
      modifies this`pending, this`ledger, this`running, this`jobs, this`stalled, this`waiters, this`verdicts
      ensures var s := old(Core());
        Core() ==
          if s.pending == [] && s.running == map[] then s.(verdicts := s.verdicts[call := s.failed == {}])
          else Drain(s.(waiters := s.waiters[call := s.session]), e)
      ensures answer.Some? ==> call in verdicts && verdicts[call] == answer.value
    {
      if pending == [] && |running| == 0 {
        assert running == map[];
        verdicts := verdicts[call := failedChains == {}];
        return Some(failedChains == {});
      }
      waiters := waiters[call := batchGeneration];
      DrainPending(e);
      answer := None;
    }

    method OnRefreshTimer(e: Env)
      modifies this`pending, this`ledger, this`running, this`jobs, this`stalled, this`waiters, this`verdicts,
        this`refreshTimer
      ensures Core() == RefreshFires(old(Core()), e)
    {
      if !refreshTimer {
        return;
      }
      refreshTimer := false;
      DrainPending(e);
    }

    method MoveJob(j: nat, stage: Stage)
      requires j < |jobs|
      modifies this`jobs
      ensures Core() == Advance(old(Core()), j, stage)
    {
      var job := jobs[j];
      jobs := jobs[j :=
        job.(stage := stage, refreshed := job.refreshed || (job.stage == Refreshing && stage != Rejected))];
    }

    method Succeeded(j: nat, e: Env)
      requires j < |jobs|
      modifies this`jobs, this`failedChains
      ensures Core() == Succeed(old(Core()), j, e)
    {
      var job := jobs[j];
      MoveJob(j, Finishing);
      if IsCurrentSession(job.expected, job.session, e) {
        failedChains := failedChains - {job.hint.chain};
      }
    }

    // The then callback up to its await.
    method OnRefreshed(j: nat, e: Env)
      modifies this`jobs, this`failedChains, this`acks
      ensures Core() == RefreshResolves(old(Core()), j, e)
    {
      if j >= |jobs| || jobs[j].stage != Refreshing {
        return;
      }
      var job := jobs[j];
      if |job.hint.eventIds| > 0 && IsCurrentSession(job.expected, job.session, e) && job.hint.chain in e.enabled {
        MoveJob(j, Acknowledging);
        acks := acks + [Ack(j, job.hint.eventIds, job.expected.value)];
      } else {
        Succeeded(j, e);
      }
    }

    // The then callback after its await.
    method OnAcknowledged(j: nat, e: Env)
      modifies this`jobs, this`failedChains
      ensures Core() == AckResolves(old(Core()), j, e)
    {
      if j < |jobs| && jobs[j].stage == Acknowledging {
        Succeeded(j, e);
      }
    }

    method OnThrown(j: nat)
      modifies this`jobs
      ensures Core() == Rejects(old(Core()), j)
    {
      if j < |jobs| && (jobs[j].stage == Refreshing || jobs[j].stage == Acknowledging) {
        MoveJob(j, Rejected);
      }
    }

    method OnCatch(j: nat, e: Env)
      modifies this`jobs, this`failedChains
      ensures Core() == CatchRuns(old(Core()), j, e)
    {
      if j < |jobs| && jobs[j].stage == Rejected {
        var job := jobs[j];
        MoveJob(j, Finishing);
        if IsCurrentSession(job.expected, job.session, e) {
          failedChains := failedChains + {job.hint.chain};
        }
      }
    }

    method OnFinally(j: nat, e: Env)
      modifies this`pending, this`ledger, this`running, this`jobs, this`stalled, this`waiters, this`verdicts
      ensures Core() == FinallyRuns(old(Core()), j, e)
    {
      if j < |jobs| && jobs[j].stage == Finishing {
        var chain := jobs[j].hint.chain;
        MoveJob(j, Done);
        if chain in running && running[chain] == j {
          running := running - {chain};
        }
        DrainPending(e);
        SettleWaiters(e);
      }
    }
  }
}
