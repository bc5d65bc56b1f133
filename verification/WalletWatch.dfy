// The whole active-wallet watch: the lease side (owned addresses, one transport
// lease, its event handler) around the refresh scheduler, as one state machine.
module WalletWatch {
  import opened Basics
  import opened WatchScheduler
  import opened WatchSafety
  import opened OwnedWatches

  // The event handler of one lease, with what its closure captured.
  datatype Receiver = Receiver(
    expected: Option<Scope>, gen: nat, selected: seq<Watch>, changed: seq<ChainId>,
    connects: nat, unsupported: set<Network>)

  datatype EventKey = EventKey(network: Network, stableId: Id, confirmed: bool)

  datatype Event =
    | Connected(unsupported: set<Network>)
    | SyncRequired(networks: Option<set<Network>>, subscribing: bool)
    | Transfer(confirmed: bool, address: string, network: Network, txid: Option<Id>, eventId: Option<Id>,
      cursor: Option<Id>)
    | Unusable

  datatype Desk = Desk(
    owned: seq<Watch>, subscribed: seq<Watch>, leaseKey: Option<seq<Key>>, generation: nat,
    receiver: Option<Receiver>, seen: map<EventKey, int>, lastCatchup: map<(nat, ChainId), int>,
    subscribeTimer: bool, batchDepth: nat)

  datatype Watcher = Watcher(core: State, desk: Desk)

  const START: Watcher := Watcher(INITIAL, Desk([], [], None, 0, None, map[], map[], false, 0))

  const CATCHUP_GAP: int := 2_000
  const SEEN_FOR: int := 15_000

  // ---- Pieces ----

  function ChainsOf(watches: seq<Watch>): seq<ChainId> {
    if watches == [] then []
    else
      var rest := ChainsOf(Front(watches));
      if Last(watches).chain in rest then rest else rest + [Last(watches).chain]
  }

  function LeasedChains(subscribed: seq<Watch>, e: Env): set<ChainId> {
    set w | w in subscribed && w.chain in e.enabled :: w.chain
  }

  function Enabled(watches: seq<Watch>, e: Env): seq<Watch> {
    if watches == [] then []
    else (if watches[0].chain in e.enabled then [watches[0]] else []) + Enabled(watches[1..], e)
  }

  function NotKeyed(watches: seq<Watch>, keys: set<Key>): seq<Watch> {
    if watches == [] then []
    else (if WatchKey(watches[0]) in keys then [] else [watches[0]]) + NotKeyed(watches[1..], keys)
  }

  function Keys(watches: seq<Watch>): seq<Key> {
    seq(|watches|, i requires 0 <= i < |watches| => WatchKey(watches[i]))
  }

  function PutOwned(owned: seq<Watch>, w: Watch): seq<Watch> {
    if owned == [] then [w]
    else if WatchKey(owned[0]) == WatchKey(w) then [w] + owned[1..]
    else [owned[0]] + PutOwned(owned[1..], w)
  }

  predicate Usable(w: Watch, e: Env) {
    w.address != "" && w.network.id != "" && w.chain.name != "" && w.chain in e.enabled
  }

  function PutAll(owned: seq<Watch>, entries: seq<Watch>, e: Env): seq<Watch> {
    if entries == [] then owned
    else
      var rest := PutAll(owned, Front(entries), e);
      if Usable(Last(entries), e) then PutOwned(rest, Last(entries)) else rest
  }

  predicate Supports(r: Receiver, c: ChainId) {
    exists w :: w in r.selected && w.chain == c && w.network !in r.unsupported
  }

  function Find(watches: seq<Watch>, key: Key): Option<Watch> {
    if watches == [] then None
    else if WatchKey(Last(watches)) == key then Some(Last(watches))
    else Find(Front(watches), key)
  }

  // ---- Operations ----

  function Queue(w: Watcher, o: Offer, e: Env): Watcher {
    if !o.catchup then w.(core := Enqueue(w.core, o))
    else
      var k := (w.desk.generation, o.chain);
      if k in w.desk.lastCatchup && e.now - w.desk.lastCatchup[k] < CATCHUP_GAP then w
      else Watcher(Enqueue(w.core, o), w.desk.(lastCatchup := w.desk.lastCatchup[k := e.now]))
  }

  function CatchupOffer(c: ChainId): Offer {
    Offer(c, None, true, None)
  }

  function CatchUp(w: Watcher, r: Receiver, chains: seq<ChainId>, e: Env): Watcher {
    if chains == [] then w
    else
      var v := CatchUp(w, r, Front(chains), e);
      if Supports(r, Last(chains)) then Queue(v, CatchupOffer(Last(chains)), e) else v
  }

  function QueueAll(w: Watcher, chains: seq<ChainId>, e: Env): Watcher {
    if chains == [] then w else Queue(QueueAll(w, Front(chains), e), CatchupOffer(Last(chains)), e)
  }

  function SubscribeFires(w: Watcher, e: Env): Watcher {
    if !w.desk.subscribeTimer then w else Subscribe(w.(desk := w.desk.(subscribeTimer := false)), e)
  }

  function Subscribe(w: Watcher, e: Env): Watcher {
    var selected := Select(Enabled(w.desk.owned, e));
    if !Current(w.core, e) || w.desk.leaseKey == Some(Keys(selected)) then w
    else
      var v := Release(w, selected, e);
      if selected == [] then v
      else
        var r := Receiver(w.core.scope, v.desk.generation, selected, Changed(w.desk, selected), 0, {});
        CatchUp(v.(desk := v.desk.(receiver := Some(r))), r, r.changed, e)
  }

  function Changed(desk: Desk, selected: seq<Watch>): seq<ChainId> {
    ChainsOf(NotKeyed(selected, set k | k in Keys(desk.subscribed)))
  }

  // A new lease replaces the old one: its chains are the only ones kept.
  function Release(w: Watcher, selected: seq<Watch>, e: Env): Watcher {
    var d := w.desk.(subscribed := selected, leaseKey := Some(Keys(selected)),
                     generation := w.desk.generation + 1, lastCatchup := map[]);
    Watcher(Prune(w.core, LeasedChains(selected, e)), d)
  }

  predicate Live(w: Watcher, e: Env) {
    && w.desk.receiver.Some?
    && w.desk.receiver.value.gen == w.desk.generation
    && e.canWatch && SameScope(w.desk.receiver.value.expected, e.scope)
  }

  function NetworkChains(r: Receiver, chains: seq<ChainId>, networks: Option<set<Network>>): seq<ChainId> {
    ChainsOf(WatchesOn(r.selected, chains, networks))
  }

  function WatchesOn(watches: seq<Watch>, chains: seq<ChainId>, networks: Option<set<Network>>): seq<Watch> {
    if watches == [] then []
    else
      (if watches[0].chain in chains && (networks.None? || watches[0].network in networks.value)
        then [watches[0]] else [])
      + WatchesOn(watches[1..], chains, networks)
  }

  function StableId(ev: Event): Option<Id>
    requires ev.Transfer?
  {
    if ev.eventId.Some? then ev.eventId else if ev.txid.Some? then ev.txid else ev.cursor
  }

  function Unexpired(seen: map<EventKey, int>, now: int): map<EventKey, int> {
    map k | k in seen && seen[k] >= now :: seen[k]
  }

  // The watcher after an event, and whether the handler accepted it.
  function Deliver(w: Watcher, ev: Event, e: Env): (Watcher, bool) {
    if !Live(w, e) then (w, false)
    else
      var r := w.desk.receiver.value;
      match ev
      case Connected(unsupported) =>
        var r' := r.(connects := r.connects + 1, unsupported := unsupported);
        (CatchUp(w.(desk := w.desk.(receiver := Some(r'))), r',
                 if r'.connects == 1 then r.changed else ChainsOf(r.selected), e), true)
      case SyncRequired(networks, subscribing) =>
        var chains := if r.connects <= 1 && subscribing then r.changed else ChainsOf(r.selected);
        (CatchUp(w, r, NetworkChains(r, chains, networks), e), true)
      case Transfer(_, _, _, _, _, _) => DeliverTransfer(w, r, ev, e)
      case Unusable => (w, false)
  }

  function DeliverTransfer(w: Watcher, r: Receiver, ev: Event, e: Env): (Watcher, bool)
    requires ev.Transfer?
  {
    var watch := Find(r.selected, KeyOf(ev.network, ev.address));
    if watch.None? || watch.value.chain !in e.enabled then (w, false)
    else
      var chain := watch.value.chain;
      var v := w.(desk := w.desk.(seen := Unexpired(w.desk.seen, e.now)));
      var id := StableId(ev);
      var offer := Offer(chain, ev.txid, false, ev.eventId);
      if id.None? then (Queue(v, offer, e), true)
      else
        var k := EventKey(watch.value.network, id.value, ev.confirmed);
        if k in v.desk.seen && chain !in v.core.failed then (v, true)
        else (Queue(v.(desk := v.desk.(seen := v.desk.seen[k := e.now + SEEN_FOR])), offer, e), true)
  }

  function StopAll(w: Watcher, scope: Option<Scope>): Watcher {
    Watcher(Stop(w.core).(scope := scope), Desk([], [], None, w.desk.generation + 1, None, map[], map[], false, 0))
  }

  function Add(w: Watcher, entries: seq<Watch>, expected: Option<Scope>, e: Env): Watcher {
    if !SameScope(expected, e.scope) then w
    else
      var v := if SameScope(w.core.scope, expected) then w else StopAll(w, expected);
      v.(desk := v.desk.(owned := PutAll(v.desk.owned, entries, e),
                         subscribeTimer := v.desk.subscribeTimer || v.desk.batchDepth == 0))
  }

  function Resume(w: Watcher, e: Env): Watcher {
    if !Current(w.core, e) || w.desk.batchDepth > 0 then w
    else
      var v := QueueAll(w, ChainsOf(w.desk.subscribed), e);
      v.(desk := v.desk.(subscribeTimer := true))
  }

  function BeginBatch(w: Watcher): Watcher {
    w.(desk := w.desk.(batchDepth := w.desk.batchDepth + 1, subscribeTimer := false))
  }

  // token is the session in which the batch began.
  function EndBatch(w: Watcher, token: nat): Watcher {
    if token != w.core.session then w
    else
      var depth := if w.desk.batchDepth > 0 then w.desk.batchDepth - 1 else 0;
      w.(desk := w.desk.(batchDepth := depth, subscribeTimer := w.desk.subscribeTimer || depth == 0))
  }

  // ---- The machine ----

  datatype Action =
    | AddEntries(entries: seq<Watch>, expected: Option<Scope>)
    | Resumed
    | Arrives(event: Event)
    | SubscribeTimer
    | RefreshTimer
    | RefreshDone(job: nat)
    | AckDone(job: nat)
    | Fails(job: nat)
    | Catch(job: nat)
    | Finally(job: nat)
    | BatchBegins
    | BatchEnds(token: nat)
    | FlushCalled
    | StopCalled

  function Step(w: Watcher, a: Action, e: Env): Watcher {
    match a
    case AddEntries(entries, expected) => Add(w, entries, expected, e)
    case Resumed => Resume(w, e)
    case Arrives(event) => Deliver(w, event, e).0
    case SubscribeTimer => SubscribeFires(w, e)
    case RefreshTimer => w.(core := RefreshFires(w.core, e))
    case RefreshDone(j) => w.(core := RefreshResolves(w.core, j, e))
    case AckDone(j) => w.(core := AckResolves(w.core, j, e))
    case Fails(j) => w.(core := Rejects(w.core, j))
    case Catch(j) => w.(core := CatchRuns(w.core, j, e))
    case Finally(j) => w.(core := FinallyRuns(w.core, j, e))
    case BatchBegins => BeginBatch(w)
    case BatchEnds(token) => EndBatch(w, token)
    case FlushCalled => w.(core := Flush(w.core, LeasedChains(w.desk.subscribed, e), e))
    case StopCalled => StopAll(w, None)
  }

  function Run(w: Watcher, trace: seq<(Action, Env)>): Watcher {
    if trace == [] then w else Step(Run(w, Front(trace)), Last(trace).0, Last(trace).1)
  }

  // ---- Everything that happens to the scheduler is one of its operations ----

  lemma {:induction false} CatchUpOffers(w: Watcher, r: Receiver, chains: seq<ChainId>, e: Env)
      returns (offers: seq<Offer>)
    ensures CatchUp(w, r, chains, e).core == EnqueueAll(w.core, offers)
    ensures CatchUp(w, r, chains, e).desk.(lastCatchup := w.desk.lastCatchup) == w.desk
  {
    if chains == [] {
      offers := [];
    } else {
      offers := CatchUpOffers(w, r, Front(chains), e);
      var v := CatchUp(w, r, Front(chains), e);
      if CatchUp(w, r, chains, e).core != v.core {
        assert Front(offers + [CatchupOffer(Last(chains))]) == offers;
        offers := offers + [CatchupOffer(Last(chains))];
      }
    }
  }

  lemma {:induction false} QueueAllOffers(w: Watcher, chains: seq<ChainId>, e: Env) returns (offers: seq<Offer>)
    ensures QueueAll(w, chains, e).core == EnqueueAll(w.core, offers)
  {
    if chains == [] {
      offers := [];
    } else {
      offers := QueueAllOffers(w, Front(chains), e);
      var v := QueueAll(w, Front(chains), e);
      if QueueAll(w, chains, e).core != v.core {
        assert Front(offers + [CatchupOffer(Last(chains))]) == offers;
        offers := offers + [CatchupOffer(Last(chains))];
      }
    }
  }

  // The lease has an address on chain c, and the chain is enabled.
  ghost predicate Leases(d: Desk, e: Env, c: ChainId) {
    c in e.enabled && exists x :: x in d.subscribed && x.chain == c
  }

  lemma LeasesIs(d: Desk, e: Env, c: ChainId)
    ensures c in LeasedChains(d.subscribed, e) <==> Leases(d, e, c)
  {
  }

  // A lease was taken, or given up, in place of the old one.
  predicate Releases(before: Desk, after: Desk) {
    after.generation != before.generation
  }

  lemma SubscribeOp(w: Watcher, e: Env) returns (op: Op)
    ensures Subscribe(w, e).core == Apply(w.core, op, e)
    ensures Releases(w.desk, Subscribe(w, e).desk) <==> op.Leased?
    ensures op.Offered?
      || (op.Leased? && Current(w.core, e) && op.chains == LeasedChains(Subscribe(w, e).desk.subscribed, e))
  {
    var selected := Select(Enabled(w.desk.owned, e));
    if !Current(w.core, e) || w.desk.leaseKey == Some(Keys(selected)) {
      op := Offered([]);
    } else {
      var v := Release(w, selected, e);
      var r := Receiver(w.core.scope, v.desk.generation, selected, Changed(w.desk, selected), 0, {});
      var offers := CatchUpOffers(v.(desk := v.desk.(receiver := Some(r))), r, r.changed, e);
      op := Leased(LeasedChains(selected, e), if selected == [] then [] else offers);
    }
  }

  lemma DeliverOp(w: Watcher, ev: Event, e: Env) returns (op: Op)
    ensures Deliver(w, ev, e).0.core == Apply(w.core, op, e)
    ensures op.Offered?
  {
    op := Offered([]);
    if Live(w, e) {
      var r := w.desk.receiver.value;
      match ev
      case Connected(unsupported) =>
        var r' := r.(connects := r.connects + 1, unsupported := unsupported);
        var offers := CatchUpOffers(w.(desk := w.desk.(receiver := Some(r'))), r',
          if r'.connects == 1 then r.changed else ChainsOf(r.selected), e);
        op := Offered(offers);
      case SyncRequired(networks, subscribing) =>
        var offers := CatchUpOffers(w, r,
          NetworkChains(r, if r.connects <= 1 && subscribing then r.changed else ChainsOf(r.selected), networks), e);
        op := Offered(offers);
      case Transfer(_, _, _, _, _, _) => op := TransferOp(w, r, ev, e);
      case Unusable =>
    }
  }

  lemma TransferOp(w: Watcher, r: Receiver, ev: Event, e: Env) returns (op: Op)
    requires ev.Transfer?
    ensures DeliverTransfer(w, r, ev, e).0.core == Apply(w.core, op, e)
    ensures op.Offered?
  {
    op := Offered([]);
    var watch := Find(r.selected, KeyOf(ev.network, ev.address));
    if DeliverTransfer(w, r, ev, e).0.core != w.core {
      op := Offered([Offer(watch.value.chain, ev.txid, false, ev.eventId)]);
      EnqueueOne(w.core, op.offers[0]);
    }
  }

  lemma EnqueueOne(s: State, o: Offer)
    ensures EnqueueAll(s, [o]) == Enqueue(s, o)
  {
    assert Front([o]) == [] && Last([o]) == o;
    assert EnqueueAll(s, []) == s;
  }

  // The wallet being watched changes, so the watch stops first.
  predicate Rescopes(w: Watcher, a: Action, e: Env) {
    a.AddEntries? && SameScope(a.expected, e.scope) && !SameScope(w.core.scope, a.expected)
  }

  lemma AddOp(w: Watcher, entries: seq<Watch>, expected: Option<Scope>, e: Env) returns (op: Op)
    ensures Add(w, entries, expected, e).core == Apply(w.core, op, e)
    ensures op == if Rescopes(w, AddEntries(entries, expected), e) then Halted(expected) else Offered([])
  {
    hide PutAll, Stop;
    op := if Rescopes(w, AddEntries(entries, expected), e) then Halted(expected) else Offered([]);
  }

  lemma ResumeOp(w: Watcher, e: Env) returns (op: Op)
    ensures Resume(w, e).core == Apply(w.core, op, e) && op.Offered?
  {
    hide QueueAll;
    var offers := QueueAllOffers(w, ChainsOf(w.desk.subscribed), e);
    op := Offered(if !Current(w.core, e) || w.desk.batchDepth > 0 then [] else offers);
  }

  lemma SubscribeTimerOp(w: Watcher, e: Env) returns (op: Op)
    ensures SubscribeFires(w, e).core == Apply(w.core, op, e)
    ensures Releases(w.desk, SubscribeFires(w, e).desk) <==> op.Leased?
    ensures op.Offered? || (op.Leased? && Current(w.core, e)
      && op.chains == LeasedChains(SubscribeFires(w, e).desk.subscribed, e))
  {
    hide Subscribe, LeasedChains, Prune;
    if w.desk.subscribeTimer {
      op := SubscribeOp(w.(desk := w.desk.(subscribeTimer := false)), e);
    } else {
      op := Offered([]);
    }
  }

  // The timer and the callbacks are operations of the scheduler themselves.
  function Direct(a: Action): Option<Op> {
    match a
    case RefreshTimer => Some(Fired)
    case RefreshDone(j) => Some(Resolved(j))
    case AckDone(j) => Some(Acknowledged(j))
    case Fails(j) => Some(Threw(j))
    case Catch(j) => Some(Caught(j))
    case Finally(j) => Some(Finished(j))
    case _ => None
  }

  lemma DirectOp(w: Watcher, a: Action, e: Env)
    requires Direct(a).Some?
    ensures Step(w, a, e).core == Apply(w.core, Direct(a).value, e) && Step(w, a, e).desk == w.desk
  {
    hide RefreshFires, FinallyRuns, RefreshResolves, AckResolves, Rejects, CatchRuns;
  }

  // One step of the watch is one operation of its scheduler.
  lemma StepOp(w: Watcher, a: Action, e: Env) returns (op: Op)
    ensures Step(w, a, e).core == Apply(w.core, op, e)
    ensures a.FlushCalled? <==> op.Flushed?
    ensures op.Flushed? ==> op.leased == LeasedChains(w.desk.subscribed, e)
    ensures op.Leased? <==> a.SubscribeTimer? && Releases(w.desk, Step(w, a, e).desk)
    ensures op.Leased? ==>
      a.SubscribeTimer? && Current(w.core, e) && op.chains == LeasedChains(Step(w, a, e).desk.subscribed, e)
    ensures a.StopCalled? ==> op == Halted(None)
    ensures op.Halted? <==> a.StopCalled? || Rescopes(w, a, e)
    ensures Direct(a).Some? ==> op == Direct(a).value
    ensures Direct(a).None? ==> op.Offered? || op.Leased? || op.Flushed? || op.Halted?
  {
    hide Add, Resume, Deliver, SubscribeFires, StopAll, Flush, Prune, LeasedChains, Releases, SameScope;
    if Direct(a).Some? {
      DirectOp(w, a, e);
      return Direct(a).value;
    }
    match a
    case AddEntries(entries, expected) => op := AddOp(w, entries, expected, e);
    case Resumed => op := ResumeOp(w, e);
    case Arrives(event) => op := DeliverOp(w, event, e);
    case SubscribeTimer => op := SubscribeTimerOp(w, e);
    case BatchBegins => op := Offered([]);
    case BatchEnds(token) => op := Offered([]);
    case FlushCalled => op := Flushed(LeasedChains(w.desk.subscribed, e));
    case StopCalled =>
      op := Halted(None);
      StopAllCore(w, None);
  }

  lemma StopAllCore(w: Watcher, scope: Option<Scope>)
    ensures StopAll(w, scope).core == Stop(w.core).(scope := scope)
  {
    hide Stop;
  }
}
