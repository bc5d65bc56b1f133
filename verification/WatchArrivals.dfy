// What brings hints to the watch: transfers, catch-ups and the addresses it owns.
module WatchArrivals {
  import opened Basics
  import opened WatchScheduler
  import opened WatchSafety
  import opened OwnedWatches
  import opened WalletWatch

  // ---- Queued ----

  // One offer is queued: its chain's pending hint has its ids, and the timer runs.
  ghost predicate Queued(s: State, t: State, o: Offer) {
    && t.ledger == s.ledger + [Entry(o, Waiting)] && t.timer && Grew(s.pending, t.pending, o)
    && t == s.(pending := t.pending, ledger := t.ledger, timer := t.timer)
  }

  // The hint of the offer's chain takes the offer up and loses nothing; the
  // others are as before.
  ghost predicate Grew(p: seq<Hint>, q: seq<Hint>, o: Offer) {
    && (exists h :: h in q && Holds(h, o))
    && (forall h: Hint :: h.chain != o.chain ==> (h in q <==> h in p))
    && (forall h :: h in p && h.chain == o.chain ==> exists g :: g in q && Extends(g, h))
  }

  ghost predicate Holds(h: Hint, o: Offer) {
    && h.chain == o.chain && (h.catchup ==> o.catchup)
    && (o.txid.Some? ==> o.txid.value in h.txids) && (o.eventId.Some? ==> o.eventId.value in h.eventIds)
  }

  ghost predicate Extends(g: Hint, h: Hint) {
    g.chain == h.chain && h.txids <= g.txids && h.eventIds <= g.eventIds && (g.catchup ==> h.catchup)
  }

  lemma EnqueueQueues(s: State, o: Offer)
    requires Inv(s)
    ensures Queued(s, Enqueue(s, o), o)
  {
    InvPending(s);
    PendingGrew(s.pending, o);
    hide SetPending, PendingFor, Inv, Grew, MergeOne;
  }

  lemma PendingGrew(p: seq<Hint>, o: Offer)
    requires OnePerChain(p)
    ensures Grew(p, SetPending(p, MergeOne(PendingFor(p, o.chain), o)), o)
  {
    SetPendingQueues(p, o);
    var h := PendingFor(p, o.chain);
    var g := MergeOne(h, o);
    hide SetPending, PendingFor, MergeOne, Holds, Extends, OnePerChain;
    assert g.chain == o.chain;
  }

  lemma SetPendingQueues(p: seq<Hint>, o: Offer)
    requires OnePerChain(p)
    ensures var g := MergeOne(PendingFor(p, o.chain), o);
      && Holds(g, o) && g.chain == o.chain
      && (forall x :: x in SetPending(p, g) <==> x == g || (x in p && x.chain != o.chain))
      && (forall x :: x in p && x.chain == o.chain ==> Extends(g, x))
  {
    PendingForFacts(p, o.chain);
    var h := PendingFor(p, o.chain);
    var g := MergeOne(h, o);
    SetPendingFacts(p, g);
    hide SetPending, PendingFor;
    forall x | x in p && x.chain == o.chain ensures Extends(g, x) {
      PendingMember(p, o.chain);
      hide IsPending;
      OneForChain(p, x, h);
    }
  }

  lemma InvPending(s: State)
    requires Inv(s)
    ensures OnePerChain(s.pending)
  {
  }

  lemma OneForChain(p: seq<Hint>, x: Hint, y: Hint)
    requires OnePerChain(p) && x in p && y in p && x.chain == y.chain
    ensures x == y
  {
    var i :| 0 <= i < |p| && p[i] == x;
    var j :| 0 <= j < |p| && p[j] == y;
  }

  // ---- Transfers ----

  // The lease's receiver is the present one, and the wallet being watched may be.
  ghost predicate Hears(w: Watcher, e: Env) {
    && w.desk.receiver.Some? && w.desk.receiver.value.gen == w.desk.generation
    && e.canWatch && e.scope.Some? && w.desk.receiver.value.expected == e.scope
  }

  // The transfer is to leased address x, on an enabled chain.
  ghost predicate IsTo(w: Watcher, ev: Event, e: Env, x: Watch)
    requires ev.Transfer? && w.desk.receiver.Some?
  {
    x in w.desk.receiver.value.selected && WatchKey(x) == KeyOf(ev.network, ev.address) && x.chain in e.enabled
  }

  // What tells one transfer from another: its event id, or else its transaction,
  // or else its cursor.
  function Identity(ev: Event, x: Watch): Option<EventKey>
    requires ev.Transfer?
  {
    if ev.eventId.Some? then Some(EventKey(x.network, ev.eventId.value, ev.confirmed))
    else if ev.txid.Some? then Some(EventKey(x.network, ev.txid.value, ev.confirmed))
    else if ev.cursor.Some? then Some(EventKey(x.network, ev.cursor.value, ev.confirmed))
    else None
  }

  // It was heard less than 15 seconds ago, and its chain has not failed since.
  ghost predicate Repeats(w: Watcher, ev: Event, e: Env, x: Watch)
    requires ev.Transfer?
  {
    var k := Identity(ev, x);
    k.Some? && k.value in w.desk.seen && w.desk.seen[k.value] >= e.now && x.chain !in w.core.failed
  }

  lemma {:induction false} FindIs(watches: seq<Watch>, key: Key)
    ensures Find(watches, key).Some? <==> exists x :: x in watches && WatchKey(x) == key
    ensures Find(watches, key).Some?
      ==> Find(watches, key).value in watches && WatchKey(Find(watches, key).value) == key
  {
    if watches != [] {
      FindIs(Front(watches), key);
      assert watches == Front(watches) + [Last(watches)];
    }
  }

  lemma DeliverIs(w: Watcher, ev: Event, e: Env)
    requires ev.Transfer?
    ensures Hears(w, e) <==> Live(w, e)
    ensures Deliver(w, ev, e) == if Hears(w, e) then DeliverTransfer(w, w.desk.receiver.value, ev, e) else (w, false)
  {
    hide DeliverTransfer;
  }

  // The transfer is queued, unless it is a repeat.
  ghost predicate QueuedOnce(w: Watcher, t: Watcher, ev: Event, e: Env, x: Watch)
    requires ev.Transfer?
  {
    if Repeats(w, ev, e, x) then t.core == w.core
    else Queued(w.core, t.core, Offer(x.chain, ev.txid, false, ev.eventId))
  }

  // It is remembered for 15 seconds, and nothing else changes but what expires.
  ghost predicate Remembered(w: Watcher, t: Watcher, ev: Event, e: Env, x: Watch)
    requires ev.Transfer?
  {
    var key := Identity(ev, x);
    && (key.Some? ==>
          && key.value in t.desk.seen
          && t.desk.seen[key.value] == if Repeats(w, ev, e, x) then w.desk.seen[key.value] else e.now + 15_000)
    && (forall k :: k in t.desk.seen && key != Some(k) ==> k in w.desk.seen && t.desk.seen[k] == w.desk.seen[k])
    && (forall k :: k in w.desk.seen && w.desk.seen[k] >= e.now ==> k in t.desk.seen)
    && t.desk.(seen := w.desk.seen) == w.desk
  }

  ghost predicate Heard(w: Watcher, t: Watcher, ev: Event, e: Env, x: Watch)
    requires ev.Transfer?
  {
    QueuedOnce(w, t, ev, e, x) && Remembered(w, t, ev, e, x)
  }

  // A transfer to a leased address of an enabled chain is accepted, and queued
  // with its transaction and event ids unless it repeats one; any other is
  // refused and changes nothing.
  lemma TransferQueues(w: Watcher, ev: Event, e: Env)
    requires Inv(w.core) && ev.Transfer?
    ensures var (t, accepted) := Deliver(w, ev, e);
      && (accepted ==> Hears(w, e) && exists x :: IsTo(w, ev, e, x) && Heard(w, t, ev, e, x))
      && (!accepted ==> t == w)
      && (Hears(w, e) && (exists x :: IsTo(w, ev, e, x))
          && (forall y :: y in w.desk.receiver.value.selected && WatchKey(y) == KeyOf(ev.network, ev.address)
                ==> y.chain in e.enabled)
          ==> accepted)
  {
    DeliverIs(w, ev, e);
    if Hears(w, e) {
      var r := w.desk.receiver.value;
      FindIs(r.selected, KeyOf(ev.network, ev.address));
      var found := Find(r.selected, KeyOf(ev.network, ev.address));
      if found.Some? && found.value.chain in e.enabled {
        AcceptedIs(w, ev, e, found.value);
        assert IsTo(w, ev, e, found.value);
      }
      hide Find, KeyOf, WatchKey, Inv, Heard, Queue;
    }
  }

  lemma AcceptedIs(w: Watcher, ev: Event, e: Env, x: Watch)
    requires Inv(w.core) && ev.Transfer? && w.desk.receiver.Some?
    requires Find(w.desk.receiver.value.selected, KeyOf(ev.network, ev.address)) == Some(x) && x.chain in e.enabled
    ensures DeliverTransfer(w, w.desk.receiver.value, ev, e).1
    ensures Heard(w, DeliverTransfer(w, w.desk.receiver.value, ev, e).0, ev, e, x)
  {
    hide Queued, Inv, KeyOf, Find, Enqueue, Queue, DeliverTransfer, Unexpired, StableId, Identity, Repeats, Remembered;
    EnqueueQueues(w.core, Offer(x.chain, ev.txid, false, ev.eventId));
    IdentityIs(ev, x);
    RepeatsIs(w, ev, e, x);
    AcceptedParts(w, ev, e, x);
    SeenIs(w, DeliverTransfer(w, w.desk.receiver.value, ev, e).0, ev, e, x);
  }

  lemma SeenIs(w: Watcher, t: Watcher, ev: Event, e: Env, x: Watch)
    requires ev.Transfer?
    requires t.desk
      == w.desk.(seen := if Identity(ev, x).None? || Repeats(w, ev, e, x) then Unexpired(w.desk.seen, e.now)
      else Unexpired(w.desk.seen, e.now)[Identity(ev, x).value := e.now + 15_000])
    ensures Remembered(w, t, ev, e, x)
  {
    hide Identity, Repeats, Unexpired;
    RepeatsIs(w, ev, e, x);
  }

  // The handler's result, part by part.
  lemma AcceptedParts(w: Watcher, ev: Event, e: Env, x: Watch)
    requires ev.Transfer? && w.desk.receiver.Some?
    requires Find(w.desk.receiver.value.selected, KeyOf(ev.network, ev.address)) == Some(x) && x.chain in e.enabled
    ensures var (t, accepted) := DeliverTransfer(w, w.desk.receiver.value, ev, e);
      var kept, id := Unexpired(w.desk.seen, e.now), StableId(ev);
      var repeat := id.Some? && EventKey(x.network, id.value, ev.confirmed) in kept && x.chain !in w.core.failed;
      && accepted
      && t.core == (if repeat then w.core else Enqueue(w.core, Offer(x.chain, ev.txid, false, ev.eventId)))
      && t.desk == w.desk.(seen := if id.None? || repeat then kept
           else kept[EventKey(x.network, id.value, ev.confirmed) := e.now + 15_000])
  {
    hide KeyOf, Find, Enqueue, Unexpired, StableId;
  }

  lemma IdentityIs(ev: Event, x: Watch)
    requires ev.Transfer?
    ensures Identity(ev, x)
      == if StableId(ev).Some? then Some(EventKey(x.network, StableId(ev).value, ev.confirmed)) else None
  {
  }

  lemma RepeatsIs(w: Watcher, ev: Event, e: Env, x: Watch)
    requires ev.Transfer?
    ensures Repeats(w, ev, e, x) <==>
      Identity(ev, x).Some? && Identity(ev, x).value in Unexpired(w.desk.seen, e.now) && x.chain !in w.core.failed
    ensures forall k :: k in Unexpired(w.desk.seen, e.now) <==> k in w.desk.seen && w.desk.seen[k] >= e.now
    ensures forall k :: k in Unexpired(w.desk.seen, e.now) ==> Unexpired(w.desk.seen, e.now)[k] == w.desk.seen[k]
  {
    hide Identity;
  }

  // ---- Catch-ups ----

  // A catch-up for the chain was queued under this lease less than two seconds ago.
  predicate Throttled(d: Desk, c: ChainId, now: int) {
    (d.generation, c) in d.lastCatchup && now - d.lastCatchup[(d.generation, c)] < 2_000
  }

  ghost predicate Reaches(r: Receiver, c: ChainId) {
    exists x :: x in r.selected && x.chain == c && x.network !in r.unsupported
  }

  // What is new are catch-ups, of exactly the chains due.
  ghost predicate NewCatchups(l: seq<Entry>, l': seq<Entry>, due: set<ChainId>) {
    && l <= l'
    && (forall i ::
      |l| <= i < |l'| ==> l'[i].offer.chain in due && l'[i] == Entry(CatchupOffer(l'[i].offer.chain), Waiting))
    && (forall c :: c in due ==> exists i :: |l| <= i < |l'| && l'[i].offer.chain == c)
  }

  function Due(d: Desk, cs: set<ChainId>, now: int): set<ChainId> {
    set c | c in cs && !Throttled(d, c, now)
  }

  // Catch-ups are queued for exactly the chains cs that are not throttled, which
  // then are.
  ghost predicate CaughtUp(w: Watcher, t: Watcher, cs: set<ChainId>, e: Env) {
    && NewCatchups(w.core.ledger, t.core.ledger, Due(w.desk, cs, e.now))
    && (forall c :: c in Due(w.desk, cs, e.now) ==> IsPending(t.core.pending, c))
    && (forall c :: Throttled(t.desk, c, e.now) <==> Throttled(w.desk, c, e.now) || c in cs)
    && t.desk.(lastCatchup := w.desk.lastCatchup) == w.desk
  }

  lemma CaughtUpNone(w: Watcher, e: Env)
    ensures CaughtUp(w, w, {}, e)
  {
  }

  lemma QueueCatchup(w: Watcher, c: ChainId, e: Env)
    requires Inv(w.core)
    ensures var t := Queue(w, CatchupOffer(c), e);
      && Inv(t.core) && CaughtUp(w, t, {c}, e)
      && (forall d :: IsPending(w.core.pending, d) ==> IsPending(t.core.pending, d))
  {
    hide Inv, Enqueue, IsPending, Queue, CaughtUp, Throttled;
    EnqueueKeeps(w.core, CatchupOffer(c));
    StillThere(w.core, CatchupOffer(c));
    QueueParts(w, c, e);
    CaughtUpOne(w, Queue(w, CatchupOffer(c), e), c, e);
  }

  lemma CaughtUpOne(w: Watcher, t: Watcher, c: ChainId, e: Env)
    requires t.core.ledger == w.core.ledger
      + if Throttled(w.desk, c, e.now) then [] else [Entry(CatchupOffer(c), Waiting)]
    requires !Throttled(w.desk, c, e.now) ==> IsPending(t.core.pending, c)
    requires forall d :: Throttled(t.desk, d, e.now) <==> Throttled(w.desk, d, e.now) || d == c
    requires t.desk.(lastCatchup := w.desk.lastCatchup) == w.desk
    ensures CaughtUp(w, t, {c}, e)
  {
    hide IsPending, NewCatchups, Throttled;
    OneCatchup(w.core.ledger, c);
    assert Due(w.desk, {c}, e.now) == if Throttled(w.desk, c, e.now) then {} else {c};
  }

  lemma QueueParts(w: Watcher, c: ChainId, e: Env)
    ensures var t := Queue(w, CatchupOffer(c), e);
      && t.core == (if Throttled(w.desk, c, e.now) then w.core else Enqueue(w.core, CatchupOffer(c)))
      && t.core.ledger
        == w.core.ledger + (if Throttled(w.desk, c, e.now) then [] else [Entry(CatchupOffer(c), Waiting)])
      && (forall d :: Throttled(t.desk, d, e.now) <==> Throttled(w.desk, d, e.now) || d == c)
      && t.desk.(lastCatchup := w.desk.lastCatchup) == w.desk
  {
    hide SetPending, PendingFor, MergeOne;
  }

  lemma OneCatchup(l: seq<Entry>, c: ChainId)
    ensures NewCatchups(l, l + [], {}) && NewCatchups(l, l + [Entry(CatchupOffer(c), Waiting)], {c})
  {
    assert (l + [Entry(CatchupOffer(c), Waiting)])[|l|].offer.chain == c;
  }

  lemma StillThere(s: State, o: Offer)
    requires Inv(s)
    ensures forall d :: IsPending(Enqueue(s, o).pending, d) <==> IsPending(s.pending, d) || d == o.chain
  {
    InvPending(s);
    PendingForFacts(s.pending, o.chain);
    SetPendingFacts(s.pending, MergeOne(PendingFor(s.pending, o.chain), o));
    hide SetPending, PendingFor, Inv, IsPending;
    forall d ensures IsPending(Enqueue(s, o).pending, d) <==> IsPending(s.pending, d) || d == o.chain {
      PendingMember(Enqueue(s, o).pending, d);
      PendingMember(s.pending, d);
    }
  }

  lemma CaughtUpMore(w: Watcher, v: Watcher, t: Watcher, cs: set<ChainId>, c: ChainId, e: Env)
    requires CaughtUp(w, v, cs, e) && CaughtUp(v, t, {c}, e)
    requires forall d :: IsPending(v.core.pending, d) ==> IsPending(t.core.pending, d)
    ensures CaughtUp(w, t, cs + {c}, e)
  {
    hide IsPending, Throttled, NewCatchups;
    MoreCatchups(w.core.ledger, v.core.ledger, t.core.ledger, Due(w.desk, cs, e.now), Due(v.desk, {c}, e.now));
    assert Due(w.desk, cs + {c}, e.now) == Due(w.desk, cs, e.now) + Due(v.desk, {c}, e.now);
  }

  lemma MoreCatchups(l: seq<Entry>, m: seq<Entry>, n: seq<Entry>, cs: set<ChainId>, ds: set<ChainId>)
    requires NewCatchups(l, m, cs) && NewCatchups(m, n, ds)
    ensures NewCatchups(l, n, cs + ds)
  {
    forall c | c in cs + ds ensures exists i :: |l| <= i < |n| && n[i].offer.chain == c {
      if c in cs {
        var i :| |l| <= i < |m| && m[i].offer.chain == c;
        assert n[i] == m[i];
      } else {
        var i :| |m| <= i < |n| && n[i].offer.chain == c;
      }
    }
    assert forall i :: |l| <= i < |m| ==> n[i] == m[i];
  }

  function ReachedOf(r: Receiver, chains: seq<ChainId>): set<ChainId> {
    set c | c in chains && Supports(r, c)
  }

  lemma {:induction false} CatchUpQueues(w: Watcher, r: Receiver, chains: seq<ChainId>, e: Env)
    requires Inv(w.core)
    ensures Inv(CatchUp(w, r, chains, e).core)
    ensures CaughtUp(w, CatchUp(w, r, chains, e), ReachedOf(r, chains), e)
  {
    hide Inv, CaughtUp, Queue, Supports;
    if chains == [] {
      CaughtUpNone(w, e);
      assert ReachedOf(r, chains) == {};
    } else {
      var v, c := CatchUp(w, r, Front(chains), e), Last(chains);
      CatchUpQueues(w, r, Front(chains), e);
      assert chains == Front(chains) + [c];
      if Supports(r, c) {
        QueueCatchup(v, c, e);
        CaughtUpMore(w, v, Queue(v, CatchupOffer(c), e), ReachedOf(r, Front(chains)), c, e);
        assert ReachedOf(r, chains) == ReachedOf(r, Front(chains)) + {c};
      } else {
        assert ReachedOf(r, chains) == ReachedOf(r, Front(chains));
      }
    }
  }

  lemma {:induction false} QueueAllQueues(w: Watcher, chains: seq<ChainId>, e: Env)
    requires Inv(w.core)
    ensures Inv(QueueAll(w, chains, e).core)
    ensures CaughtUp(w, QueueAll(w, chains, e), (set c | c in chains), e)
  {
    hide Inv, CaughtUp, Queue;
    if chains == [] {
      CaughtUpNone(w, e);
      assert (set c | c in chains) == {};
    } else {
      var v, c := QueueAll(w, Front(chains), e), Last(chains);
      QueueAllQueues(w, Front(chains), e);
      assert chains == Front(chains) + [c];
      QueueCatchup(v, c, e);
      CaughtUpMore(w, v, Queue(v, CatchupOffer(c), e), (set d | d in Front(chains)), c, e);
      assert (set d | d in chains) == (set d | d in Front(chains)) + {c};
    }
  }

  // ---- Which chains an event catches up ----

  lemma {:induction false} ChainsOfIs(watches: seq<Watch>, c: ChainId)
    ensures c in ChainsOf(watches) <==> exists x :: x in watches && x.chain == c
  {
    if watches != [] {
      ChainsOfIs(Front(watches), c);
      assert watches == Front(watches) + [Last(watches)];
    }
  }

  lemma {:induction false} WatchesOnIs(watches: seq<Watch>, chains: seq<ChainId>,
      networks: Option<set<Network>>, x: Watch)
    ensures x in WatchesOn(watches, chains, networks)
      <==> x in watches && x.chain in chains && (networks.None? || x.network in networks.value)
  {
    if watches != [] {
      WatchesOnIs(watches[1..], chains, networks, x);
      assert watches == [watches[0]] + watches[1..];
    }
  }

  lemma {:induction false} NotKeyedIs(watches: seq<Watch>, keys: set<Key>, x: Watch)
    ensures x in NotKeyed(watches, keys) <==> x in watches && WatchKey(x) !in keys
  {
    if watches != [] {
      NotKeyedIs(watches[1..], keys, x);
      assert watches == [watches[0]] + watches[1..];
    }
  }

  lemma {:induction false} EnabledIs(watches: seq<Watch>, e: Env, x: Watch)
    ensures x in Enabled(watches, e) <==> x in watches && x.chain in e.enabled
  {
    if watches != [] {
      EnabledIs(watches[1..], e, x);
      assert watches == [watches[0]] + watches[1..];
    }
  }

  // The chains of leased addresses on supported networks; only the changed ones
  // at first.
  ghost function Wanted(r: Receiver, first: bool): set<ChainId> {
    set x | x in r.selected && x.network !in r.unsupported && (first ==> x.chain in r.changed) :: x.chain
  }

  lemma WantedIs(r: Receiver, first: bool)
    ensures Wanted(r, first) == ReachedOf(r, if first then r.changed else ChainsOf(r.selected))
  {
    forall c ensures c in Wanted(r, first) <==> c in ReachedOf(r, if first then r.changed else ChainsOf(r.selected)) {
      ChainsOfIs(r.selected, c);
    }
  }

  // A new connection catches up the changed chains the first time, and every
  // chain after that, as far as the transport supports their networks.
  lemma ConnectedCatchesUp(w: Watcher, unsupported: set<Network>, e: Env)
    requires Inv(w.core) && Hears(w, e)
    ensures var r := w.desk.receiver.value.(connects := w.desk.receiver.value.connects + 1, unsupported := unsupported);
      var (t, accepted) := Deliver(w, Connected(unsupported), e);
      accepted && CaughtUp(w.(desk := w.desk.(receiver := Some(r))), t, Wanted(r, r.connects == 1), e)
  {
    hide CaughtUp, CatchUp, Wanted, ReachedOf, Inv;
    var r := w.desk.receiver.value.(connects := w.desk.receiver.value.connects + 1, unsupported := unsupported);
    WantedIs(r, r.connects == 1);
    CatchUpQueues(w.(desk := w.desk.(receiver := Some(r))), r,
      if r.connects == 1 then r.changed else ChainsOf(r.selected), e);
  }

  // The chains of those on the networks named.
  ghost function Named(r: Receiver, networks: Option<set<Network>>, first: bool): set<ChainId> {
    set x | x in r.selected && (networks.None? || x.network in networks.value) && (first ==> x.chain in r.changed)
        && Reaches(r, x.chain)
      :: x.chain
  }

  lemma NamedIs(r: Receiver, networks: Option<set<Network>>, first: bool)
    ensures Named(r, networks, first)
      == ReachedOf(r, NetworkChains(r, if first then r.changed else ChainsOf(r.selected), networks))
  {
    var chains := if first then r.changed else ChainsOf(r.selected);
    forall c ensures c in Named(r, networks, first) <==> c in ReachedOf(r, NetworkChains(r, chains, networks)) {
      NamedChain(r, networks, chains, c);
      ChainsOfIs(r.selected, c);
    }
  }

  lemma NamedChain(r: Receiver, networks: Option<set<Network>>, chains: seq<ChainId>, c: ChainId)
    ensures c in NetworkChains(r, chains, networks)
      <==> c in chains && exists x :: x in r.selected && x.chain == c && (networks.None? || x.network in networks.value)
  {
    ChainsOfIs(WatchesOn(r.selected, chains, networks), c);
    forall x ensures x in WatchesOn(r.selected, chains, networks)
      <==> x in r.selected && x.chain in chains && (networks.None? || x.network in networks.value)
    {
      WatchesOnIs(r.selected, chains, networks, x);
    }
    hide WatchesOn, ChainsOf;
  }

  // A request to synchronize catches up the chains of the networks it names, only
  // the changed ones when the first connection subscribes.
  lemma SyncCatchesUp(w: Watcher, networks: Option<set<Network>>, subscribing: bool, e: Env)
    requires Inv(w.core) && Hears(w, e)
    ensures var r := w.desk.receiver.value;
      var (t, accepted) := Deliver(w, SyncRequired(networks, subscribing), e);
      accepted && CaughtUp(w, t, Named(r, networks, r.connects <= 1 && subscribing), e)
  {
    hide CaughtUp, CatchUp, Named, ReachedOf, NetworkChains, Inv;
    var r := w.desk.receiver.value;
    NamedIs(r, networks, r.connects <= 1 && subscribing);
    var chains := if r.connects <= 1 && subscribing then r.changed else ChainsOf(r.selected);
    CatchUpQueues(w, r, NetworkChains(r, chains, networks), e);
  }

  // Anything else, or anything at all when the receiver does not hear, is refused.
  lemma UnheardRefused(w: Watcher, ev: Event, e: Env)
    requires !Hears(w, e) || ev.Unusable?
    ensures Deliver(w, ev, e) == (w, false)
  {
    hide CatchUp, DeliverTransfer;
  }

  // Resuming, outside a batch and under the scope being watched, catches up every
  // leased chain and has the lease looked at again.
  lemma ResumeCatchesUp(w: Watcher, e: Env)
    requires Inv(w.core)
    ensures var t := Resume(w, e);
      if e.canWatch && w.core.scope.Some? && e.scope == w.core.scope && w.desk.batchDepth == 0 then
        && CaughtUp(w, t.(desk := t.desk.(subscribeTimer := w.desk.subscribeTimer)), set x | x in w.desk.subscribed ::
          x.chain, e)
        && t.desk.subscribeTimer
      else t == w
  {
    hide CaughtUp, QueueAll, Inv;
    var chains := ChainsOf(w.desk.subscribed);
    QueueAllQueues(w, chains, e);
    forall c ensures c in (set x | x in w.desk.subscribed :: x.chain) <==> c in chains {
      ChainsOfIs(w.desk.subscribed, c);
    }
    assert (set x | x in w.desk.subscribed :: x.chain) == set c | c in chains;
    CaughtUpTimer(w, QueueAll(w, chains, e), (set c | c in chains), e);
  }

  lemma CaughtUpTimer(w: Watcher, t: Watcher, cs: set<ChainId>, e: Env)
    requires CaughtUp(w, t, cs, e)
    ensures t.desk.subscribeTimer == w.desk.subscribeTimer
  {
  }

  // ---- Leases ----

  // Address x was not leased before.
  ghost predicate NewlyLeased(d: Desk, x: Watch) {
    forall y :: y in d.subscribed ==> WatchKey(y) != WatchKey(x)
  }

  lemma ChangedIs(d: Desk, selected: seq<Watch>, c: ChainId)
    ensures c in Changed(d, selected) <==> exists x :: x in selected && x.chain == c && NewlyLeased(d, x)
  {
    var keys := set k | k in Keys(d.subscribed);
    ChainsOfIs(NotKeyed(selected, keys), c);
    forall x ensures x in NotKeyed(selected, keys) <==> x in selected && NewlyLeased(d, x) {
      NotKeyedIs(selected, keys, x);
      KeysAre(d.subscribed, WatchKey(x));
    }
    hide ChainsOf, NotKeyed, Keys, NewlyLeased;
  }

  lemma KeysAre(watches: seq<Watch>, k: Key)
    ensures k in Keys(watches) <==> exists y :: y in watches && WatchKey(y) == k
  {
    if y :| y in watches && WatchKey(y) == k {
      var i :| 0 <= i < |watches| && watches[i] == y;
      assert Keys(watches)[i] == k;
    }
  }

  // What the new lease covers, who hears for it, and what it catches up.
  ghost predicate NewLease(w: Watcher, t: Watcher, e: Env) {
    && t.desk.generation == w.desk.generation + 1
    && t.desk.leaseKey == Some(Keys(t.desk.subscribed))
    && (forall x :: x in t.desk.subscribed ==> x in w.desk.owned && x.chain in e.enabled)
    && (t.desk.subscribed != [] ==>
          && t.desk.receiver.Some?
          && var r := t.desk.receiver.value;
             && r.expected == w.core.scope && r.gen == t.desk.generation && r.selected == t.desk.subscribed
             && r.connects == 0 && r.unsupported == {}
             && (forall c :: c in r.changed <==> exists x :: x in r.selected && x.chain == c && NewlyLeased(w.desk, x))
             && |t.core.ledger| >= |w.core.ledger|
             && NewCatchups(t.core.ledger[..|w.core.ledger|], t.core.ledger, set c | c in r.changed))
    && (t.desk.subscribed == [] ==> |t.core.ledger| == |w.core.ledger|)
  }

  // When the subscribe timer fires under the scope being watched, the lease is
  // made to cover the owned addresses on enabled chains, accounts and recent
  // leaves, unless it does already.
  lemma SubscribeLeases(w: Watcher, e: Env)
    requires Inv(w.core) && w.desk.subscribeTimer
    ensures var t, selected := SubscribeFires(w, e), Select(Enabled(w.desk.owned, e));
      && !t.desk.subscribeTimer
      && if e.canWatch && w.core.scope.Some? && e.scope == w.core.scope && w.desk.leaseKey != Some(Keys(selected)) then
           t.desk.subscribed == selected && NewLease(w, t, e)
         else t == w.(desk := w.desk.(subscribeTimer := false))
  {
    var d := w.desk.(subscribeTimer := false);
    var v := w.(desk := d);
    var selected := Select(Enabled(d.owned, e));
    hide Inv, Select, Enabled, Release, CatchUp, Keys;
    if Current(w.core, e) && d.leaseKey != Some(Keys(selected)) {
      SelectedAre(d.owned, e);
      LeaseParts(v, e);
    }
  }

  lemma SelectedAre(owned: seq<Watch>, e: Env)
    ensures forall x :: x in Select(Enabled(owned, e)) ==> x in owned && x.chain in e.enabled
  {
    SelectFavoursAccounts(Enabled(owned, e));
    hide Select, Enabled;
    forall x | x in Select(Enabled(owned, e)) ensures x in owned && x.chain in e.enabled {
      EnabledIs(owned, e, x);
    }
  }

  lemma LeaseParts(w: Watcher, e: Env)
    requires Inv(w.core) && Current(w.core, e)
    requires w.desk.leaseKey != Some(Keys(Select(Enabled(w.desk.owned, e))))
    requires forall x :: x in Select(Enabled(w.desk.owned, e)) ==> x in w.desk.owned && x.chain in e.enabled
    ensures var t := Subscribe(w, e);
      && t.desk.subscribed == Select(Enabled(w.desk.owned, e)) && NewLease(w, t, e)
      && t.desk.subscribeTimer == w.desk.subscribeTimer
  {
    var selected := Select(Enabled(w.desk.owned, e));
    hide Inv, Select, Enabled, CatchUp, Keys, Prune, Changed, NewCatchups, CaughtUp;
    var v := Release(w, selected, e);
    PruneKeeps(w.core, LeasedChains(selected, e));
    PruneLedger(w.core, LeasedChains(selected, e));
    if selected != [] {
      var r := Receiver(w.core.scope, v.desk.generation, selected, Changed(w.desk, selected), 0, {});
      var u := v.(desk := v.desk.(receiver := Some(r)));
      CatchUpQueues(u, r, r.changed, e);
      ChangedReached(w.desk, r);
      AllNew(u, CatchUp(u, r, r.changed, e), ReachedOf(r, r.changed), e);
      forall c ensures c in r.changed <==> exists x :: x in r.selected && x.chain == c && NewlyLeased(w.desk, x) {
        ChangedIs(w.desk, selected, c);
      }
    }
  }

  lemma PruneLedger(s: State, chains: set<ChainId>)
    ensures |Prune(s, chains).ledger| == |s.ledger|
  {
  }

  lemma ChangedReached(d: Desk, r: Receiver)
    requires r.changed == Changed(d, r.selected) && r.unsupported == {}
    ensures ReachedOf(r, r.changed) == set c | c in r.changed
  {
    forall c | c in r.changed ensures Supports(r, c) {
      ChangedIs(d, r.selected, c);
      var x :| x in r.selected && x.chain == c && NewlyLeased(d, x);
      assert x.network !in r.unsupported;
    }
  }

  // Under a new lease nothing is throttled.
  lemma AllNew(u: Watcher, t: Watcher, cs: set<ChainId>, e: Env)
    requires u.desk.lastCatchup == map[] && CaughtUp(u, t, cs, e)
    ensures |t.core.ledger| >= |u.core.ledger|
    ensures NewCatchups(t.core.ledger[..|u.core.ledger|], t.core.ledger, cs)
    ensures t.desk.(lastCatchup := map[]) == u.desk
  {
    assert Due(u.desk, cs, e.now) == cs;
    assert t.core.ledger[..|u.core.ledger|] == u.core.ledger by {
      assert u.core.ledger <= t.core.ledger;
    }
  }

  // ---- Owned addresses ----

  ghost predicate IsUsable(x: Watch, e: Env) {
    x.address != "" && x.network.id != "" && x.chain.name != "" && x.chain in e.enabled
  }

  lemma {:induction false} PutOwnedIs(owned: seq<Watch>, x: Watch, y: Watch)
    requires DistinctKeys(owned)
    ensures y in PutOwned(owned, x) <==> y == x || (y in owned && WatchKey(y) != WatchKey(x))
    ensures DistinctKeys(PutOwned(owned, x))
  {
    if owned != [] && WatchKey(owned[0]) != WatchKey(x) {
      PutOwnedIs(owned[1..], x, y);
      PutOwnedTail(owned, x);
    } else if owned != [] {
      assert owned == [owned[0]] + owned[1..];
      var q := [x] + owned[1..];
      assert forall i :: 0 < i < |q| ==> q[i] == owned[i];
    }
  }

  lemma PutOwnedTail(owned: seq<Watch>, x: Watch)
    requires owned != [] && WatchKey(owned[0]) != WatchKey(x) && DistinctKeys(owned)
    requires DistinctKeys(PutOwned(owned[1..], x))
    ensures DistinctKeys(PutOwned(owned, x))
    ensures forall y :: y in PutOwned(owned, x) <==> y == owned[0] || y in PutOwned(owned[1..], x)
    ensures forall y :: y in owned <==> y == owned[0] || y in owned[1..]
  {
    var rest := PutOwned(owned[1..], x);
    assert owned == [owned[0]] + owned[1..];
    PutOwnedMembers(owned[1..], x);
    forall i | 0 <= i < |rest| ensures WatchKey(rest[i]) != WatchKey(owned[0]) {
      assert rest[i] in rest;
    }
    hide PutOwned;
    assert forall i :: 0 < i < |owned| ==> owned[i] == owned[1..][i - 1];
  }

  lemma {:induction false} PutOwnedMembers(owned: seq<Watch>, x: Watch)
    ensures forall y :: y in PutOwned(owned, x) ==> y == x || y in owned
  {
    if owned != [] && WatchKey(owned[0]) != WatchKey(x) {
      PutOwnedMembers(owned[1..], x);
    }
  }

  ghost predicate DistinctKeys(owned: seq<Watch>) {
    forall i, j :: 0 <= i < j < |owned| ==> WatchKey(owned[i]) != WatchKey(owned[j])
  }

  // Entry i is usable, and no later usable one has its key.
  ghost predicate IsLatest(entries: seq<Watch>, e: Env, i: nat)
    requires i < |entries|
  {
    IsUsable(entries[i], e)
    && forall j :: i < j < |entries| && IsUsable(entries[j], e) ==> WatchKey(entries[j]) != WatchKey(entries[i])
  }

  // What is owned: the latest usable entry of each key, and what no usable entry
  // replaces.
  ghost predicate Owns(owned: seq<Watch>, entries: seq<Watch>, e: Env, y: Watch) {
    Latest(entries, e, y) || (y in owned && Unreplaced(entries, e, y))
  }

  lemma LatestSnoc(entries: seq<Watch>, e: Env, i: nat)
    requires i < |entries| - 1
    ensures IsLatest(entries, e, i)
      <==> IsLatest(Front(entries), e, i)
           && (IsUsable(Last(entries), e) ==> WatchKey(Last(entries)) != WatchKey(entries[i]))
  {
    hide IsUsable, WatchKey;
    assert forall j :: 0 <= j < |entries| - 1 ==> Front(entries)[j] == entries[j];
    assert entries[|entries| - 1] == Last(entries);
  }

  // The latest usable entry of its key is y.
  ghost predicate Latest(entries: seq<Watch>, e: Env, y: Watch) {
    exists i :: 0 <= i < |entries| && entries[i] == y && IsLatest(entries, e, i)
  }

  lemma LatestGrows(entries: seq<Watch>, e: Env, y: Watch)
    requires entries != [] && Latest(Front(entries), e, y)
    requires IsUsable(Last(entries), e) ==> WatchKey(Last(entries)) != WatchKey(y)
    ensures Latest(entries, e, y)
  {
    hide IsUsable, WatchKey, IsLatest;
    var i :| 0 <= i < |Front(entries)| && Front(entries)[i] == y && IsLatest(Front(entries), e, i);
    LatestSnoc(entries, e, i);
    assert entries[i] == y;
  }

  lemma LatestLast(entries: seq<Watch>, e: Env)
    requires entries != [] && IsUsable(Last(entries), e)
    ensures Latest(entries, e, Last(entries))
  {
    assert IsLatest(entries, e, |entries| - 1);
  }

  lemma LatestShrinks(entries: seq<Watch>, e: Env, y: Watch)
    requires entries != [] && Latest(entries, e, y)
    ensures var x := Last(entries);
      || (y == x && IsUsable(x, e))
      || (Latest(Front(entries), e, y) && (IsUsable(x, e) ==> WatchKey(x) != WatchKey(y)))
  {
    var i :| 0 <= i < |entries| && entries[i] == y && IsLatest(entries, e, i);
    hide IsUsable, WatchKey;
    if i < |entries| - 1 {
      LatestSnoc(entries, e, i);
      assert Front(entries)[i] == y;
    }
  }

  lemma LatestIs(entries: seq<Watch>, e: Env, y: Watch)
    requires entries != []
    ensures var x := Last(entries);
      Latest(entries, e, y)
      <==> (y == x && IsUsable(x, e))
           || (Latest(Front(entries), e, y) && (IsUsable(x, e) ==> WatchKey(x) != WatchKey(y)))
  {
    hide IsUsable, WatchKey, Latest;
    if Latest(entries, e, y) {
      LatestShrinks(entries, e, y);
    }
    if IsUsable(Last(entries), e) {
      LatestLast(entries, e);
    }
    if Latest(Front(entries), e, y) && (IsUsable(Last(entries), e) ==> WatchKey(Last(entries)) != WatchKey(y)) {
      LatestGrows(entries, e, y);
    }
  }

  // No usable entry has the key of y.
  ghost predicate Unreplaced(entries: seq<Watch>, e: Env, y: Watch) {
    forall i :: 0 <= i < |entries| && IsUsable(entries[i], e) ==> WatchKey(entries[i]) != WatchKey(y)
  }

  lemma UnreplacedIs(entries: seq<Watch>, e: Env, y: Watch)
    requires entries != []
    ensures Unreplaced(entries, e, y)
      <==> Unreplaced(Front(entries), e, y) && (IsUsable(Last(entries), e) ==> WatchKey(Last(entries)) != WatchKey(y))
  {
    hide IsUsable, WatchKey;
    assert forall j :: 0 <= j < |entries| - 1 ==> Front(entries)[j] == entries[j];
    assert entries[|entries| - 1] == Last(entries);
  }

  lemma OwnsSnoc(owned: seq<Watch>, entries: seq<Watch>, e: Env, y: Watch)
    requires entries != []
    ensures var x := Last(entries);
      Owns(owned, entries, e, y) <==>
        if IsUsable(x, e) then y == x || (Owns(owned, Front(entries), e, y) && WatchKey(y) != WatchKey(x))
        else Owns(owned, Front(entries), e, y)
  {
    LatestIs(entries, e, y);
    UnreplacedIs(entries, e, y);
    hide IsUsable, WatchKey, Latest, Unreplaced;
  }

  lemma {:induction false} PutAllOwns(owned: seq<Watch>, entries: seq<Watch>, e: Env, y: Watch)
    requires DistinctKeys(owned)
    ensures y in PutAll(owned, entries, e) <==> Owns(owned, entries, e, y)
    ensures DistinctKeys(PutAll(owned, entries, e))
  {
    if entries != [] {
      PutAllOwns(owned, Front(entries), e, y);
      OwnsSnoc(owned, entries, e, y);
      if IsUsable(Last(entries), e) {
        PutOwnedIs(PutAll(owned, Front(entries), e), Last(entries), y);
      }
      hide Owns, DistinctKeys, PutOwned;
    }
  }

  // Adding entries for the wallet being watched owns the usable ones, and has the
  // lease looked at unless a batch is under way; for any other wallet it does
  // nothing.
  lemma AddOwns(w: Watcher, entries: seq<Watch>, expected: Option<Scope>, e: Env, y: Watch)
    requires DistinctKeys(w.desk.owned)
    ensures var t := Add(w, entries, expected, e);
      && DistinctKeys(t.desk.owned)
      && if expected.None? || expected != e.scope then t == w
         else
           var same := w.core.scope == expected;
           && t.core.scope == expected
           && (y in t.desk.owned <==> Owns(if same then w.desk.owned else [], entries, e, y))
           && (same ==> t == w.(desk := t.desk))
           && (!same || w.desk.batchDepth == 0 ==> t.desk.subscribeTimer)
  {
    PutAllOwns(w.desk.owned, entries, e, y);
    PutAllOwns([], entries, e, y);
    hide Owns, PutAll, DistinctKeys, Stop;
  }

  // ---- Batches ----

  // During a batch nothing looks at the lease; its end does.
  lemma BatchStep(w: Watcher, a: Action, e: Env)
    requires w.desk.batchDepth > 0 ==> !w.desk.subscribeTimer
    ensures var t := Step(w, a, e).desk;
      && (t.batchDepth > 0 ==> !t.subscribeTimer)
      && (a.BatchEnds? && a.token == w.core.session && w.desk.batchDepth <= 1 ==> t.subscribeTimer)
      && t.batchDepth ==
           if a.StopCalled? || Rescopes(w, a, e) then 0
           else if a.BatchBegins? then w.desk.batchDepth + 1
           else if a.BatchEnds? && a.token == w.core.session && w.desk.batchDepth > 0 then w.desk.batchDepth - 1
           else w.desk.batchDepth
  {
    hide PutAll, Stop, Select, RefreshFires, FinallyRuns, RefreshResolves, AckResolves, Rejects, CatchRuns,
      Flush, Prune;
    match a
    case Arrives(event) => DeliverTimer(w, event, e);
    case SubscribeTimer => SubscribeFrame(w, e);
    case Resumed =>
      hide QueueAll;
      QueueAllFrame(w, ChainsOf(w.desk.subscribed), e);
    case AddEntries(_, _) =>
    case _ =>
      hide Deliver, Subscribe, Add, Resume;
  }

  lemma SubscribeFrame(w: Watcher, e: Env)
    ensures var t := SubscribeFires(w, e).desk;
      t.batchDepth == w.desk.batchDepth && (t.subscribeTimer ==> w.desk.subscribeTimer)
  {
    hide Select, Prune, CatchUp, LeasedChains, Enabled, Keys, Changed;
    var v := w.(desk := w.desk.(subscribeTimer := false));
    var selected := Select(Enabled(v.desk.owned, e));
    var u := Release(v, selected, e);
    var r := Receiver(v.core.scope, u.desk.generation, selected, Changed(v.desk, selected), 0, {});
    var offers := CatchUpOffers(u.(desk := u.desk.(receiver := Some(r))), r, r.changed, e);
  }

  lemma {:induction false} QueueAllFrame(w: Watcher, chains: seq<ChainId>, e: Env)
    ensures QueueAll(w, chains, e).desk.(lastCatchup := w.desk.lastCatchup) == w.desk
  {
    if chains != [] {
      QueueAllFrame(w, Front(chains), e);
    }
  }

  lemma DeliverTimer(w: Watcher, ev: Event, e: Env)
    ensures var t := Deliver(w, ev, e).0.desk;
      t.batchDepth == w.desk.batchDepth && t.subscribeTimer == w.desk.subscribeTimer
  {
    hide CatchUp, Find, Enqueue, Unexpired;
    if Live(w, e) {
      var r := w.desk.receiver.value;
      match ev
      case Connected(unsupported) =>
        var r' := r.(connects := r.connects + 1, unsupported := unsupported);
        var offers := CatchUpOffers(w.(desk := w.desk.(receiver := Some(r'))), r',
          if r'.connects == 1 then r.changed else ChainsOf(r.selected), e);
      case SyncRequired(networks, subscribing) =>
        var chains := if r.connects <= 1 && subscribing then r.changed else ChainsOf(r.selected);
        var offers := CatchUpOffers(w, r, NetworkChains(r, chains, networks), e);
      case Transfer(_, _, _, _, _, _) =>
      case Unusable =>
    }
  }

  // In every run the subscribe timer is not set while a batch is under way.
  lemma {:induction false} BatchHolds(trace: seq<(Action, Env)>)
    ensures var d := Run(START, trace).desk; d.batchDepth > 0 ==> !d.subscribeTimer
  {
    if trace != [] {
      BatchHolds(Front(trace));
      BatchStep(Run(START, Front(trace)), Last(trace).0, Last(trace).1);
      hide Step;
    }
  }
}
