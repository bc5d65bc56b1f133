// The refresh scheduler inside the active-wallet watch: hints wait in a pending
// map, at most two chains refresh at a time, and flush callers wait for quiet.
//
// A State carries the closure's variables plus the history needed to state what
// happens over a run: every offer ever accepted and where it is now, every
// refresh job ever started, every acknowledgement sent and every flush verdict.
module WatchScheduler {
  import opened Basics

  datatype ChainId = ChainId(name: string)
  datatype Id = Id(text: string)
  datatype Scope = Scope(epoch: int, deviceId: string, walletId: string, wallet: int)

  // What the injected getters answer during one synchronous stretch.
  datatype Env = Env(scope: Option<Scope>, canWatch: bool, enabled: set<ChainId>, now: int)

  // One accepted call of queue.
  datatype Offer = Offer(chain: ChainId, txid: Option<Id>, catchup: bool, eventId: Option<Id>)

  datatype Hint = Hint(chain: ChainId, txids: seq<Id>, catchup: bool, eventIds: seq<Id>)

  // The callbacks a refresh promise still has to run.
  datatype Stage = Refreshing | Acknowledging | Rejected | Finishing | Done

  // session and expected are the values captured when the job started.
  datatype Job = Job(hint: Hint, session: nat, expected: Option<Scope>, stage: Stage, refreshed: bool)

  datatype Ack = Ack(job: nat, eventIds: seq<Id>, scope: Scope)

  datatype Reason = Stopped | Disabled | Unleased
  datatype Fate = Waiting | Handed(job: nat) | Dropped(why: Reason)
  datatype Entry = Entry(offer: Offer, fate: Fate)

  datatype State = State(
    scope: Option<Scope>,
    session: nat,
    pending: seq<Hint>,
    running: map<ChainId, nat>,
    failed: set<ChainId>,
    timer: bool,
    waiters: map<nat, nat>,
    jobs: seq<Job>,
    ledger: seq<Entry>,
    acks: seq<Ack>,
    verdicts: map<nat, bool>,
    flushes: nat,
    // The last drain since stop gave up because the scope was not current.
    stalled: bool)

  const SLOTS: nat := 2

  const INITIAL: State := State(None, 0, [], map[], {}, false, map[], [], [], [], map[], 0, false)

  // ---- Guards ----

  predicate SameScope(left: Option<Scope>, right: Option<Scope>) {
    left.Some? && left == right
  }

  predicate Current(s: State, e: Env) {
    e.canWatch && SameScope(s.scope, e.scope)
  }

  predicate CurrentSession(s: State, job: Job, e: Env) {
    job.session == s.session && e.canWatch && SameScope(job.expected, e.scope)
  }

  // ---- Hints ----

  function AddId(ids: seq<Id>, x: Option<Id>): seq<Id> {
    if x.Some? && x.value !in ids then ids + [x.value] else ids
  }

  function MergeOne(h: Hint, o: Offer): Hint {
    Hint(h.chain, AddId(h.txids, o.txid), h.catchup && o.catchup, AddId(h.eventIds, o.eventId))
  }

  function Merged(c: ChainId, offers: seq<Offer>): Hint {
    if offers == [] then Hint(c, [], true, []) else MergeOne(Merged(c, Front(offers)), Last(offers))
  }

  // A merged hint is the duplicate-free union of its offers, and a catch-up
  // only if every offer was one.
  lemma {:induction false} MergedMeaning(c: ChainId, offers: seq<Offer>)
    ensures Merged(c, offers).chain == c
    ensures Distinct(Merged(c, offers).txids) && Distinct(Merged(c, offers).eventIds)
    ensures forall x :: x in Merged(c, offers).txids <==> exists o :: o in offers && o.txid == Some(x)
    ensures forall x :: x in Merged(c, offers).eventIds <==> exists o :: o in offers && o.eventId == Some(x)
    ensures Merged(c, offers).catchup <==> forall o :: o in offers ==> o.catchup
  {
    MergedTxids(c, offers);
    MergedEventIds(c, offers);
    MergedCatchup(c, offers);
  }

  lemma {:induction false} MergedTxids(c: ChainId, offers: seq<Offer>)
    ensures Distinct(Merged(c, offers).txids)
    ensures forall x :: x in Merged(c, offers).txids <==> exists o :: o in offers && o.txid == Some(x)
  {
    if offers != [] {
      MergedTxids(c, Front(offers));
      assert forall o :: o in offers <==> o in Front(offers) || o == Last(offers);
    }
  }

  lemma {:induction false} MergedEventIds(c: ChainId, offers: seq<Offer>)
    ensures Distinct(Merged(c, offers).eventIds)
    ensures forall x :: x in Merged(c, offers).eventIds <==> exists o :: o in offers && o.eventId == Some(x)
  {
    if offers != [] {
      MergedEventIds(c, Front(offers));
      assert forall o :: o in offers <==> o in Front(offers) || o == Last(offers);
    }
  }

  lemma {:induction false} MergedCatchup(c: ChainId, offers: seq<Offer>)
    ensures Merged(c, offers).chain == c
    ensures Merged(c, offers).catchup <==> forall o :: o in offers ==> o.catchup
  {
    if offers != [] {
      MergedCatchup(c, Front(offers));
      assert forall o :: o in offers <==> o in Front(offers) || o == Last(offers);
    }
  }

  // ---- Pending map ----

  ghost predicate OnePerChain(pending: seq<Hint>) {
    forall i, j :: 0 <= i < j < |pending| ==> pending[i].chain != pending[j].chain
  }

  predicate IsPending(pending: seq<Hint>, c: ChainId) {
    exists i :: 0 <= i < |pending| && pending[i].chain == c
  }

  function Chains(pending: seq<Hint>): set<ChainId> {
    set h | h in pending :: h.chain
  }

  // Map.set: an existing chain keeps its place, a new one goes last.
  function SetPending(pending: seq<Hint>, h: Hint): seq<Hint> {
    if pending == [] then [h]
    else if pending[0].chain == h.chain then [h] + pending[1..]
    else [pending[0]] + SetPending(pending[1..], h)
  }

  function PendingFor(pending: seq<Hint>, c: ChainId): Hint {
    if pending == [] then Merged(c, [])
    else if pending[0].chain == c then pending[0]
    else PendingFor(pending[1..], c)
  }

  function Keep(pending: seq<Hint>, chains: set<ChainId>): seq<Hint> {
    if pending == [] then []
    else if pending[0].chain in chains then [pending[0]] + Keep(pending[1..], chains)
    else Keep(pending[1..], chains)
  }

  // ---- Ledger ----

  // The offers for chain c with the given fate, oldest first.
  function Picked(ledger: seq<Entry>, c: ChainId, f: Fate): seq<Offer> {
    if ledger == [] then []
    else
      var rest := Picked(Front(ledger), c, f);
      var e := Last(ledger);
      if e.offer.chain == c && e.fate == f then rest + [e.offer] else rest
  }

  function Refate(ledger: seq<Entry>, chains: set<ChainId>, f: Fate): (r: seq<Entry>)
    ensures |r| == |ledger|
    ensures forall i :: 0 <= i < |r| ==>
      r[i] == if ledger[i].fate == Waiting && ledger[i].offer.chain in chains then Entry(ledger[i].offer, f)
        else ledger[i]
  {
    seq(|ledger|, i requires 0 <= i < |ledger| =>
      if ledger[i].fate == Waiting && ledger[i].offer.chain in chains then Entry(ledger[i].offer, f) else ledger[i])
  }

  // ---- Operations ----

  function Enqueue(s: State, o: Offer): State {
    s.(pending := SetPending(s.pending, MergeOne(PendingFor(s.pending, o.chain), o)),
       ledger := s.ledger + [Entry(o, Waiting)],
       timer := true)
  }

  function DropAt(s: State, i: nat): State
    requires i < |s.pending|
  {
    s.(pending := Without(s.pending, i),
       ledger := Refate(s.ledger, {s.pending[i].chain}, Dropped(Disabled)))
  }

  function StartAt(s: State, i: nat): State
    requires i < |s.pending|
  {
    var h := s.pending[i];
    s.(pending := Without(s.pending, i),
       running := s.running[h.chain := |s.jobs|],
       jobs := s.jobs + [Job(h, s.session, s.scope, Refreshing, false)],
       ledger := Refate(s.ledger, {h.chain}, Handed(|s.jobs|)))
  }

  // drain's loop over the pending map, from position i.
  function Sweep(s: State, i: nat, e: Env): State
    decreases |s.pending| - i
  {
    if i >= |s.pending| then s
    else if s.pending[i].chain !in e.enabled then Sweep(DropAt(s, i), i, e)
    else if |s.running| >= SLOTS then s
    else if s.pending[i].chain in s.running then Sweep(s, i + 1, e)
    else Sweep(StartAt(s, i), i, e)
  }

  // The verdicts once every waiting flush is answered; only one asked in this
  // session can be told true.
  function Record(verdicts: map<nat, bool>, waiters: map<nat, nat>, session: nat, ok: bool): (r: map<nat, bool>)
    ensures forall w :: w in r <==> w in verdicts || w in waiters
    ensures forall w :: w in r ==> r[w] == if w in waiters then waiters[w] == session && ok else verdicts[w]
  {
    verdicts + map w | w in waiters :: waiters[w] == session && ok
  }

  function Settle(s: State, e: Env): State {
    if s.pending != [] || s.running != map[] then s
    else
      s.(verdicts := Record(s.verdicts, s.waiters, s.session, Current(s, e) && s.failed == {}), waiters := map[])
  }

  function Drain(s: State, e: Env): State {
    if !Current(s, e) then s.(stalled := true)
    else Settle(Sweep(s, 0, e).(stalled := false), e)
  }

  function RefreshFires(s: State, e: Env): State {
    if s.timer then Drain(s.(timer := false), e) else s
  }

  // pruneInactive: keep only leased and enabled chains.
  function Prune(s: State, chains: set<ChainId>): State {
    s.(failed := s.failed * chains,
       pending := Keep(s.pending, chains),
       ledger := Refate(s.ledger, Chains(s.pending) - chains, Dropped(Unleased)))
  }

  function Stop(s: State): State {
    s.(session := s.session + 1, timer := false, pending := [], running := map[], failed := {},
       ledger := Refate(s.ledger, Chains(s.pending), Dropped(Stopped)),
       verdicts := Record(s.verdicts, s.waiters, s.session, false), waiters := map[],
       scope := None, stalled := false)
  }

  function Flush(s: State, leased: set<ChainId>, e: Env): State {
    var s0 := s.(flushes := s.flushes + 1);
    if !Current(s, e) then s0.(verdicts := s.verdicts[s.flushes := false])
    else
      var s1 := Prune(s0, leased);
      if s1.pending == [] && s1.running == map[] then s1.(verdicts := s1.verdicts[s.flushes := s1.failed == {}])
      else Drain(s1.(waiters := s1.waiters[s.flushes := s.session]), e)
  }

  // ---- Job callbacks; each runs only in the stage that awaits it ----

  predicate At(s: State, j: nat, stage: Stage) {
    j < |s.jobs| && s.jobs[j].stage == stage
  }

  function Advance(s: State, j: nat, stage: Stage): State
    requires j < |s.jobs|
  {
    s.(jobs := s.jobs[j :=
      s.jobs[j].(stage := stage,
      refreshed := s.jobs[j].refreshed || (s.jobs[j].stage == Refreshing && stage != Rejected))])
  }

  function Succeed(s: State, j: nat, e: Env): State
    requires j < |s.jobs|
  {
    var s1 := Advance(s, j, Finishing);
    if CurrentSession(s, s.jobs[j], e) then s1.(failed := s.failed - {s.jobs[j].hint.chain}) else s1
  }

  predicate MayAck(s: State, j: nat, e: Env)
    requires j < |s.jobs|
  {
    var job := s.jobs[j];
    job.hint.eventIds != [] && CurrentSession(s, job, e) && job.hint.chain in e.enabled
  }

  function RefreshResolves(s: State, j: nat, e: Env): State {
    if !At(s, j, Refreshing) then s
    else if MayAck(s, j, e) then
      Advance(s, j, Acknowledging).(acks := s.acks + [Ack(j, s.jobs[j].hint.eventIds, s.jobs[j].expected.value)])
    else Succeed(s, j, e)
  }

  function AckResolves(s: State, j: nat, e: Env): State {
    if At(s, j, Acknowledging) then Succeed(s, j, e) else s
  }

  // The refresh, or the acknowledgement, threw.
  function Rejects(s: State, j: nat): State {
    if At(s, j, Refreshing) || At(s, j, Acknowledging) then Advance(s, j, Rejected) else s
  }

  function CatchRuns(s: State, j: nat, e: Env): State {
    if !At(s, j, Rejected) then s
    else
      var s1 := Advance(s, j, Finishing);
      if CurrentSession(s, s.jobs[j], e) then s1.(failed := s.failed + {s.jobs[j].hint.chain}) else s1
  }

  function Free(running: map<ChainId, nat>, c: ChainId, j: nat): map<ChainId, nat> {
    if c in running && running[c] == j then running - {c} else running
  }

  function FinallyRuns(s: State, j: nat, e: Env): State {
    if !At(s, j, Finishing) then s
    else Settle(Drain(Advance(s, j, Done).(running := Free(s.running, s.jobs[j].hint.chain, j)), e), e)
  }

  // ---- All of the above as one operation ----

  datatype Op =
    | Offered(offers: seq<Offer>)
    | Leased(chains: set<ChainId>, offers: seq<Offer>)
    | Fired
    | Resolved(job: nat)
    | Acknowledged(job: nat)
    | Threw(job: nat)
    | Caught(job: nat)
    | Finished(job: nat)
    | Flushed(leased: set<ChainId>)
    | Halted(scope: Option<Scope>)

  function EnqueueAll(s: State, offers: seq<Offer>): State {
    if offers == [] then s else Enqueue(EnqueueAll(s, Front(offers)), Last(offers))
  }

  function Apply(s: State, op: Op, e: Env): State {
    match op
    case Offered(offers) => EnqueueAll(s, offers)
    case Leased(chains, offers) => EnqueueAll(Prune(s, chains), offers)
    case Fired => RefreshFires(s, e)
    case Resolved(j) => RefreshResolves(s, j, e)
    case Acknowledged(j) => AckResolves(s, j, e)
    case Threw(j) => Rejects(s, j)
    case Caught(j) => CatchRuns(s, j, e)
    case Finished(j) => FinallyRuns(s, j, e)
    case Flushed(leased) => Flush(s, leased, e)
    case Halted(scope) => Stop(s).(scope := scope)
  }
}
