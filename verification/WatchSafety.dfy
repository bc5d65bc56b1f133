// What every operation of the refresh scheduler keeps.
module WatchSafety {
  import opened Basics
  import opened WatchScheduler

  // ---- The invariants ----

  // Two slots, one per chain; the running map lists exactly the unfinished jobs
  // of the present session.
  ghost predicate Slots(jobs: seq<Job>, running: map<ChainId, nat>, session: nat, scope: Option<Scope>) {
    && |running| <= SLOTS
    && (forall c :: c in running ==> SlotOk(jobs, running, session, c))
    && (forall j :: 0 <= j < |jobs| ==> JobOk(jobs[j], j, running, session, scope))
  }

  ghost predicate SlotOk(jobs: seq<Job>, running: map<ChainId, nat>, session: nat, c: ChainId)
    requires c in running
  {
    && running[c] < |jobs|
    && jobs[running[c]].hint.chain == c
    && jobs[running[c]].session == session
    && jobs[running[c]].stage != Done
  }

  ghost predicate JobOk(job: Job, j: nat, running: map<ChainId, nat>, session: nat, scope: Option<Scope>) {
    && job.session <= session
    && (job.session == session ==> job.expected == scope)
    && (job.session == session && job.stage != Done ==> job.hint.chain in running && running[job.hint.chain] == j)
    && (job.stage == Refreshing ==> !job.refreshed)
    && (job.stage == Acknowledging ==> job.refreshed)
  }

  // Each offer is in exactly the hint its fate names, and every hint is the
  // merge of exactly its offers.
  ghost predicate Booked(pending: seq<Hint>, jobs: seq<Job>, ledger: seq<Entry>) {
    && OnePerChain(pending)
    && (forall i :: 0 <= i < |pending| ==> HintOf(pending[i], ledger, Waiting))
    && (forall j :: 0 <= j < |jobs| ==> HintOf(jobs[j].hint, ledger, Handed(j)))
    && (forall i :: 0 <= i < |ledger| ==> EntryOk(ledger[i], pending, jobs))
  }

  ghost predicate EntryOk(e: Entry, pending: seq<Hint>, jobs: seq<Job>) {
    && (e.fate == Waiting ==> IsPending(pending, e.offer.chain))
    && (e.fate.Handed? ==> e.fate.job < |jobs| && jobs[e.fate.job].hint.chain == e.offer.chain)
  }

  ghost predicate HintOf(h: Hint, ledger: seq<Entry>, f: Fate) {
    Picked(ledger, h.chain, f) != [] && h == Merged(h.chain, Picked(ledger, h.chain, f))
  }

  // Acknowledgements follow a successful refresh of that same hint, once.
  ghost predicate Acked(acks: seq<Ack>, jobs: seq<Job>) {
    && (forall k :: 0 <= k < |acks| ==> AckOk(acks[k], jobs))
    && (forall k, m :: 0 <= k < m < |acks| ==> acks[k].job != acks[m].job)
  }

  ghost predicate AckOk(a: Ack, jobs: seq<Job>) {
    && a.job < |jobs|
    && jobs[a.job].refreshed
    && jobs[a.job].stage != Refreshing
    && jobs[a.job].hint.eventIds == a.eventIds
    && jobs[a.job].expected == Some(a.scope)
  }

  // Each flush call is waiting or answered, never both.
  ghost predicate Flushes(waiters: map<nat, nat>, verdicts: map<nat, bool>, flushes: nat, session: nat) {
    && (forall w :: w in waiters ==> w < flushes && waiters[w] == session && w !in verdicts)
    && (forall w :: w in verdicts ==> w < flushes)
    && (forall w: nat :: w < flushes ==> w in waiters || w in verdicts)
  }

  ghost predicate Safe(s: State) {
    && Slots(s.jobs, s.running, s.session, s.scope)
    && Booked(s.pending, s.jobs, s.ledger)
    && Acked(s.acks, s.jobs)
    && Flushes(s.waiters, s.verdicts, s.flushes, s.session)
  }

  // Nothing is stuck: something will look at the pending hints, and at the waiters.
  ghost predicate Moving(s: State) {
    && (s.pending != [] ==> s.timer || s.running != map[])
    && (s.waiters != map[] ==> s.running != map[])
  }

  ghost predicate Inv(s: State) {
    Safe(s) && (!s.stalled ==> Moving(s))
  }

  // ---- Pending map facts ----

  lemma {:induction false} SetPendingFacts(p: seq<Hint>, h: Hint)
    requires OnePerChain(p)
    ensures OnePerChain(SetPending(p, h))
    ensures forall x :: x in SetPending(p, h) <==> x == h || (x in p && x.chain != h.chain)
    ensures Chains(SetPending(p, h)) == Chains(p) + {h.chain}
  {
    SetPendingMember(p, h);
    var r := SetPending(p, h);
    assert forall c :: c in Chains(r) <==> c in Chains(p) + {h.chain};
  }

  lemma {:induction false} SetPendingMember(p: seq<Hint>, h: Hint)
    requires OnePerChain(p)
    ensures OnePerChain(SetPending(p, h))
    ensures forall x :: x in SetPending(p, h) <==> x == h || (x in p && x.chain != h.chain)
  {
    if p != [] && p[0].chain != h.chain {
      SetPendingMember(p[1..], h);
      var t := SetPending(p[1..], h);
      assert forall x :: x in SetPending(p, h) <==> x == p[0] || x in t;
      assert forall x :: x in p <==> x == p[0] || x in p[1..];
      assert forall k :: 0 <= k < |t| ==> t[k] in t;
    } else if p != [] {
      assert forall x :: x in p <==> x == p[0] || x in p[1..];
    }
  }

  lemma {:induction false} PendingForFacts(p: seq<Hint>, c: ChainId)
    requires OnePerChain(p)
    ensures PendingFor(p, c).chain == c
    ensures IsPending(p, c) ==> PendingFor(p, c) in p
    ensures !IsPending(p, c) ==> PendingFor(p, c) == Merged(c, [])
  {
    if p != [] && p[0].chain != c {
      PendingForFacts(p[1..], c);
      if IsPending(p, c) {
        var i :| 0 <= i < |p| && p[i].chain == c;
        assert p[1..][i - 1].chain == c;
      }
      if IsPending(p[1..], c) {
        var i :| 0 <= i < |p[1..]| && p[1..][i].chain == c;
        assert p[i + 1].chain == c;
      }
    } else if p != [] {
      assert p[0].chain == c;
    }
  }

  lemma {:induction false} KeepFacts(p: seq<Hint>, chains: set<ChainId>)
    requires OnePerChain(p)
    ensures OnePerChain(Keep(p, chains))
    ensures forall x :: x in Keep(p, chains) <==> x in p && x.chain in chains
  {
    if p != [] {
      KeepFacts(p[1..], chains);
      assert p == [p[0]] + p[1..];
      var t := Keep(p[1..], chains);
      assert forall k :: 0 <= k < |t| ==> t[k] in t;
      assert forall x :: x in t ==> x in p[1..];
    }
  }

  lemma PendingMember(p: seq<Hint>, c: ChainId)
    ensures IsPending(p, c) <==> c in Chains(p)
    ensures IsPending(p, c) <==> exists h :: h in p && h.chain == c
  {
    if h :| h in p && h.chain == c {
      var i :| 0 <= i < |p| && p[i] == h;
      assert p[i].chain == c;
    }
    if IsPending(p, c) {
      var i :| 0 <= i < |p| && p[i].chain == c;
      assert p[i] in p;
    }
  }

  // ---- Ledger facts ----

  // The offers of chain c waiting before a Refate are the ones it moves.
  lemma {:induction false} PickedRefate(l: seq<Entry>, cs: set<ChainId>, f: Fate, c: ChainId, g: Fate)
    requires f != Waiting
    ensures c in cs && g == Waiting ==> Picked(Refate(l, cs, f), c, g) == []
    ensures c !in cs || (g != Waiting && g != f) ==> Picked(Refate(l, cs, f), c, g) == Picked(l, c, g)
    ensures c in cs && g == f && (forall i :: 0 <= i < |l| ==> l[i].fate != f)
      ==> Picked(Refate(l, cs, f), c, g) == Picked(l, c, Waiting)
  {
    if l != [] {
      assert Front(Refate(l, cs, f)) == Refate(Front(l), cs, f);
      PickedRefate(Front(l), cs, f, c, g);
    }
  }

  lemma {:induction false} PickedMember(l: seq<Entry>, c: ChainId, f: Fate)
    ensures forall i :: 0 <= i < |l| && l[i].offer.chain == c && l[i].fate == f ==> l[i].offer in Picked(l, c, f)
    ensures forall o :: o in Picked(l, c, f) ==> exists i :: 0 <= i < |l| && l[i] == Entry(o, f) && o.chain == c
  {
    if l != [] {
      PickedMember(Front(l), c, f);
      forall o | o in Picked(l, c, f)
        ensures exists i :: 0 <= i < |l| && l[i] == Entry(o, f) && o.chain == c
      {
        if o in Picked(Front(l), c, f) {
          var i :| 0 <= i < |Front(l)| && Front(l)[i] == Entry(o, f) && o.chain == c;
          assert l[i] == Entry(o, f);
        } else {
          assert l[|l| - 1] == Entry(o, f);
        }
      }
    }
  }

  lemma PickedAppend(l: seq<Entry>, e: Entry, c: ChainId, f: Fate)
    ensures Picked(l + [e], c, f) ==
      if e.offer.chain == c && e.fate == f then Picked(l, c, f) + [e.offer] else Picked(l, c, f)
  {
    assert Front(l + [e]) == l;
  }

  // ---- queue ----

  lemma EnqueueBooked(s: State, o: Offer)
    requires Safe(s)
    ensures Safe(Enqueue(s, o))
  {
    var t := Enqueue(s, o);
    var h := MergeOne(PendingFor(s.pending, o.chain), o);
    PendingForFacts(s.pending, o.chain);
    SetPendingFacts(s.pending, h);
    EnqueuedHint(s, o);
    forall i | 0 <= i < |t.pending| ensures HintOf(t.pending[i], t.ledger, Waiting) {
      assert t.pending[i] in t.pending;
      PickedAppend(s.ledger, Entry(o, Waiting), t.pending[i].chain, Waiting);
    }
    forall j | 0 <= j < |t.jobs| ensures HintOf(t.jobs[j].hint, t.ledger, Handed(j)) {
      PickedAppend(s.ledger, Entry(o, Waiting), t.jobs[j].hint.chain, Handed(j));
    }
    forall i | 0 <= i < |t.ledger| ensures EntryOk(t.ledger[i], t.pending, t.jobs) {
      var c := t.ledger[i].offer.chain;
      PendingMember(t.pending, c);
      PendingMember(s.pending, c);
      assert i < |s.ledger| ==> EntryOk(s.ledger[i], s.pending, s.jobs);
    }
  }

  lemma EnqueuedHint(s: State, o: Offer)
    requires Safe(s)
    ensures HintOf(MergeOne(PendingFor(s.pending, o.chain), o), s.ledger + [Entry(o, Waiting)], Waiting)
  {
    var w := Picked(s.ledger, o.chain, Waiting);
    WaitingMerged(s, o.chain);
    PickedAppend(s.ledger, Entry(o, Waiting), o.chain, Waiting);
    assert Front(w + [o]) == w;
    hide Picked, PendingFor, Safe;
  }

  // The hint for a chain, pending or yet to come, is what its waiting offers make.
  lemma WaitingMerged(s: State, c: ChainId)
    requires Safe(s)
    ensures PendingFor(s.pending, c) == Merged(c, Picked(s.ledger, c, Waiting))
    ensures PendingFor(s.pending, c).chain == c
  {
    hide Picked, Merged, Slots, Acked, Flushes;
    PendingForFacts(s.pending, c);
    if IsPending(s.pending, c) {
      var i :| 0 <= i < |s.pending| && s.pending[i] == PendingFor(s.pending, c);
      assert HintOf(s.pending[i], s.ledger, Waiting);
    } else {
      var w := Picked(s.ledger, c, Waiting);
      PickedMember(s.ledger, c, Waiting);
      assert forall k :: 0 <= k < |s.ledger| ==> EntryOk(s.ledger[k], s.pending, s.jobs);
      FirstMember(w);
    }
  }

  lemma FirstMember<T>(s: seq<T>)
    ensures s != [] ==> s[0] in s
  {
  }

  // ---- Moving offers out of the pending map ----

  // Removing the hints of cs from pending while giving their offers fate f,
  // which no offer has had before unless it is a drop.
  lemma MoveBooked(s: State, cs: set<ChainId>, f: Fate, t: State)
    requires Booked(s.pending, s.jobs, s.ledger)
    requires f.Dropped?
    requires t.ledger == Refate(s.ledger, cs, f) && t.jobs == s.jobs
    requires OnePerChain(t.pending)
    requires forall h :: h in t.pending <==> h in s.pending && h.chain !in cs
    ensures Booked(t.pending, t.jobs, t.ledger)
  {
    forall i | 0 <= i < |t.pending| ensures HintOf(t.pending[i], t.ledger, Waiting) {
      assert t.pending[i] in t.pending;
      PickedRefate(s.ledger, cs, f, t.pending[i].chain, Waiting);
    }
    forall j | 0 <= j < |t.jobs| ensures HintOf(t.jobs[j].hint, t.ledger, Handed(j)) {
      PickedRefate(s.ledger, cs, f, t.jobs[j].hint.chain, Handed(j));
    }
    forall i | 0 <= i < |t.ledger| ensures EntryOk(t.ledger[i], t.pending, t.jobs) {
      StillPending(s, cs, t.pending, i);
    }
  }

  lemma StillPending(s: State, cs: set<ChainId>, pending: seq<Hint>, i: nat)
    requires Booked(s.pending, s.jobs, s.ledger) && i < |s.ledger|
    requires forall h :: h in s.pending && h.chain !in cs ==> h in pending
    ensures EntryOk(s.ledger[i], s.pending, s.jobs)
    ensures s.ledger[i].fate == Waiting && s.ledger[i].offer.chain !in cs
      ==> IsPending(pending, s.ledger[i].offer.chain)
  {
    PendingMember(s.pending, s.ledger[i].offer.chain);
    PendingMember(pending, s.ledger[i].offer.chain);
  }

  lemma WithoutFacts(p: seq<Hint>, i: nat)
    requires i < |p| && OnePerChain(p)
    ensures OnePerChain(Without(p, i))
    ensures forall h :: h in Without(p, i) <==> h in p && h.chain !in {p[i].chain}
  {
    var r := Without(p, i);
    assert forall k :: 0 <= k < |r| ==> r[k] == if k < i then p[k] else p[k + 1];
    forall h | h in p && h.chain !in {p[i].chain} ensures h in r {
      var k :| 0 <= k < |p| && p[k] == h;
      assert r[if k < i then k else k - 1] == h;
    }
  }

  lemma DropSafe(s: State, i: nat)
    requires Safe(s) && i < |s.pending|
    ensures Safe(DropAt(s, i))
  {
    WithoutFacts(s.pending, i);
    MoveBooked(s, {s.pending[i].chain}, Dropped(Disabled), DropAt(s, i));
  }

  lemma StartBooked(s: State, i: nat)
    requires Safe(s) && i < |s.pending|
    ensures var t := StartAt(s, i); Booked(t.pending, t.jobs, t.ledger)
  {
    var t := StartAt(s, i);
    var h := s.pending[i];
    var n := |s.jobs|;
    WithoutFacts(s.pending, i);
    forall k | 0 <= k < |s.ledger| ensures s.ledger[k].fate != Handed(n) {
      assert EntryOk(s.ledger[k], s.pending, s.jobs);
    }
    forall k | 0 <= k < |t.pending| ensures HintOf(t.pending[k], t.ledger, Waiting) {
      assert t.pending[k] in t.pending;
      PickedRefate(s.ledger, {h.chain}, Handed(n), t.pending[k].chain, Waiting);
    }
    forall j | 0 <= j < |t.jobs| ensures HintOf(t.jobs[j].hint, t.ledger, Handed(j)) {
      StartedHint(s, i, j);
    }
    forall k | 0 <= k < |t.ledger| ensures EntryOk(t.ledger[k], t.pending, t.jobs) {
      StillPending(s, {h.chain}, t.pending, k);
    }
  }

  lemma StartedHint(s: State, i: nat, j: nat)
    requires Booked(s.pending, s.jobs, s.ledger) && i < |s.pending| && j <= |s.jobs|
    requires forall k :: 0 <= k < |s.ledger| ==> s.ledger[k].fate != Handed(|s.jobs|)
    ensures HintOf(StartAt(s, i).jobs[j].hint, StartAt(s, i).ledger, Handed(j))
  {
    var h, n := s.pending[i], |s.jobs|;
    PickedRefate(s.ledger, {h.chain}, Handed(n), StartAt(s, i).jobs[j].hint.chain, Handed(j));
    assert HintOf(h, s.ledger, Waiting);
    hide Picked, Refate, Merged, EntryOk;
  }

  lemma StartSlots(s: State, i: nat, e: Env)
    requires Safe(s) && i < |s.pending| && Current(s, e)
    requires |s.running| < SLOTS && s.pending[i].chain !in s.running
    ensures var t := StartAt(s, i); Slots(t.jobs, t.running, t.session, t.scope)
  {
    hide Slots, Booked, Acked, Flushes;
    SlotsGain(s.jobs, s.running, s.session, s.scope, s.pending[i]);
  }

  lemma SlotsGain(jobs: seq<Job>, running: map<ChainId, nat>, session: nat, scope: Option<Scope>, h: Hint)
    requires Slots(jobs, running, session, scope) && |running| < SLOTS && h.chain !in running
    ensures Slots(jobs + [Job(h, session, scope, Refreshing, false)], running[h.chain := |jobs|], session, scope)
  {
    var after, slots := jobs + [Job(h, session, scope, Refreshing, false)], running[h.chain := |jobs|];
    assert slots.Keys == running.Keys + {h.chain};
    assert |slots.Keys| == |running.Keys| + 1;
    forall c | c in slots ensures SlotOk(after, slots, session, c) {
      if c in running { assert SlotOk(jobs, running, session, c); }
    }
    forall j | 0 <= j < |after| ensures JobOk(after[j], j, slots, session, scope) {
      if j < |jobs| { assert JobOk(jobs[j], j, running, session, scope); }
    }
  }

  lemma StartSafe(s: State, i: nat, e: Env)
    requires Safe(s) && i < |s.pending| && Current(s, e)
    requires |s.running| < SLOTS && s.pending[i].chain !in s.running
    ensures Safe(StartAt(s, i))
  {
    StartBooked(s, i);
    StartSlots(s, i, e);
    var t := StartAt(s, i);
    forall k | 0 <= k < |t.acks| ensures AckOk(t.acks[k], t.jobs) {
      assert AckOk(s.acks[k], s.jobs);
    }
  }

  // ---- drain ----

  // Only pending, running, jobs and the ledger change; no slot is freed or taken over.
  ghost predicate Grown(s: State, t: State) {
    && t.(pending := s.pending, running := s.running, jobs := s.jobs, ledger := s.ledger) == s
    && (forall c :: c in s.running ==> c in t.running && t.running[c] == s.running[c])
    && s.jobs <= t.jobs
  }

  lemma {:induction false} SweepGrown(s: State, i: nat, e: Env)
    ensures Grown(s, Sweep(s, i, e))
    decreases |s.pending| - i
  {
    if i >= |s.pending| {
    } else if s.pending[i].chain !in e.enabled {
      DropGrown(s, i);
      hide Grown, DropAt;
      SweepGrown(DropAt(s, i), i, e);
      GrownTransitive(s, DropAt(s, i), Sweep(s, i, e));
    } else if |s.running| >= SLOTS {
    } else if s.pending[i].chain in s.running {
      SweepGrown(s, i + 1, e);
    } else {
      StartGrown(s, i);
      hide Grown, StartAt;
      SweepGrown(StartAt(s, i), i, e);
      GrownTransitive(s, StartAt(s, i), Sweep(s, i, e));
    }
  }

  lemma GrownTransitive(s: State, t: State, u: State)
    requires Grown(s, t) && Grown(t, u)
    ensures Grown(s, u)
  {
  }

  lemma DropGrown(s: State, i: nat)
    requires i < |s.pending|
    ensures Grown(s, DropAt(s, i)) && |DropAt(s, i).pending| == |s.pending| - 1
  {
  }

  lemma StartGrown(s: State, i: nat)
    requires i < |s.pending| && s.pending[i].chain !in s.running
    ensures Grown(s, StartAt(s, i)) && |StartAt(s, i).pending| == |s.pending| - 1
  {
  }

  lemma {:induction false} SweepSafe(s: State, i: nat, e: Env)
    requires Safe(s) && Current(s, e)
    ensures Safe(Sweep(s, i, e))
    decreases |s.pending| - i
  {
    hide Safe;
    if i >= |s.pending| {
    } else if s.pending[i].chain !in e.enabled {
      DropSafe(s, i);
      DropGrown(s, i);
      SweepSafe(DropAt(s, i), i, e);
    } else if |s.running| >= SLOTS {
    } else if s.pending[i].chain in s.running {
      SweepSafe(s, i + 1, e);
    } else {
      StartSafe(s, i, e);
      StartGrown(s, i);
      SweepSafe(StartAt(s, i), i, e);
    }
  }

  // A full sweep leaves no slot free for a pending hint, and none of a disabled
  // chain unless the slots are taken.
  lemma {:induction false} SweepServes(s: State, i: nat, e: Env)
    requires forall k ::
      0 <= k < i && k < |s.pending| ==> s.pending[k].chain in s.running && s.pending[k].chain in e.enabled
    ensures var t := Sweep(s, i, e);
      |t.running| >= SLOTS
      || forall k :: 0 <= k < |t.pending| ==> t.pending[k].chain in t.running && t.pending[k].chain in e.enabled
    decreases |s.pending| - i
  {
    if i >= |s.pending| {
    } else if s.pending[i].chain !in e.enabled {
      SweepServes(DropAt(s, i), i, e);
    } else if |s.running| >= SLOTS {
    } else if s.pending[i].chain in s.running {
      SweepServes(s, i + 1, e);
    } else {
      SweepServes(StartAt(s, i), i, e);
    }
  }

  lemma SettleKeeps(s: State, e: Env)
    requires Safe(s)
    ensures Safe(Settle(s, e))
    ensures Moving(s) ==> Moving(Settle(s, e))
    ensures (s.pending != [] ==> s.running != map[]) ==> Moving(Settle(s, e))
    ensures Settle(s, e).(waiters := s.waiters, verdicts := s.verdicts) == s
  {
    hide Slots, Booked, Acked, Record;
  }

  lemma DrainKeeps(s: State, e: Env)
    requires Safe(s)
    ensures Inv(Drain(s, e))
    ensures var t := Drain(s, e); Grown(s, t.(waiters := s.waiters, verdicts := s.verdicts, stalled := s.stalled))
  {
    hide Slots, Booked, Acked, Flushes;
    if !Current(s, e) {
    } else {
      SweepSafe(s, 0, e);
      SweepGrown(s, 0, e);
      SweepServes(s, 0, e);
      var t := Sweep(s, 0, e);
      assert |t.running| >= SLOTS || t.pending == [] || t.pending[0].chain in t.running;
      SettleKeeps(Sweep(s, 0, e).(stalled := false), e);
    }
  }

  // ---- The callers' operations ----

  lemma EnqueueKeeps(s: State, o: Offer)
    requires Inv(s)
    ensures Inv(Enqueue(s, o))
  {
    var t := Enqueue(s, o);
    EnqueueBooked(s, o);
  }

  lemma RefreshFiresKeeps(s: State, e: Env)
    requires Inv(s)
    ensures Inv(RefreshFires(s, e))
  {
    if s.timer {
      var t := s.(timer := false);
      DrainKeeps(t, e);
    }
  }

  lemma PruneKeeps(s: State, chains: set<ChainId>)
    requires Inv(s)
    ensures Inv(Prune(s, chains))
  {
    var t := Prune(s, chains);
    KeepFacts(s.pending, chains);
    forall h | h in s.pending ensures h.chain in Chains(s.pending) { }
    MoveBooked(s, Chains(s.pending) - chains, Dropped(Unleased), t);
  }

  lemma StopKeeps(s: State, scope: Option<Scope>)
    requires Inv(s)
    ensures Inv(Stop(s).(scope := scope))
  {
    hide Slots, Booked, Acked, Record, Chains, Refate;
    var t := Stop(s).(scope := scope);
    StopBooked(s, t);
    StopSlots(s, t);
  }

  lemma StopBooked(s: State, t: State)
    requires Safe(s)
    requires t.pending == [] && t.jobs == s.jobs && t.ledger == Refate(s.ledger, Chains(s.pending), Dropped(Stopped))
    ensures Booked(t.pending, t.jobs, t.ledger)
  {
    forall h | h in s.pending ensures h.chain in Chains(s.pending) { }
    MoveBooked(s, Chains(s.pending), Dropped(Stopped), t);
  }

  lemma StopSlots(s: State, t: State)
    requires Safe(s)
    requires t.jobs == s.jobs && t.running == map[] && t.session == s.session + 1
    ensures Slots(t.jobs, t.running, t.session, t.scope)
  {
    forall j | 0 <= j < |t.jobs| ensures JobOk(t.jobs[j], j, t.running, t.session, t.scope) {
      assert JobOk(s.jobs[j], j, s.running, s.session, s.scope);
    }
  }

  // A flush call waits, after pruning, exactly when there is something to wait for.
  function Joined(s: State, leased: set<ChainId>): State {
    var p := Prune(s, leased);
    p.(flushes := s.flushes + 1, waiters := p.waiters[s.flushes := s.session])
  }

  lemma FlushCases(s: State, leased: set<ChainId>, e: Env)
    ensures
      var p := Prune(s, leased);
      var t := Flush(s, leased, e);
      if !Current(s, e) then t == s.(flushes := s.flushes + 1, verdicts := s.verdicts[s.flushes := false])
      else if p.pending == [] && p.running == map[] then
        t == p.(flushes := s.flushes + 1, verdicts := s.verdicts[s.flushes := p.failed == {}])
      else t == Drain(Joined(s, leased), e)
  {
    assert Prune(s.(flushes := s.flushes + 1), leased) == Prune(s, leased).(flushes := s.flushes + 1);
  }

  lemma FlushKeeps(s: State, leased: set<ChainId>, e: Env)
    requires Inv(s)
    ensures Inv(Flush(s, leased, e))
  {
    FlushCases(s, leased, e);
    PruneKeeps(s, leased);
    if !Current(s, e) {
      FlushIssued(s, Flush(s, leased, e));
    } else if Prune(s, leased).pending == [] && Prune(s, leased).running == map[] {
      FlushIssued(Prune(s, leased), Flush(s, leased, e));
    } else {
      FlushIssued(Prune(s, leased), Joined(s, leased));
      DrainKeeps(Joined(s, leased), e);
    }
  }

  // One more flush call, either waiting or answered.
  lemma FlushIssued(s: State, t: State)
    requires Safe(s)
    requires t.(flushes := s.flushes, waiters := s.waiters, verdicts := s.verdicts) == s
    requires t.flushes == s.flushes + 1
    requires || (t.waiters == s.waiters[s.flushes := s.session] && t.verdicts == s.verdicts)
             || (t.waiters == s.waiters
               && t.verdicts in {s.verdicts[s.flushes := true], s.verdicts[s.flushes := false]})
    ensures Safe(t)
  {
    hide Slots, Booked, Acked;
  }

  // ---- Job callbacks ----

  lemma AdvanceSafe(s: State, j: nat, stage: Stage)
    requires Safe(s) && j < |s.jobs|
    requires s.jobs[j].stage != Done && stage != Done && stage != Refreshing
    requires stage == Acknowledging ==> s.jobs[j].stage == Refreshing
    ensures Safe(Advance(s, j, stage))
  {
    var t := Advance(s, j, stage);
    JobsSafe(s, t, j);
    forall c | c in t.running ensures SlotOk(t.jobs, t.running, t.session, c) {
      assert SlotOk(s.jobs, s.running, s.session, c);
    }
    assert JobOk(s.jobs[j], j, s.running, s.session, s.scope);
    forall k | 0 <= k < |t.jobs| ensures JobOk(t.jobs[k], k, t.running, t.session, t.scope) {
      assert JobOk(s.jobs[k], k, s.running, s.session, s.scope);
    }
  }

  // Moving a job to a later stage keeps the books.
  lemma JobsSafe(s: State, t: State, j: nat)
    requires Safe(s) && j < |s.jobs|
    requires t.pending == s.pending && t.ledger == s.ledger && t.acks == s.acks
    requires exists stage :: stage != Refreshing && t.jobs == Advance(s, j, stage).jobs
    ensures Booked(t.pending, t.jobs, t.ledger) && Acked(t.acks, t.jobs)
  {
    forall k | 0 <= k < |t.jobs| ensures HintOf(t.jobs[k].hint, t.ledger, Handed(k)) {
      assert HintOf(s.jobs[k].hint, s.ledger, Handed(k));
    }
    forall i | 0 <= i < |t.ledger| ensures EntryOk(t.ledger[i], t.pending, t.jobs) {
      assert EntryOk(s.ledger[i], s.pending, s.jobs);
    }
    forall k | 0 <= k < |t.acks| ensures AckOk(t.acks[k], t.jobs) {
      assert AckOk(s.acks[k], s.jobs);
    }
  }

  lemma SucceedKeeps(s: State, j: nat, e: Env)
    requires Inv(s) && j < |s.jobs| && s.jobs[j].stage != Done
    ensures Inv(Succeed(s, j, e))
  {
    AdvanceSafe(s, j, Finishing);
  }

  lemma RefreshResolvesKeeps(s: State, j: nat, e: Env)
    requires Inv(s)
    ensures Inv(RefreshResolves(s, j, e))
  {
    if At(s, j, Refreshing) {
      if MayAck(s, j, e) {
        AdvanceSafe(s, j, Acknowledging);
        AckIsNew(s, j);
        var t := Advance(s, j, Acknowledging);
        AckedGain(t.acks, t.jobs, Ack(j, s.jobs[j].hint.eventIds, s.jobs[j].expected.value));
        hide Slots, Booked, Acked, Flushes;
      } else {
        hide Slots, Booked, Acked, Flushes;
        SucceedKeeps(s, j, e);
      }
    }
  }

  lemma AckedGain(acks: seq<Ack>, jobs: seq<Job>, a: Ack)
    requires Acked(acks, jobs) && AckOk(a, jobs) && forall k :: 0 <= k < |acks| ==> acks[k].job != a.job
    ensures Acked(acks + [a], jobs)
  {
  }

  lemma AckIsNew(s: State, j: nat)
    requires Safe(s) && At(s, j, Refreshing)
    ensures forall k :: 0 <= k < |s.acks| ==> s.acks[k].job != j
  {
    forall k | 0 <= k < |s.acks| ensures s.acks[k].job != j {
      assert AckOk(s.acks[k], s.jobs);
    }
  }

  lemma AckResolvesKeeps(s: State, j: nat, e: Env)
    requires Inv(s)
    ensures Inv(AckResolves(s, j, e))
  {
    if At(s, j, Acknowledging) {
      SucceedKeeps(s, j, e);
    }
  }

  lemma RejectsKeeps(s: State, j: nat)
    requires Inv(s)
    ensures Inv(Rejects(s, j))
  {
    if At(s, j, Refreshing) || At(s, j, Acknowledging) {
      AdvanceSafe(s, j, Rejected);
    }
  }

  lemma CatchRunsKeeps(s: State, j: nat, e: Env)
    requires Inv(s)
    ensures Inv(CatchRuns(s, j, e))
  {
    if At(s, j, Rejected) {
      AdvanceSafe(s, j, Finishing);
    }
  }

  function Retire(s: State, j: nat): State
    requires j < |s.jobs|
  {
    Advance(s, j, Done).(running := Free(s.running, s.jobs[j].hint.chain, j))
  }

  lemma RetireSlots(s: State, j: nat)
    requires Safe(s) && At(s, j, Finishing)
    ensures var t := Retire(s, j); Slots(t.jobs, t.running, t.session, t.scope)
  {
    var t := Retire(s, j);
    assert JobOk(s.jobs[j], j, s.running, s.session, s.scope);
    FreeFacts(s.running, s.jobs[j].hint.chain, j);
    forall d | d in t.running ensures SlotOk(t.jobs, t.running, t.session, d) {
      assert SlotOk(s.jobs, s.running, s.session, d);
    }
    forall k | 0 <= k < |t.jobs| ensures JobOk(t.jobs[k], k, t.running, t.session, t.scope) {
      assert JobOk(s.jobs[k], k, s.running, s.session, s.scope);
    }
  }

  lemma FreeFacts(running: map<ChainId, nat>, c: ChainId, j: nat)
    ensures |Free(running, c, j)| <= |running|
    ensures forall d :: d in Free(running, c, j) <==> d in running && !(d == c && running[d] == j)
    ensures forall d :: d in Free(running, c, j) ==> Free(running, c, j)[d] == running[d]
  {
    var t := Free(running, c, j);
    if t != running {
      assert running.Keys == t.Keys + {c};
    }
    assert |t.Keys| == |t| && |running.Keys| == |running|;
  }

  lemma RetireSafe(s: State, j: nat)
    requires Safe(s) && At(s, j, Finishing)
    ensures Safe(Retire(s, j))
  {
    JobsSafe(s, Retire(s, j), j);
    RetireSlots(s, j);
  }

  lemma FinallyRunsKeeps(s: State, j: nat, e: Env)
    requires Inv(s)
    ensures Inv(FinallyRuns(s, j, e))
  {
    if At(s, j, Finishing) {
      RetireSafe(s, j);
      DrainKeeps(Retire(s, j), e);
      SettleKeeps(Drain(Retire(s, j), e), e);
    }
  }

  // ---- Every operation ----

  lemma {:induction false} EnqueueAllKeeps(s: State, offers: seq<Offer>)
    requires Inv(s)
    ensures Inv(EnqueueAll(s, offers))
  {
    if offers != [] {
      EnqueueAllKeeps(s, Front(offers));
      EnqueueKeeps(EnqueueAll(s, Front(offers)), Last(offers));
    }
  }

  lemma ApplyKeeps(s: State, op: Op, e: Env)
    requires Inv(s)
    ensures Inv(Apply(s, op, e))
  {
    hide Inv;
    match op
    case Offered(offers) => EnqueueAllKeeps(s, offers);
    case Leased(chains, offers) => PruneKeeps(s, chains); EnqueueAllKeeps(Prune(s, chains), offers);
    case Fired => RefreshFiresKeeps(s, e);
    case Resolved(j) => RefreshResolvesKeeps(s, j, e);
    case Acknowledged(j) => AckResolvesKeeps(s, j, e);
    case Threw(j) => RejectsKeeps(s, j);
    case Caught(j) => CatchRunsKeeps(s, j, e);
    case Finished(j) => FinallyRunsKeeps(s, j, e);
    case Flushed(leased) => FlushKeeps(s, leased, e);
    case Halted(scope) => StopKeeps(s, scope);
  }
}
