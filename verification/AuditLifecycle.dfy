// The audits a vault keeps: starting, finishing, marking stale, reaping. Every
// stretch of code between two awaits is one event.
module AuditLifecycle {
  import opened Basics

  const MAX_RETAINED: nat := 5
  const TTL_MS: int := 1_800_000

  datatype Id = Id(n: nat)
  datatype Wallet = Wallet(n: nat)
  datatype Status = Running | Complete | Aborted | Stale | Failed

  // waiting: the worker is still at its identity step. An unfinished audit has
  // no completion time, which reads as zero.
  datatype Audit = Audit(wallet: Wallet, status: Status, completedAt: int, staled: bool, waiting: bool)

  // entries has every audit ever started; retained lists, in insertion order,
  // those the map still holds. current is the engine's wallet handle.
  datatype State = State(entries: map<Id, Audit>, retained: seq<Id>, current: Wallet)

  predicate Finished(a: Audit) {
    a.status != Running
  }

  // ---- Reaping ----

  predicate Expired(a: Audit, now: int) {
    Finished(a) && a.completedAt != 0 && now - a.completedAt > TTL_MS
  }

  function Unexpired(entries: map<Id, Audit>, ids: seq<Id>, now: int): seq<Id>
    requires forall id :: id in ids ==> id in entries
  {
    if ids == [] then []
    else Unexpired(entries, Front(ids), now) + if Expired(entries[Last(ids)], now) then [] else [Last(ids)]
  }

  function FinishedOnly(entries: map<Id, Audit>, ids: seq<Id>): seq<Id>
    requires forall id :: id in ids ==> id in entries
  {
    if ids == [] then []
    else FinishedOnly(entries, Front(ids)) + if Finished(entries[Last(ids)]) then [Last(ids)] else []
  }

  // Put id after every one that finished no later: a stable sort's step.
  function Insert(entries: map<Id, Audit>, sorted: seq<Id>, id: Id): seq<Id>
    requires id in entries && forall x :: x in sorted ==> x in entries
  {
    if sorted == [] then [id]
    else if entries[Last(sorted)].completedAt <= entries[id].completedAt then sorted + [id]
    else Insert(entries, Front(sorted), id) + [Last(sorted)]
  }

  function Sorted(entries: map<Id, Audit>, ids: seq<Id>): (r: seq<Id>)
    requires forall id :: id in ids ==> id in entries
    ensures multiset(r) == multiset(ids)
    decreases |ids|
  {
    if ids == [] then []
    else
      var before := Sorted(entries, Front(ids));
      SameMembers(before, Front(ids));
      InsertAdds(entries, before, Last(ids));
      assert ids == Front(ids) + [Last(ids)];
      Insert(entries, before, Last(ids))
  }

  lemma SameMembers(a: seq<Id>, b: seq<Id>)
    requires multiset(a) == multiset(b)
    ensures |a| == |b| && forall x :: x in a <==> x in b
  {
    assert |multiset(a)| == |a| && |multiset(b)| == |b|;
    forall x ensures x in a <==> x in b {
      assert x in a <==> x in multiset(a);
      assert x in b <==> x in multiset(b);
    }
  }

  lemma {:induction false} InsertAdds(entries: map<Id, Audit>, sorted: seq<Id>, id: Id)
    requires id in entries && forall x :: x in sorted ==> x in entries
    ensures multiset(Insert(entries, sorted, id)) == multiset(sorted) + multiset{id}
  {
    if sorted != [] {
      InsertAdds(entries, Front(sorted), id);
      assert sorted == Front(sorted) + [Last(sorted)];
    }
  }

  function Remove(ids: seq<Id>, gone: seq<Id>): seq<Id> {
    if ids == [] then []
    else Remove(Front(ids), gone) + if Last(ids) in gone then [] else [Last(ids)]
  }

  // The ones beyond the five finished last.
  function Surplus(entries: map<Id, Audit>, ids: seq<Id>): seq<Id>
    requires forall id :: id in ids ==> id in entries
  {
    FinishedAre(entries, ids);
    var sorted := Sorted(entries, FinishedOnly(entries, ids));
    if |sorted| > MAX_RETAINED then sorted[..|sorted| - MAX_RETAINED] else []
  }

  function Reaped(entries: map<Id, Audit>, ids: seq<Id>, now: int): seq<Id>
    requires forall id :: id in ids ==> id in entries
  {
    UnexpiredAre(entries, ids, now);
    var live := Unexpired(entries, ids, now);
    Remove(live, Surplus(entries, live))
  }

  lemma {:induction false} UnexpiredAre(entries: map<Id, Audit>, ids: seq<Id>, now: int)
    requires forall id :: id in ids ==> id in entries
    ensures forall id :: id in Unexpired(entries, ids, now) <==> id in ids && !Expired(entries[id], now)
    ensures Distinct(ids) ==> Distinct(Unexpired(entries, ids, now))
  {
    if ids != [] {
      assert ids == Front(ids) + [Last(ids)];
      UnexpiredAre(entries, Front(ids), now);
      if Distinct(ids) {
        LastIsNew(ids);
      }
    }
  }

  lemma LastIsNew(ids: seq<Id>)
    requires ids != [] && Distinct(ids)
    ensures Distinct(Front(ids)) && Last(ids) !in Front(ids)
  {
  }

  lemma {:induction false} FinishedAre(entries: map<Id, Audit>, ids: seq<Id>)
    requires forall id :: id in ids ==> id in entries
    ensures forall id :: id in FinishedOnly(entries, ids) <==> id in ids && Finished(entries[id])
    ensures Distinct(ids) ==> Distinct(FinishedOnly(entries, ids))
  {
    if ids != [] {
      assert ids == Front(ids) + [Last(ids)];
      FinishedAre(entries, Front(ids));
      if Distinct(ids) {
        LastIsNew(ids);
      }
    }
  }

  lemma {:induction false} RemoveAre(ids: seq<Id>, gone: seq<Id>)
    ensures forall id :: id in Remove(ids, gone) <==> id in ids && id !in gone
    ensures Distinct(ids) ==> Distinct(Remove(ids, gone))
  {
    if ids != [] {
      assert ids == Front(ids) + [Last(ids)];
      RemoveAre(Front(ids), gone);
      if Distinct(ids) {
        LastIsNew(ids);
      }
    }
  }

  // ---- Events ----

  // The worker's identity step can throw before or after its check.
  datatype Crash = NoCrash | BeforeCheck | AfterCheck

  datatype Event =
    | Starts(id: Id, wallet: Wallet, now: int)
    | Resumes(id: Id, crash: Crash, now: int)
    | Marks(now: int)
    | Dismisses(id: Id)
    | Switches(wallet: Wallet)

  // A new audit's id is a fresh random one, and a worker resumes once.
  predicate Enabled(s: State, e: Event) {
    match e
    case Starts(id, _, _) => id !in s.entries
    case Resumes(id, _, _) => id in s.entries && s.entries[id].waiting
    case _ => true
  }

  predicate IsLive(a: Audit, current: Wallet) {
    current == a.wallet && !a.staled
  }

  // What the worker's last stretch makes of its audit.
  function Resumed(a: Audit, current: Wallet, crash: Crash, now: int): Audit {
    var status :=
      if crash == BeforeCheck then Failed
      else if !IsLive(a, current) then Aborted
      else if crash == AfterCheck then Failed
      else Complete;
    a.(status := status, completedAt := now, waiting := false)
  }

  function Marked(a: Audit, now: int): Audit {
    if a.status == Running then a.(staled := true, status := Stale, completedAt := now) else a.(staled := true)
  }

  function RunningFor(entries: map<Id, Audit>, ids: seq<Id>, wallet: Wallet): (i: nat)
    requires forall id :: id in ids ==> id in entries
    ensures i <= |ids|
    ensures i < |ids| ==> entries[ids[i]].status == Running && entries[ids[i]].wallet == wallet
    ensures forall k :: 0 <= k < i ==> !(entries[ids[k]].status == Running && entries[ids[k]].wallet == wallet)
  {
    if ids == [] || (entries[ids[0]].status == Running && entries[ids[0]].wallet == wallet) then 0
    else 1 + RunningFor(entries, ids[1..], wallet)
  }

  ghost predicate Held(s: State) {
    forall id :: id in s.retained ==> id in s.entries
  }

  lemma ReapedHeld(s: State, now: int)
    requires Held(s)
    ensures forall id :: id in Reaped(s.entries, s.retained, now) ==> id in s.retained
  {
    UnexpiredAre(s.entries, s.retained, now);
    var live := Unexpired(s.entries, s.retained, now);
    RemoveAre(live, Surplus(s.entries, live));
  }

  function Start(s: State, id: Id, wallet: Wallet, now: int): State
    requires Held(s)
  {
    var kept := Reaped(s.entries, s.retained, now);
    ReapedHeld(s, now);
    if RunningFor(s.entries, kept, wallet) < |kept| then s.(retained := kept)
    else s.(entries := s.entries[id := Audit(wallet, Running, 0, false, true)], retained := kept + [id])
  }

  // The id startAudit answers with.
  function StartedId(s: State, id: Id, wallet: Wallet, now: int): Id
    requires Held(s)
  {
    var kept := Reaped(s.entries, s.retained, now);
    ReapedHeld(s, now);
    var i := RunningFor(s.entries, kept, wallet);
    if i < |kept| then kept[i] else id
  }

  function MarkAll(entries: map<Id, Audit>, ids: seq<Id>, now: int): map<Id, Audit> {
    map id | id in entries :: if id in ids then Marked(entries[id], now) else entries[id]
  }

  function Step(s: State, e: Event): State
    requires Held(s) && Enabled(s, e)
  {
    match e
    case Starts(id, wallet, now) => Start(s, id, wallet, now)
    case Resumes(id, crash, now) => s.(entries := s.entries[id := Resumed(s.entries[id], s.current, crash, now)])
    case Marks(now) => s.(entries := MarkAll(s.entries, s.retained, now))
    case Dismisses(id) => s.(retained := Remove(s.retained, [id]))
    case Switches(wallet) => s.(current := wallet)
  }
}
