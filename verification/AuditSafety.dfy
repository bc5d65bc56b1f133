// What the audit registry promises over every interleaving.
module AuditSafety {
  import opened Basics
  import opened AuditLifecycle

  // ---- Reaping keeps the right ones ----

  ghost predicate Ascending(entries: map<Id, Audit>, ids: seq<Id>)
    requires forall id :: id in ids ==> id in entries
  {
    forall i, j :: 0 <= i < j < |ids| ==> entries[ids[i]].completedAt <= entries[ids[j]].completedAt
  }

  lemma {:induction false} InsertAscends(entries: map<Id, Audit>, sorted: seq<Id>, id: Id)
    requires id in entries && (forall x :: x in sorted ==> x in entries) && Ascending(entries, sorted)
    ensures forall x :: x in Insert(entries, sorted, id) <==> x in sorted || x == id
    ensures Ascending(entries, Insert(entries, sorted, id))
  {
    if sorted != [] {
      assert sorted == Front(sorted) + [Last(sorted)];
      if entries[Last(sorted)].completedAt > entries[id].completedAt {
        InsertAscends(entries, Front(sorted), id);
        var r := Insert(entries, Front(sorted), id);
        forall i | 0 <= i < |r| ensures entries[r[i]].completedAt <= entries[Last(sorted)].completedAt {
          if r[i] != id {
            assert r[i] in Front(sorted);
          }
        }
      }
    }
  }

  lemma {:induction false} SortedAscends(entries: map<Id, Audit>, ids: seq<Id>)
    requires forall id :: id in ids ==> id in entries
    ensures (forall x :: x in Sorted(entries, ids) <==> x in ids) && Ascending(entries, Sorted(entries, ids))
  {
    SameMembers(Sorted(entries, ids), ids);
    if ids != [] {
      SortedAscends(entries, Front(ids));
      InsertAscends(entries, Sorted(entries, Front(ids)), Last(ids));
    }
  }

  lemma {:induction false} DistinctCounts(a: seq<Id>)
    requires Distinct(a)
    ensures forall x :: multiset(a)[x] == if x in a then 1 else 0
  {
    if a != [] {
      LastIsNew(a);
      DistinctCounts(Front(a));
      assert a == Front(a) + [Last(a)];
    }
  }

  lemma DistinctSame(a: seq<Id>, b: seq<Id>)
    requires Distinct(a) && Distinct(b) && forall x :: x in a <==> x in b
    ensures multiset(a) == multiset(b) && |a| == |b|
  {
    DistinctCounts(a);
    DistinctCounts(b);
    assert multiset(a) == multiset(b);
    assert |multiset(a)| == |a| && |multiset(b)| == |b|;
  }

  lemma CountsDistinct(a: seq<Id>, b: seq<Id>)
    requires Distinct(a) && multiset(a) == multiset(b)
    ensures Distinct(b)
  {
    DistinctCounts(a);
    forall i: nat, j: nat | i < j < |b| ensures b[i] != b[j] {
      Twice(b, i, j);
    }
  }

  lemma Twice(b: seq<Id>, i: nat, j: nat)
    requires i < j < |b|
    ensures b[i] == b[j] ==> multiset(b)[b[i]] >= 2
  {
    assert b == b[..j] + [b[j]] + b[j + 1..];
    assert b[..j][i] == b[i];
  }

  lemma SplitMembers(s: seq<Id>, k: nat)
    requires Distinct(s) && k <= |s|
    ensures Distinct(s[k..]) && forall x :: x in s[k..] <==> x in s && x !in s[..k]
  {
    assert s == s[..k] + s[k..];
  }

  ghost predicate NoLater(entries: map<Id, Audit>, xs: seq<Id>, ys: seq<Id>) {
    forall x, y :: x in xs && y in ys
      ==> x in entries && y in entries && entries[x].completedAt <= entries[y].completedAt
  }

  lemma SplitAscends(entries: map<Id, Audit>, sorted: seq<Id>, k: nat)
    requires (forall id :: id in sorted ==> id in entries) && Ascending(entries, sorted) && k <= |sorted|
    ensures NoLater(entries, sorted[..k], sorted[k..])
  {
    forall x, y | x in sorted[..k] && y in sorted[k..]
      ensures x in entries && y in entries && entries[x].completedAt <= entries[y].completedAt
    {
      var i :| 0 <= i < k && sorted[..k][i] == x;
      var j :| 0 <= j < |sorted| - k && sorted[k..][j] == y;
      assert sorted[i] == x && sorted[k + j] == y;
    }
  }

  // The finished ones: the surplus, and then the five that finished last.
  lemma FinishedSplit(entries: map<Id, Audit>, ids: seq<Id>) returns (latest: seq<Id>)
    requires Distinct(ids) && forall id :: id in ids ==> id in entries
    ensures var surplus := Surplus(entries, ids);
      && Distinct(latest) && NoLater(entries, surplus, latest)
      && (forall x :: x in latest <==> x in FinishedOnly(entries, ids) && x !in surplus)
      && (forall x :: x in surplus ==> x in FinishedOnly(entries, ids))
      && |latest| <= MAX_RETAINED && (surplus != [] ==> |latest| == MAX_RETAINED)
  {
    FinishedAre(entries, ids);
    var finished := FinishedOnly(entries, ids);
    SortedAscends(entries, finished);
    var sorted, surplus := Sorted(entries, finished), Surplus(entries, ids);
    CountsDistinct(finished, sorted);
    assert surplus == sorted[..|surplus|];
    latest := sorted[|surplus|..];
    hide Sorted, FinishedOnly, Finished;
    SplitMembers(sorted, |surplus|);
    SplitAscends(entries, sorted, |surplus|);
    hide Distinct, NoLater, Ascending;
  }

  // Finished more than half an hour ago.
  predicate TooOld(a: Audit, now: int) {
    a.status != Running && a.completedAt != 0 && now - a.completedAt > 1_800_000
  }

  // At most five finished audits stay, and one of them goes only for its age or
  // because five that finished no earlier stay; running ones all stay.
  lemma ReapKeepsLatest(entries: map<Id, Audit>, ids: seq<Id>, now: int)
    requires Distinct(ids) && forall id :: id in ids ==> id in entries
    ensures var kept := Reaped(entries, ids, now);
      && Distinct(kept) && (forall id :: id in kept ==> id in ids)
      && (forall id :: id in ids && entries[id].status == Running ==> id in kept)
      && (forall id :: id in kept ==> !TooOld(entries[id], now))
      && |FinishedOnly(entries, kept)| <= 5
      && forall x :: x in ids && x !in kept && !TooOld(entries[x], now) ==>
        && |FinishedOnly(entries, kept)| == 5
        && forall y :: y in kept && entries[y].status != Running ==> entries[x].completedAt <= entries[y].completedAt
    ensures forall x ::
      x in FinishedOnly(entries, Reaped(entries, ids, now))
      <==> x in Reaped(entries, ids, now) && x in entries && entries[x].status != Running
    ensures Distinct(FinishedOnly(entries, Reaped(entries, ids, now)))
  {
    UnexpiredAre(entries, ids, now);
    var live := Unexpired(entries, ids, now);
    var surplus := Surplus(entries, live);
    var latest := FinishedSplit(entries, live);
    RemoveAre(live, surplus);
    var kept := Remove(live, surplus);
    FinishedAre(entries, live);
    FinishedAre(entries, kept);
    hide Unexpired, Surplus, Remove, FinishedOnly, Distinct;
    DistinctSame(FinishedOnly(entries, kept), latest);
  }

  // ---- What every event keeps ----

  predicate RunningOn(entries: map<Id, Audit>, id: Id, wallet: Wallet)
    requires id in entries
  {
    entries[id].status == Running && entries[id].wallet == wallet
  }

  // No two audits the map holds are running for one wallet.
  ghost predicate OnePerWallet(entries: map<Id, Audit>, ids: seq<Id>)
    requires forall id :: id in ids ==> id in entries
  {
    forall x, y ::
      x in ids && y in ids && RunningOn(entries, x, entries[y].wallet) && entries[y].status == Running ==> x == y
  }

  // A running audit has its worker still to come, and is not stale; a complete
  // one has had its worker.
  ghost predicate AuditSound(a: Audit) {
    && (a.status == Running ==> a.waiting && !a.staled)
    && (a.status == Complete ==> !a.waiting)
  }

  ghost predicate Inv(s: State) {
    && Held(s) && Distinct(s.retained)
    && OnePerWallet(s.entries, s.retained)
    && forall id :: id in s.entries ==> AuditSound(s.entries[id])
  }

  lemma StartKeeps(s: State, id: Id, wallet: Wallet, now: int)
    requires Inv(s) && id !in s.entries
    ensures Inv(Start(s, id, wallet, now))
  {
    ReapKeepsLatest(s.entries, s.retained, now);
    var kept := Reaped(s.entries, s.retained, now);
    hide Reaped, FinishedOnly, Expired, Distinct;
    FewerOnePerWallet(s.entries, s.retained, kept);
    if RunningFor(s.entries, kept, wallet) == |kept| {
      NoneRunning(s.entries, kept, wallet);
      DistinctSnoc(kept, id);
      AddOnePerWallet(s.entries, kept, id, wallet);
      hide OnePerWallet, RunningFor;
    }
  }

  lemma FewerOnePerWallet(entries: map<Id, Audit>, ids: seq<Id>, fewer: seq<Id>)
    requires (forall id :: id in ids ==> id in entries) && OnePerWallet(entries, ids)
      && forall id :: id in fewer ==> id in ids
    ensures OnePerWallet(entries, fewer)
  {
  }

  lemma AddOnePerWallet(entries: map<Id, Audit>, ids: seq<Id>, id: Id, wallet: Wallet)
    requires (forall x :: x in ids ==> x in entries) && OnePerWallet(entries, ids) && id !in entries
    requires forall x :: x in ids ==> !(entries[x].status == Running && entries[x].wallet == wallet)
    ensures var after := entries[id := Audit(wallet, Running, 0, false, true)];
      (forall x :: x in ids + [id] ==> x in after) && OnePerWallet(after, ids + [id])
  {
    var after := entries[id := Audit(wallet, Running, 0, false, true)];
    forall x | x in ids + [id] ensures x == id || (x in ids && after[x] == entries[x]) {
    }
  }

  lemma NoneRunning(entries: map<Id, Audit>, ids: seq<Id>, wallet: Wallet)
    requires (forall id :: id in ids ==> id in entries) && RunningFor(entries, ids, wallet) == |ids|
    ensures forall id :: id in ids ==> !(entries[id].status == Running && entries[id].wallet == wallet)
  {
  }

  lemma DistinctSnoc(ids: seq<Id>, id: Id)
    requires Distinct(ids) && id !in ids
    ensures Distinct(ids + [id]) && forall x :: x in ids + [id] <==> x in ids || x == id
  {
  }

  lemma StepKeeps(s: State, e: Event)
    requires Inv(s) && Enabled(s, e)
    ensures Inv(Step(s, e))
  {
    hide Distinct;
    match e
    case Starts(id, wallet, now) =>
      hide Inv, Start;
      StartKeeps(s, id, wallet, now);
    case Resumes(id, crash, now) =>
    case Marks(now) =>
    case Dismisses(id) => RemoveAre(s.retained, [id]);
    case Switches(wallet) =>
  }

  // The state after a run, in which an event that cannot happen does nothing.
  function After(es: seq<Event>): (s: State)
    ensures Inv(s)
  {
    if es == [] then State(map[], [], Wallet(0))
    else
      var s := After(Front(es));
      if Enabled(s, Last(es)) then StepKeeps(s, Last(es)); Step(s, Last(es)) else s
  }

  // ---- Marking ----

  // Marking flags every audit the map holds, and turns the running ones stale;
  // it touches no other.
  lemma MarksFlag(s: State, now: int)
    requires Inv(s)
    ensures var t := Step(s, Marks(now));
      && t.retained == s.retained && t.current == s.current && t.entries.Keys == s.entries.Keys
      && (forall id :: id in s.retained ==> t.entries[id].staled && t.entries[id].status != Running)
      && (forall id :: id in s.retained && s.entries[id].status == Running ==>
            t.entries[id] == s.entries[id].(staled := true, status := Stale, completedAt := now))
      && (forall id :: id in s.retained && s.entries[id].status != Running ==>
            t.entries[id] == s.entries[id].(staled := true))
      && (forall id :: id in s.entries && id !in s.retained ==> t.entries[id] == s.entries[id])
  {
  }

  // An audit the map holds when the audits are marked, and that is not complete
  // then, is never complete.
  lemma MarkedNeverCompletes(es: seq<Event>, i: nat, id: Id)
    requires i < |es| && es[i].Marks?
    requires id in After(es[..i]).retained && After(es[..i]).entries[id].status != Complete
    ensures id in After(es).entries && After(es).entries[id].staled && After(es).entries[id].status != Complete
  {
    assert Front(es[..i + 1]) == es[..i] && Last(es[..i + 1]) == es[i];
    MarksFlag(After(es[..i]), es[i].now);
    hide Step;
    StaleNeverCompletes(es, i + 1, id);
  }

  // ---- Completing ----

  // What its worker's last stretch makes of an audit: failed if it throws before
  // looking, aborted if the wallet is another or the audit is marked, failed if
  // it throws after that, and else complete.
  lemma ResumeIff(s: State, id: Id, crash: Crash, now: int)
    requires Inv(s) && Enabled(s, Resumes(id, crash, now))
    ensures var a, b := s.entries[id], Step(s, Resumes(id, crash, now)).entries[id];
      && (b.status == Complete <==> crash == NoCrash && s.current == a.wallet && !a.staled)
      && (b.status == Aborted <==> crash != BeforeCheck && (s.current != a.wallet || a.staled))
      && (b.status == Failed <==> crash == BeforeCheck || (crash == AfterCheck && s.current == a.wallet && !a.staled))
      && b.completedAt == now && !b.waiting && b.wallet == a.wallet && b.staled == a.staled
    ensures forall x :: x in s.entries && x != id ==> Step(s, Resumes(id, crash, now)).entries[x] == s.entries[x]
    ensures Step(s, Resumes(id, crash, now)).retained == s.retained
  {
  }

  // An audit becomes complete only when its own worker resumes, on the wallet it
  // was started for, without having been marked stale.
  lemma CompletesOnlyLive(s: State, e: Event, id: Id)
    requires Inv(s) && Enabled(s, e) && id in s.entries
    requires Step(s, e).entries[id].status == Complete && s.entries[id].status != Complete
    ensures e.Resumes? && e.id == id && e.crash == NoCrash
    ensures !s.entries[id].staled && s.current == s.entries[id].wallet
  {
    hide Reaped;
  }

  lemma EntriesStay(s: State, e: Event, id: Id)
    requires Inv(s) && Enabled(s, e) && id in s.entries
    ensures var t := Step(s, e);
      && id in t.entries && t.entries[id].wallet == s.entries[id].wallet
      && (s.entries[id].staled ==> t.entries[id].staled)
      && (s.entries[id].staled && s.entries[id].status != Complete ==> t.entries[id].status != Complete)
      && (!s.entries[id].waiting ==> !t.entries[id].waiting && (t.entries[id].status == s.entries[id].status))
  {
    hide Reaped;
  }

  // Once marked stale before completing, an audit is never complete again.
  lemma {:induction false} StaleNeverCompletes(es: seq<Event>, i: nat, id: Id)
    requires i <= |es| && id in After(es[..i]).entries
    requires After(es[..i]).entries[id].staled && After(es[..i]).entries[id].status != Complete
    ensures id in After(es).entries && After(es).entries[id].staled && After(es).entries[id].status != Complete
    decreases |es|
  {
    hide Step;
    if i < |es| {
      assert Front(es)[..i] == es[..i];
      StaleNeverCompletes(Front(es), i, id);
      if Enabled(After(Front(es)), Last(es)) {
        EntriesStay(After(Front(es)), Last(es), id);
      }
    } else {
      assert es[..i] == es;
    }
  }

  // What an audit's worker made of it is final.
  lemma {:induction false} WorkerIsFinal(es: seq<Event>, i: nat, id: Id)
    requires i <= |es| && id in After(es[..i]).entries && !After(es[..i]).entries[id].waiting
    ensures id in After(es).entries && !After(es).entries[id].waiting
    ensures After(es).entries[id].status == After(es[..i]).entries[id].status
    decreases |es|
  {
    hide Step;
    if i < |es| {
      assert Front(es)[..i] == es[..i];
      WorkerIsFinal(Front(es), i, id);
      if Enabled(After(Front(es)), Last(es)) {
        EntriesStay(After(Front(es)), Last(es), id);
      }
    } else {
      assert es[..i] == es;
    }
  }

  // Dismissing forgets that audit alone, and a reconnection changes the wallet
  // handle alone.
  lemma DismissForgets(s: State, id: Id, w: Wallet)
    requires Inv(s)
    ensures var t := Step(s, Dismisses(id));
      t.entries == s.entries && t.current == s.current && forall x :: x in t.retained <==> x in s.retained && x != id
    ensures Step(s, Switches(w)) == s.(current := w)
  {
    RemoveAre(s.retained, [id]);
  }

  // Starting answers with the one running audit for the wallet, new or not.
  lemma StartAnswersTheOne(s: State, id: Id, wallet: Wallet, now: int)
    requires Inv(s) && id !in s.entries
    ensures var t, answer := Start(s, id, wallet, now), StartedId(s, id, wallet, now);
      && answer in t.retained && answer in t.entries && t.entries[answer].status == Running
        && t.entries[answer].wallet == wallet
      && (forall x ::
        x in t.retained && x in t.entries && t.entries[x].status == Running && t.entries[x].wallet == wallet
        ==> x == answer)
      && (answer != id
        <==> exists x :: x in s.retained && s.entries[x].status == Running && s.entries[x].wallet == wallet)
      && (answer != id ==> t.entries == s.entries)
      && (answer == id ==> t.entries == s.entries[id := Audit(wallet, Running, 0, false, true)])
      && t.current == s.current
  {
    StartKeeps(s, id, wallet, now);
    ReapKeepsLatest(s.entries, s.retained, now);
    var kept := Reaped(s.entries, s.retained, now);
    hide Reaped, FinishedOnly, Expired, Distinct;
    var i := RunningFor(s.entries, kept, wallet);
    if i == |kept| {
      NoneRunning(s.entries, kept, wallet);
    } else {
      assert kept[i] in kept;
    }
  }
}
