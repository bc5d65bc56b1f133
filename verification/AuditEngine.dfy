// The audit engine's module state, changed in place.
module AuditEngine {
  import opened Basics
  import opened AuditLifecycle
  import opened AuditSafety

  // ---- Deleting while walking ----

  lemma {:induction false} RemoveSplit(a: seq<Id>, b: seq<Id>, gone: seq<Id>)
    ensures Remove(a + b, gone) == Remove(a, gone) + Remove(b, gone)
  {
    if b == [] {
      assert a + b == a && Remove(a, gone) + [] == Remove(a, gone);
    } else {
      assert Front(a + b) == a + Front(b) && Last(a + b) == Last(b);
      RemoveSplit(a, Front(b), gone);
    }
  }

  lemma {:induction false} RemoveAbsent(ids: seq<Id>, gone: seq<Id>)
    requires forall x :: x in ids ==> x !in gone
    ensures Remove(ids, gone) == ids
  {
    if ids != [] {
      assert ids == Front(ids) + [Last(ids)];
      RemoveAbsent(Front(ids), gone);
    }
  }

  lemma {:induction false} RemoveTwice(ids: seq<Id>, gone: seq<Id>, id: Id)
    ensures Remove(Remove(ids, gone), [id]) == Remove(ids, gone + [id])
  {
    if ids != [] {
      var front, x := Remove(Front(ids), gone), Last(ids);
      RemoveTwice(Front(ids), gone, id);
      assert x in gone + [id] <==> x in gone || x == id;
      RemoveSplit(front, [x], [id]);
      RemoveFrom([x], [id]);
      RemoveFrom([x], gone);
      Empty(front);
      Empty(Remove(front, [id]));
    }
  }

  lemma RemoveFrom(one: seq<Id>, gone: seq<Id>)
    requires |one| == 1
    ensures Remove(one, gone) == if one[0] in gone then [] else one
  {
    assert Front(one) == [] && [Last(one)] == one && [] + one == one;
  }

  lemma Empty(ids: seq<Id>)
    ensures ids + [] == ids
  {
  }

  lemma ExpireStep(entries: map<Id, Audit>, ids: seq<Id>, i: nat, now: int)
    requires i < |ids| && Distinct(ids) && forall id :: id in ids ==> id in entries
    ensures var a, b := ids[..i], ids[..i + 1];
      (forall id :: id in a || id in b ==> id in entries)
      && (Expired(entries[ids[i]], now)
        ==> Remove(Unexpired(entries, a, now) + ids[i..], [ids[i]]) == Unexpired(entries, b, now) + ids[i + 1..])
      && (!Expired(entries[ids[i]], now)
        ==> Unexpired(entries, a, now) + ids[i..] == Unexpired(entries, b, now) + ids[i + 1..])
  {
    var a, b, id, rest := ids[..i], ids[..i + 1], ids[i], ids[i + 1..];
    assert Front(b) == a && Last(b) == id && ids[i..] == [id] + rest;
    assert forall x :: x in a ==> x in ids;
    UnexpiredAre(entries, a, now);
    var kept := Unexpired(entries, a, now);
    assert id !in a && id !in rest;
    Parts(kept, id, rest);
    hide Expired, Unexpired, Remove;
    if Expired(entries[id], now) {
      RemoveSplit(kept, [id] + rest, [id]);
      RemoveSplit([id], rest, [id]);
      RemoveAbsent(kept, [id]);
      RemoveAbsent(rest, [id]);
      RemoveFrom([id], [id]);
    }
  }

  lemma Parts(a: seq<Id>, id: Id, b: seq<Id>)
    ensures a + ([id] + b) == a + [id] + b && a + [] == a && [] + b == b
  {
  }

  lemma MarkStep(entries: map<Id, Audit>, ids: seq<Id>, i: nat, now: int)
    requires i < |ids| && Distinct(ids) && ids[i] in entries
    ensures MarkAll(entries, ids[..i + 1], now)
      == MarkAll(entries, ids[..i], now)[ids[i] := Marked(entries[ids[i]], now)]
    ensures ids[i] in MarkAll(entries, ids[..i], now) && MarkAll(entries, ids[..i], now)[ids[i]] == entries[ids[i]]
  {
    assert ids[..i + 1] == ids[..i] + [ids[i]];
    hide Marked;
  }

  // ---- The engine ----

  class Engine {
    var entries: map<Id, Audit>
    var retained: seq<Id>
    // The wallet handle of the moment, which the engine only reads.
    var current: Wallet

    ghost function View(): State
      reads this
    {
      State(entries, retained, current)
    }

    ghost predicate Valid()
      reads this
    {
      Inv(View())
    }

    constructor ()
      ensures View() == State(map[], [], Wallet(0)) && Valid()
    {
      entries, retained, current := map[], [], Wallet(0);
    }

    method Reap(now: int)
      requires Valid()
      modifies `retained
      ensures retained == Reaped(entries, old(retained), now)
    {
      hide Unexpired, Remove, FinishedOnly, Sorted, Expired;
      var ids := retained;
      assert ids[..0] == [] && Unexpired(entries, [], now) + ids[0..] == ids by {
        NoneExpired(entries, now, ids);
      }
      for i := 0 to |ids|
        invariant (forall id :: id in ids[..i] ==> id in entries)
          && retained == Unexpired(entries, ids[..i], now) + ids[i..]
      {
        ExpireStep(entries, ids, i, now);
        var e := entries[ids[i]];
        if Expired(e, now) {
          retained := Remove(retained, [ids[i]]);
        }
      }
      assert ids[..|ids|] == ids && ids[|ids|..] == [];
      var live := retained;
      UnexpiredAre(entries, ids, now);
      assert live == Unexpired(entries, ids, now) + [] == Unexpired(entries, ids, now);
      FinishedAre(entries, live);
      var sorted := Sorted(entries, FinishedOnly(entries, live));
      var finished := sorted;
      ghost var k := 0;
      RemoveAbsent(live, sorted[..0]);
      while |finished| > MAX_RETAINED
        invariant 0 <= k <= |sorted| && finished == sorted[k..]
        invariant k > 0 ==> |finished| >= MAX_RETAINED
        invariant retained == Remove(live, sorted[..k])
        decreases |finished|
      {
        var id := finished[0];
        finished := finished[1..];
        RemoveTwice(live, sorted[..k], id);
        assert sorted[..k + 1] == sorted[..k] + [id];
        retained := Remove(retained, [id]);
        k := k + 1;
      }
      assert sorted[..k] == Surplus(entries, live);
    }

    method StartAudit(id: Id, wallet: Wallet, now: int) returns (answer: Id)
      requires Valid() && id !in entries
      modifies `entries, `retained
      ensures View() == Start(old(View()), id, wallet, now) && Valid()
      ensures answer == StartedId(old(View()), id, wallet, now)
    {
      StartKeeps(View(), id, wallet, now);
      ReapedHeld(View(), now);
      hide Inv, Reaped;
      Reap(now);
      var i := RunningFor(entries, retained, wallet);
      if i < |retained| {
        return retained[i];
      }
      entries := entries[id := Audit(wallet, Running, 0, false, true)];
      retained := retained + [id];
      return id;
    }

    method MarkAuditsStale(now: int)
      requires Valid()
      modifies `entries
      ensures View() == Step(old(View()), Marks(now)) && Valid()
    {
      StepKeeps(View(), Marks(now));
      var ids, before := retained, entries;
      assert MarkAll(before, ids[..0], now) == before;
      for i := 0 to |ids|
        invariant entries == MarkAll(before, ids[..i], now)
      {
        MarkStep(before, ids, i, now);
        hide MarkAll;
        var a := entries[ids[i]];
        a := a.(staled := true);
        if a.status == Running {
          a := a.(status := Stale, completedAt := now);
        }
        entries := entries[ids[i] := a];
      }
      assert ids[..|ids|] == ids;
    }

    method DismissAudit(id: Id)
      requires Valid()
      modifies `retained
      ensures View() == Step(old(View()), Dismisses(id)) && Valid()
    {
      StepKeeps(View(), Dismisses(id));
      hide Inv;
      retained := Remove(retained, [id]);
    }

    // The worker from its identity await to the end, with what it may throw.
    method ResumeWorker(id: Id, crash: Crash, now: int)
      requires Valid() && id in entries && entries[id].waiting
      modifies `entries
      ensures View() == Step(old(View()), Resumes(id, crash, now)) && Valid()
    {
      StepKeeps(View(), Resumes(id, crash, now));
      hide Inv;
      var a := entries[id].(waiting := false, completedAt := now);
      if crash == BeforeCheck {
        entries := entries[id := a.(status := Failed)];
        return;
      }
      if current != a.wallet || a.staled {
        entries := entries[id := a.(status := Aborted)];
        return;
      }
      entries := entries[id := a.(status := if crash == AfterCheck then Failed else Complete)];
    }
  }

  lemma NoneExpired(entries: map<Id, Audit>, now: int, ids: seq<Id>)
    ensures Unexpired(entries, [], now) == [] && [] + ids == ids && ids[0..] == ids
  {
  }
}
