// One worker a wallet: the promise of startAudit over all audits ever started,
// and the dismissal that breaks it.
module AuditDismissal {
  import opened Basics
  import opened AuditLifecycle
  import opened AuditSafety

  predicate IsRunning(entries: map<Id, Audit>, id: Id) {
    id in entries && entries[id].status == Running
  }

  // No two audits are running for one wallet, whether the map holds them or not.
  ghost predicate OneWorker(s: State) {
    forall x, y ::
      IsRunning(s.entries, x) && IsRunning(s.entries, y) && s.entries[x].wallet == s.entries[y].wallet ==> x == y
  }

  ghost predicate RunningHeld(s: State) {
    forall id :: IsRunning(s.entries, id) ==> id in s.retained
  }

  predicate DropsRunning(s: State, e: Event) {
    e.Dismisses? && e.id in s.retained && IsRunning(s.entries, e.id)
  }

  // ---- Continuations ----

  function Continue(s: State, es: seq<Event>): (t: State)
    requires Inv(s)
    ensures Inv(t)
    decreases |es|
  {
    if es == [] then s
    else if Enabled(s, es[0]) then StepKeeps(s, es[0]); Continue(Step(s, es[0]), es[1..])
    else Continue(s, es[1..])
  }

  // No running audit is dismissed on the way.
  predicate Undismissed(s: State, es: seq<Event>)
    requires Inv(s)
    decreases |es|
  {
    if es == [] then true
    else if Enabled(s, es[0]) then
      !DropsRunning(s, es[0]) && (StepKeeps(s, es[0]); Undismissed(Step(s, es[0]), es[1..]))
    else Undismissed(s, es[1..])
  }

  lemma StartHolds(s: State, e: Event)
    requires Inv(s) && RunningHeld(s) && e.Starts? && Enabled(s, e)
    ensures RunningHeld(Step(s, e))
  {
    ReapKeepsLatest(s.entries, s.retained, e.now);
    hide Reaped, FinishedOnly, Expired, Distinct, OnePerWallet, RunningFor;
  }

  lemma StepHolds(s: State, e: Event)
    requires Inv(s) && RunningHeld(s) && Enabled(s, e) && !DropsRunning(s, e)
    ensures Inv(Step(s, e)) && RunningHeld(Step(s, e))
  {
    StepKeeps(s, e);
    match e
    case Starts(_, _, _) => StartHolds(s, e);
    case Dismisses(id) => RemoveAre(s.retained, [id]);
    case _ =>
  }

  lemma HeldIsOne(s: State)
    requires Inv(s) && RunningHeld(s)
    ensures OneWorker(s)
  {
    forall x, y | IsRunning(s.entries, x) && IsRunning(s.entries, y) && s.entries[x].wallet == s.entries[y].wallet
      ensures x == y {
      assert RunningOn(s.entries, x, s.entries[y].wallet);
    }
  }

  lemma {:induction false} ContinueHolds(s: State, es: seq<Event>)
    requires Inv(s) && RunningHeld(s) && Undismissed(s, es)
    ensures RunningHeld(Continue(s, es))
    decreases |es|
  {
    hide OnePerWallet, Distinct, AuditSound, RunningHeld, Step, DropsRunning;
    if es != [] {
      if Enabled(s, es[0]) {
        StepHolds(s, es[0]);
        ContinueHolds(Step(s, es[0]), es[1..]);
      } else {
        ContinueHolds(s, es[1..]);
      }
    }
  }

  // ---- A second worker ----

  lemma {:induction false} FreshId(ids: set<Id>) returns (n: nat)
    ensures forall id :: id in ids ==> id.n < n
  {
    n := 0;
    if ids != {} {
      var id :| id in ids;
      var below := FreshId(ids - {id});
      n := if id.n < below then below else id.n + 1;
      forall x | x in ids ensures x.n < n {
        assert x == id || x in ids - {id};
      }
    }
  }

  // A running audit the map does not hold does not stop a new one.
  lemma SecondStarts(s: State, x: Id, id: Id)
    requires Inv(s) && IsRunning(s.entries, x) && x !in s.retained && id !in s.entries
    ensures !OneWorker(Step(s, Starts(id, s.entries[x].wallet, 0)))
  {
    var w := s.entries[x].wallet;
    StartAnswersTheOne(s, id, w, 0);
    ReapedHeld(s, 0);
    var t, answer := Start(s, id, w, 0), StartedId(s, id, w, 0);
    hide Reaped, RunningFor, Inv;
    assert IsRunning(t.entries, x) && IsRunning(t.entries, answer) && answer != x;
  }

  lemma ContinueOne(s: State, e: Event)
    requires Inv(s) && e.Starts? && Enabled(s, e)
    ensures Undismissed(s, [e]) && Continue(s, [e]) == Step(s, e)
  {
    hide OnePerWallet, Distinct, AuditSound, Step;
    StepKeeps(s, e);
    assert [e][1..] == [];
  }

  ghost predicate StaysOneWorker(s: State)
    requires Inv(s)
  {
    forall es :: Undismissed(s, es) ==> OneWorker(Continue(s, es))
  }

  // Whatever happens short of dismissing a running audit, at most one audit runs
  // for a wallet, exactly when the map holds every audit that is running.
  lemma StaysOneWorkerIff(s: State)
    requires Inv(s)
    ensures StaysOneWorker(s) <==> RunningHeld(s)
  {
    hide Inv, Step, OneWorker;
    if RunningHeld(s) {
      forall es | Undismissed(s, es) ensures OneWorker(Continue(s, es)) {
        ContinueHolds(s, es);
        HeldIsOne(Continue(s, es));
      }
    }
    if StaysOneWorker(s) {
      forall x | IsRunning(s.entries, x) ensures x in s.retained {
        if x !in s.retained {
          var n := FreshId(s.entries.Keys);
          SecondStarts(s, x, Id(n));
          var e := Starts(Id(n), s.entries[x].wallet, 0);
          ContinueOne(s, e);
        }
      }
    }
  }

  // So it is from the start.
  lemma OneWorkerOverRuns(es: seq<Event>)
    ensures Inv(After([])) && (Undismissed(After([]), es) ==> OneWorker(Continue(After([]), es)))
  {
    assert RunningHeld(After([]));
    StaysOneWorkerIff(After([]));
  }

  // Start, dismiss, start: two workers for one wallet.
  lemma DismissalAdmitsSecond(w: Wallet, now: int)
    ensures var s := After([Starts(Id(0), w, now), Dismisses(Id(0)), Starts(Id(1), w, now)]);
      && IsRunning(s.entries, Id(0)) && IsRunning(s.entries, Id(1))
        && s.entries[Id(0)].wallet == s.entries[Id(1)].wallet == w
      && s.entries[Id(0)].waiting && s.entries[Id(1)].waiting
  {
    var e, f, g := Starts(Id(0), w, now), Dismisses(Id(0)), Starts(Id(1), w, now);
    Dismissed(w, now);
    AfterSnoc([e, f], g);
    assert [e, f] + [g] == [e, f, g];
    hide After, Inv, Start;
    StartEmpty(After([e, f]), Id(1), w, now);
  }

  lemma Dismissed(w: Wallet, now: int)
    ensures After([Starts(Id(0), w, now), Dismisses(Id(0))])
      == State(map[Id(0) := Audit(w, Running, 0, false, true)], [], Wallet(0))
  {
    var e, f := Starts(Id(0), w, now), Dismisses(Id(0));
    var none := State(map[], [], Wallet(0));
    assert After([]) == none;
    AfterSnoc([], e);
    AfterSnoc([e], f);
    assert [] + [e] == [e] && [e] + [f] == [e, f];
    hide After, Inv, Start;
    StartEmpty(none, Id(0), w, now);
    assert Front([Id(0)]) == [] && Last([Id(0)]) in [Id(0)];
    assert Remove([], [Id(0)]) == [];
  }

  lemma AfterSnoc(es: seq<Event>, e: Event)
    ensures After(es + [e]) == if Enabled(After(es), e) then Step(After(es), e) else After(es)
  {
    assert Front(es + [e]) == es && Last(es + [e]) == e;
  }

  lemma StartEmpty(s: State, id: Id, w: Wallet, now: int)
    requires Held(s) && s.retained == [] && id !in s.entries
    ensures Start(s, id, w, now)
      == s.(entries := s.entries[id := Audit(w, Running, 0, false, true)], retained := [id])
  {
    assert Reaped(s.entries, [], now) == [];
  }
}
