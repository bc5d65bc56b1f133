// Which fetches may still store once the accounts they were begun for are
// cleared, and what that does to the accounts that come after.
module BtcSessions {
  import opened Basics
  import opened BtcAccounts
  import opened BtcAccountManager

  // The manager with its history: how often it was cleared, in which session each
  // fetch began, and in which session the fetch of each stored account did.
  datatype Tagged = Tagged(s: State, session: nat, began: map<FetchId, nat>, origins: seq<nat>)

  const START: Tagged := Tagged(EMPTY, 0, map[], [])

  predicate Begins(s: State, e: Event) {
    (e.Initializes? && s.init.None?) || (e.Adds? && !HasIndex(s.accounts, |s.accounts|))
  }

  predicate Stores(s: State, e: Event)
    requires Enabled(s, e)
  {
    (e.Required? || e.Optional?) && |Step(s, e).accounts| > |s.accounts|
  }

  ghost predicate Known(t: Tagged) {
    && Inv(t.s) && |t.origins| == |t.s.accounts|
    && forall id :: id in t.s.fetches ==> id in t.began && t.began[id] <= t.session
  }

  function Tag(t: Tagged, e: Event): Tagged
    requires Known(t)
  {
    if !Enabled(t.s, e) then t
    else
      var session := if Clears(t.s, e) then t.session + 1 else t.session;
      Tagged(Step(t.s, e), session,
        if Begins(t.s, e) then t.began[e.id := session] else t.began,
        if Clears(t.s, e) then [] else if Stores(t.s, e) then t.origins + [t.began[e.id]] else t.origins)
  }

  // ---- What one event does to the accounts and the fetches ----

  // Nothing is taken away, and no fetch changes the account it is for.
  ghost predicate Later(s: State, u: State) {
    && (forall index :: HasIndex(s.accounts, index) ==> HasIndex(u.accounts, index))
    && (forall id :: id in s.fetches && id in u.fetches ==> u.fetches[id].index == s.fetches[id].index)
  }

  lemma StoreFacts(s: State, id: FetchId, keys: seq<string>, taproot: string)
    requires id in s.fetches && |keys| == 3
    ensures var u := Store(s, id, keys, taproot);
      var index := s.fetches[id].index;
      && u.fetches == s.fetches - {id} && Later(s, u) && HasIndex(u.accounts, index)
      && u.accounts == if HasIndex(s.accounts, index) then s.accounts
        else s.accounts + [NewAccount(index, keys, taproot)]
  {
    var u, index := Store(s, id, keys, taproot), s.fetches[id].index;
    NewIndex(index, keys, taproot);
    hide NewAccount;
    if !HasIndex(s.accounts, index) {
      assert u.accounts[|s.accounts|].index == index;
      forall k | HasIndex(s.accounts, k) ensures HasIndex(u.accounts, k) {
        var i :| 0 <= i < |s.accounts| && s.accounts[i].index == k;
        assert u.accounts[i].index == k;
      }
    }
  }

  lemma UpdateLater(s: State, e: Event)
    requires e.Updates?
    ensures Later(s, Step(s, e)) && |Step(s, e).accounts| == |s.accounts|
  {
    hide WithBalance, SumUsd;
    var u := Step(s, e);
    forall k | HasIndex(s.accounts, k) ensures HasIndex(u.accounts, k) {
      var i :| 0 <= i < |s.accounts| && s.accounts[i].index == k;
      assert u.accounts[i].index == k;
    }
  }

  predicate Storing(s: State, e: Event)
    requires Enabled(s, e)
  {
    e.Optional? || (e.Required? && e.keys.Some? && "" !in e.keys.value && !s.fetches[e.id].stage.taproot)
  }

  // The account a fetch is for is not there, so the event stores it; or the
  // event stores nothing.
  lemma StepFacts(s: State, e: Event)
    requires Enabled(s, e) && !Clears(s, e)
    ensures var u := Step(s, e);
      && Later(s, u)
      && (Stores(s, e) <==> Storing(s, e) && !HasIndex(s.accounts, s.fetches[e.id].index))
      && |u.accounts| == |s.accounts| + (if Stores(s, e) then 1 else 0)
      && (forall id :: id in u.fetches && id !in s.fetches ==> Begins(s, e) && id == e.id)
      && (Begins(s, e) ==> e.id !in s.fetches)
  {
    hide Store, HasIndex, NewAccount;
    match e
    case Required(id, keys) =>
      if Storing(s, e) {
        StoreFacts(s, id, keys.value, "");
      }
    case Optional(id, key) => StoreFacts(s, id, s.fetches[id].stage.keys, key);
    case Updates(_, _, _) => UpdateLater(s, e);
    case _ =>
  }

  lemma ClearFacts(s: State, e: Event)
    requires Enabled(s, e) && Clears(s, e)
    ensures var u := Step(s, e);
      && u.accounts == [] && !Stores(s, e)
      && u.fetches.Keys == s.fetches.Keys + (if e.Initializes? then {e.id} else {})
      && (forall id :: id in s.fetches ==> u.fetches[id] == s.fetches[id])
  {
  }

  lemma TagKeeps(t: Tagged, e: Event)
    requires Known(t)
    ensures Known(Tag(t, e))
  {
    if Enabled(t.s, e) {
      StepKeeps(t.s, e);
      if Clears(t.s, e) {
        ClearFacts(t.s, e);
      } else {
        StepFacts(t.s, e);
      }
      hide Inv, Step, Later, Stores, Storing;
    }
  }

  // ---- Runs until the next clearing ----

  function Runs(t: Tagged, es: seq<Event>): (u: Tagged)
    requires Known(t)
    ensures Known(u)
    decreases |es|
  {
    if es == [] then t else TagKeeps(t, es[0]); Runs(Tag(t, es[0]), es[1..])
  }

  predicate Uncleared(t: Tagged, es: seq<Event>)
    requires Known(t)
    decreases |es|
  {
    es == [] || (TagKeeps(t, es[0]); !(Enabled(t.s, es[0]) && Clears(t.s, es[0])) && Uncleared(Tag(t, es[0]), es[1..]))
  }

  lemma RunsCons(t: Tagged, e: Event, es: seq<Event>)
    requires Known(t)
    ensures Known(Tag(t, e)) && Runs(t, [e] + es) == Runs(Tag(t, e), es)
    ensures Uncleared(t, [e] + es) <==> !(Enabled(t.s, e) && Clears(t.s, e)) && Uncleared(Tag(t, e), es)
  {
    TagKeeps(t, e);
    assert ([e] + es)[0] == e && ([e] + es)[1..] == es;
    hide Tag, Known, Enabled, Clears;
  }

  lemma {:induction false} RunsSnoc(t: Tagged, es: seq<Event>, e: Event)
    requires Known(t)
    ensures Runs(t, es + [e]) == Tag(Runs(t, es), e)
    decreases |es|
  {
    TagKeeps(t, if es == [] then e else es[0]);
    hide Tag, Known;
    if es == [] {
      RunsCons(t, e, []);
      assert es + [e] == [e] + [];
    } else {
      RunsSnoc(Tag(t, es[0]), es[1..], e);
      RunsCons(t, es[0], es[1..] + [e]);
      assert es + [e] == [es[0]] + (es[1..] + [e]);
    }
  }

  // The history is only kept beside the manager: the runs are the manager's.
  lemma {:induction false} RunsAreAfter(es: seq<Event>)
    ensures Known(START) && Runs(START, es).s == After(es)
  {
    if es != [] {
      RunsAreAfter(Front(es));
      RunsSnoc(START, Front(es), Last(es));
      assert es == Front(es) + [Last(es)];
      hide Runs;
    }
  }

  // Every fetch under way can finish, and store unless its account is there.
  lemma Finishes(t: Tagged, id: FetchId) returns (es: seq<Event>)
    requires Known(t) && id in t.s.fetches && !HasIndex(t.s.accounts, t.s.fetches[id].index)
    ensures Uncleared(t, es) && Runs(t, es).session == t.session
    ensures Runs(t, es).origins == t.origins + [t.began[id]]
    ensures HasIndex(Runs(t, es).s.accounts, t.s.fetches[id].index)
  {
    hide HasIndex;
    match t.s.fetches[id].stage
    case Capability =>
      var e := Capable(id, false);
      Waits(t, e);
      var u := Tag(t, e);
      es := FinishesRequired(u, id);
      RunsCons(t, e, es);
      es := [e] + es;
    case RequiredKeys(_) => es := FinishesRequired(t, id);
    case OptionalKey(_) => es := FinishesOptional(t, id);
  }

  // The next answer arrives, and the fetch waits for another.
  lemma Waits(t: Tagged, e: Event)
    requires Known(t) && Enabled(t.s, e)
    requires e.Capable? || (e.Required? && e.keys.Some? && "" !in e.keys.value && t.s.fetches[e.id].stage.taproot)
    ensures var u := Tag(t, e);
      && Known(u) && u.session == t.session && u.began == t.began && u.origins == t.origins
      && u.s.accounts == t.s.accounts && e.id in u.s.fetches && u.s.fetches[e.id].index == t.s.fetches[e.id].index
      && u.s.fetches[e.id].stage == if e.Capable? then RequiredKeys(e.taproot) else OptionalKey(e.keys.value)
  {
    TagKeeps(t, e);
    hide Inv, HasIndex;
  }

  const SOME_KEYS: seq<string> := ["a", "b", "c"]

  lemma FinishesRequired(t: Tagged, id: FetchId) returns (es: seq<Event>)
    requires Known(t) && id in t.s.fetches && t.s.fetches[id].stage.RequiredKeys?
    requires !HasIndex(t.s.accounts, t.s.fetches[id].index)
    ensures Uncleared(t, es) && Runs(t, es).session == t.session
    ensures Runs(t, es).origins == t.origins + [t.began[id]]
    ensures HasIndex(Runs(t, es).s.accounts, t.s.fetches[id].index)
  {
    hide HasIndex;
    var e := Required(id, Some(SOME_KEYS));
    if t.s.fetches[id].stage.taproot {
      Waits(t, e);
      es := FinishesOptional(Tag(t, e), id);
      RunsCons(t, e, es);
      es := [e] + es;
    } else {
      StoreFacts(t.s, id, SOME_KEYS, "");
      es := StoresNow(t, e);
    }
  }

  lemma FinishesOptional(t: Tagged, id: FetchId) returns (es: seq<Event>)
    requires Known(t) && id in t.s.fetches && t.s.fetches[id].stage.OptionalKey?
    requires !HasIndex(t.s.accounts, t.s.fetches[id].index)
    ensures Uncleared(t, es) && Runs(t, es).session == t.session
    ensures Runs(t, es).origins == t.origins + [t.began[id]]
    ensures HasIndex(Runs(t, es).s.accounts, t.s.fetches[id].index)
  {
    hide HasIndex;
    assert FetchSound(t.s.fetches[id]);
    StoreFacts(t.s, id, t.s.fetches[id].stage.keys, "");
    es := StoresNow(t, Optional(id, ""));
  }

  lemma StoresNow(t: Tagged, e: Event) returns (es: seq<Event>)
    requires Known(t) && Enabled(t.s, e) && (e.Required? || e.Optional?) && Storing(t.s, e)
    requires !HasIndex(t.s.accounts, t.s.fetches[e.id].index)
    ensures Uncleared(t, es) && Runs(t, es) == Tag(t, e)
    ensures Runs(t, es).session == t.session && Runs(t, es).origins == t.origins + [t.began[e.id]]
    ensures Runs(t, es).s == Step(t.s, e)
  {
    hide HasIndex, Inv, Step;
    StepFacts(t.s, e);
    TagKeeps(t, e);
    es := [e] + [];
    RunsCons(t, e, []);
  }

  // ---- Accounts of one session ----

  // Every stored account was fetched in the present session.
  ghost predicate Isolated(t: Tagged) {
    forall i :: 0 <= i < |t.origins| ==> t.origins[i] == t.session
  }

  ghost predicate Harmless(t: Tagged)
    requires Known(t)
  {
    forall id :: id in t.s.fetches ==> t.began[id] == t.session || HasIndex(t.s.accounts, t.s.fetches[id].index)
  }

  ghost predicate StaysIsolated(t: Tagged)
    requires Known(t)
  {
    forall es :: Uncleared(t, es) ==> Isolated(Runs(t, es))
  }

  lemma TagIsolated(t: Tagged, e: Event)
    requires Known(t) && Isolated(t) && Harmless(t) && !(Enabled(t.s, e) && Clears(t.s, e))
    ensures Known(Tag(t, e)) && Isolated(Tag(t, e)) && Harmless(Tag(t, e))
  {
    TagKeeps(t, e);
    if Enabled(t.s, e) {
      StepFacts(t.s, e);
      hide Inv, Step, HasIndex, Stores, Storing;
      assert Stores(t.s, e) ==> t.began[e.id] == t.session;
    }
  }

  lemma {:induction false} RunsIsolated(t: Tagged, es: seq<Event>)
    requires Known(t) && Isolated(t) && Harmless(t) && Uncleared(t, es)
    ensures Isolated(Runs(t, es))
    decreases |es|
  {
    if es != [] {
      TagIsolated(t, es[0]);
      hide Isolated, Harmless, Tag, Known;
      RunsIsolated(Tag(t, es[0]), es[1..]);
    }
  }

  // Until the next clearing every account stored is of the present session,
  // whatever happens, exactly when the accounts there are and no fetch left from
  // an earlier session is for an account that is not there.
  lemma StaysIsolatedIff(t: Tagged)
    requires Known(t)
    ensures StaysIsolated(t) <==> Isolated(t) && Harmless(t)
  {
    if Isolated(t) && Harmless(t) {
      forall es | Uncleared(t, es) ensures Isolated(Runs(t, es)) {
        RunsIsolated(t, es);
      }
    }
    if StaysIsolated(t) {
      assert Uncleared(t, []) && Runs(t, []) == t;
      forall id | id in t.s.fetches
        ensures t.began[id] == t.session || HasIndex(t.s.accounts, t.s.fetches[id].index)
      {
        if !HasIndex(t.s.accounts, t.s.fetches[id].index) {
          var es := Finishes(t, id);
          assert Runs(t, es).origins[|t.origins|] == t.began[id];
        }
      }
    }
  }

  // So a clearing separates what is before it from what comes after exactly when
  // no fetch is under way.
  lemma ClearingSeparatesIff(t: Tagged, e: Event)
    requires Known(t) && Enabled(t.s, e) && Clears(t.s, e)
    ensures Known(Tag(t, e)) && (StaysIsolated(Tag(t, e)) <==> t.s.fetches == map[])
  {
    TagKeeps(t, e);
    ClearFacts(t.s, e);
    StaysIsolatedIff(Tag(t, e));
    hide StaysIsolated, Step, Inv;
    if t.s.fetches != map[] {
      var id :| id in t.s.fetches;
      assert id in Tag(t, e).s.fetches && !HasIndex([], t.s.fetches[id].index);
      assert t.began[id] != Tag(t, e).session;
      assert Begins(t.s, e) ==> e.id != id;
    }
  }

  // ---- Account numbers ----

  ghost predicate StaysContiguous(t: Tagged)
    requires Known(t)
  {
    forall es :: Uncleared(t, es) ==> Contiguous(Runs(t, es).s.accounts)
  }

  lemma {:induction false} RunsContiguous(t: Tagged, es: seq<Event>)
    requires Known(t) && Contiguous(t.s.accounts) && Current(t.s) && Uncleared(t, es)
    ensures Contiguous(Runs(t, es).s.accounts)
    decreases |es|
  {
    if es != [] {
      TagKeeps(t, es[0]);
      if Enabled(t.s, es[0]) {
        ContiguousIff(t.s, es[0]);
      }
      hide Contiguous, Current, Known, Step, Clears;
      RunsContiguous(Tag(t, es[0]), es[1..]);
    }
  }

  // Until the next clearing account numbers run 0, 1, 2, ... whatever happens,
  // exactly when they do now and no fetch is for an account beyond the next.
  lemma StaysContiguousIff(t: Tagged)
    requires Known(t)
    ensures StaysContiguous(t) <==> Contiguous(t.s.accounts) && Current(t.s)
  {
    if Contiguous(t.s.accounts) && Current(t.s) {
      forall es | Uncleared(t, es) ensures Contiguous(Runs(t, es).s.accounts) {
        RunsContiguous(t, es);
      }
    }
    if StaysContiguous(t) {
      assert Uncleared(t, []) && Runs(t, []) == t;
      forall id | id in t.s.fetches ensures t.s.fetches[id].index <= |t.s.accounts| {
        if t.s.fetches[id].index > |t.s.accounts| {
          var es := Finishes(t, id);
          Beyond(Runs(t, es).s.accounts, t.s.fetches[id].index);
        }
      }
    }
  }

  lemma Beyond(accounts: seq<Account>, index: nat)
    requires Contiguous(accounts) && HasIndex(accounts, index)
    ensures index < |accounts|
  {
  }

  // ---- A run that mixes two sessions ----

  // A fetch begun before a reset finishes after the next initialization began.
  function TwoWallets(earlier: seq<string>, later: seq<string>): seq<Event> {
    [Initializes(FetchId(0)), Capable(FetchId(0), false)]
    + ([Resets, Initializes(FetchId(1))]
    + ([Capable(FetchId(1), false)]
    + ([Required(FetchId(0), Some(earlier)), Required(FetchId(1), Some(later))] + [])))
  }

  const WAITING: Fetch := Fetch(0, RequiredKeys(false), true)

  // Both fetches are waiting for their keys.
  const MIXED: Tagged :=
    Tagged(EMPTY.(init := Some(FetchId(1)), fetches := map[FetchId(0) := WAITING, FetchId(1) := WAITING]),
           3, map[FetchId(0) := 1, FetchId(1) := 3], [])

  lemma RunsTwo(t: Tagged, e: Event, f: Event, es: seq<Event>)
    requires Known(t)
    ensures Known(Tag(t, e)) && Known(Tag(Tag(t, e), f))
    ensures Runs(t, [e, f] + es) == Runs(Tag(Tag(t, e), f), es)
  {
    hide Tag, Known;
    RunsCons(t, e, [f] + es);
    RunsCons(Tag(t, e), f, es);
    assert [e, f] + es == [e] + ([f] + es);
  }

  lemma FirstWaits()
    ensures Known(START)
    ensures var t := Tag(START, Initializes(FetchId(0)));
      && Known(t) && Known(Tag(t, Capable(FetchId(0), false)))
      && Tag(t, Capable(FetchId(0), false))
         == Tagged(EMPTY.(init := Some(FetchId(0)), fetches := map[FetchId(0) := WAITING]), 1, map[FetchId(0) := 1], [])
  {
    TagKeeps(START, Initializes(FetchId(0)));
    TagKeeps(Tag(START, Initializes(FetchId(0))), Capable(FetchId(0), false));
  }

  lemma SecondWaits(t: Tagged)
    requires t == Tagged(EMPTY.(init := Some(FetchId(0)), fetches := map[FetchId(0) := WAITING]), 1,
      map[FetchId(0) := 1], [])
    requires Known(t)
    ensures var u := Tag(t, Resets);
      && Known(u) && Known(Tag(u, Initializes(FetchId(1))))
      && Tag(Tag(u, Initializes(FetchId(1))), Capable(FetchId(1), false)) == MIXED
  {
    TagKeeps(t, Resets);
    var u := Tag(t, Resets);
    assert u == Tagged(EMPTY.(fetches := t.s.fetches), 2, t.began, []);
    TagKeeps(u, Initializes(FetchId(1)));
    var v := Tag(u, Initializes(FetchId(1)));
    assert v.s.fetches == t.s.fetches[FetchId(1) := Fetch(0, Capability, true)];
    assert Tag(v, Capable(FetchId(1), false)).s.fetches == MIXED.s.fetches;
  }

  lemma BothFinish(earlier: seq<string>, later: seq<string>)
    requires |earlier| == |later| == 3 && "" !in earlier && "" !in later && Known(MIXED)
    ensures var t := Tag(MIXED, Required(FetchId(0), Some(earlier)));
      && Known(t)
      && var u := Tag(t, Required(FetchId(1), Some(later)));
         u.s.accounts == [NewAccount(0, earlier, "")] && u.s.fetches == map[] && u.origins == [1] && u.session == 3
  {
    var e, f := Required(FetchId(0), Some(earlier)), Required(FetchId(1), Some(later));
    TagKeeps(MIXED, e);
    hide Inv;
    StoreFacts(MIXED.s, FetchId(0), earlier, "");
    var t := Tag(MIXED, e);
    assert t.s.accounts == [] + [NewAccount(0, earlier, "")];
    StoreFacts(t.s, FetchId(1), later, "");
  }

  // Its keys are then the only account, and the fetch of the later wallet has
  // left them there.
  lemma EarlierKeysStored(earlier: seq<string>, later: seq<string>)
    requires |earlier| == |later| == 3 && "" !in earlier && "" !in later
    ensures Known(START)
    ensures var t := Runs(START, TwoWallets(earlier, later));
      && t.s == After(TwoWallets(earlier, later))
      && t.s.accounts == [NewAccount(0, earlier, "")] && t.s.fetches == map[] && !Isolated(t)
  {
    RunsAreAfter(TwoWallets(earlier, later));
    var es := TwoWallets(earlier, later);
    ReachesMixed(earlier, later);
    BothFinish(earlier, later);
    hide Tag, Known, NewAccount, TwoWallets, After;
    RunsTwo(MIXED, Required(FetchId(0), Some(earlier)), Required(FetchId(1), Some(later)), []);
    var t := Runs(START, es);
    assert t.origins[0] == 1;
  }

  lemma ReachesMixed(earlier: seq<string>, later: seq<string>)
    ensures Known(START) && Known(MIXED)
    ensures Runs(START, TwoWallets(earlier, later))
      == Runs(MIXED, [Required(FetchId(0), Some(earlier)), Required(FetchId(1), Some(later))] + [])
  {
    hide Tag, Known, Runs;
    FirstWaits();
    var last := [Required(FetchId(0), Some(earlier)), Required(FetchId(1), Some(later))] + [];
    var t := Tag(Tag(START, Initializes(FetchId(0))), Capable(FetchId(0), false));
    SecondWaits(t);
    var u := Tag(Tag(t, Resets), Initializes(FetchId(1)));
    var third := [Capable(FetchId(1), false)] + last;
    RunsTwo(START, Initializes(FetchId(0)), Capable(FetchId(0), false), [Resets, Initializes(FetchId(1))] + third);
    RunsTwo(t, Resets, Initializes(FetchId(1)), third);
    RunsCons(u, Capable(FetchId(1), false), last);
  }
}
