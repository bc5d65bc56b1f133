// The accounts a Bitcoin scan keeps at every step, and what they mean at the end.
module BtcScanSafety {
  import opened Basics
  import opened BtcScan

  // ---- One result at a time ----

  lemma BalanceIs(l: Lookup)
    ensures BalanceOf(l) == if l.Answered? then Value(l.utxos) else 0
  {
  }

  lemma AccountBalances(s: Scan, c: Checked, again: Lookup)
    requires Balanced(s) && BalanceOf(c.lookup) > 0
    ensures Balanced(Account(s, c, again))
  {
    BalanceIs(c.lookup);
    hide BalanceOf;
    var t, l := Account(s, c, again), Look(c.at, c.lookup, Some(again));
    var f := Last(t.btc.findings);
    assert Front(t.btc.findings) == s.btc.findings;
    assert Front(s.seen + [l]) == s.seen && Last(s.seen + [l]) == l;
    assert Entered(f, Last(t.raw), l);
    assert FundedOnly(t.seen) == FundedOnly(s.seen) + [l];
    hide Entered, FundedOnly;
  }

  lemma SkipBalances(s: Scan, c: Checked)
    requires Balanced(s) && BalanceOf(c.lookup) <= 0
    ensures Balanced(Skip(s, c))
  {
    var l := Look(c.at, c.lookup, None);
    assert Front(s.seen + [l]) == s.seen && Last(s.seen + [l]) == l;
    hide Reported, Sum, HighestAccount, BalanceOf;
  }

  lemma PlacesSnoc(seen: seq<Look>, l: Look)
    ensures Places(seen + [l]) == Places(seen) + [l.at]
  {
  }

  // The results before k of the batch at at are dealt with.
  ghost predicate AtResult(s: Scan, at: nat, results: seq<Checked>, k: nat) {
    && s.state == Scanning && !s.btc.partial && Balanced(s)
    && |s.answers| == |s.matrix| && s.derived == Successes(s.matrix, s.answers)
    && at < |s.derived| && Targets(results) == Batch(s.derived, at) && k <= |results|
    && Places(s.seen) == s.derived[..at + k]
  }

  lemma PlaceNext(s: Scan, at: nat, results: seq<Checked>, k: nat, seen: seq<Look>)
    requires AtResult(s, at, results, k) && k < |results|
    requires |seen| == |s.seen| + 1 && Front(seen) == s.seen && Last(seen).at == results[k].at
    ensures at + k + 1 <= |s.derived| && Places(seen) == s.derived[..at + k + 1]
  {
    hide Balanced, Successes;
    PlacesSnoc(s.seen, Last(seen));
    assert seen == s.seen + [Last(seen)];
    assert results[k].at == Targets(results)[k] == Batch(s.derived, at)[k] == s.derived[at + k];
    assert s.derived[..at + k + 1] == s.derived[..at + k] + [s.derived[at + k]];
  }

  lemma BatchEnds(s: Scan, at: nat)
    requires at < |s.derived|
    ensures |Batch(s.derived, at)| > 0
    ensures at + |Batch(s.derived, at)| == if at + BATCH < |s.derived| then at + BATCH else |s.derived|
  {
  }

  lemma NextBatchKeeps(s: Scan, at: nat, live: bool)
    requires s.state == Scanning && !s.btc.partial && Balanced(s)
    requires |s.answers| == |s.matrix| && s.derived == Successes(s.matrix, s.answers)
    requires Places(s.seen) == if at < |s.derived| then s.derived[..at] else s.derived
    ensures Inv(NextBatch(s, at, live))
  {
    hide Sum, HighestAccount, Reported, FundedOnly, Successes, Places;
  }

  lemma ResultKeeps(s: Scan, at: nat, results: seq<Checked>, k: nat)
    requires AtResult(s, at, results, k) && k < |results| && BalanceOf(results[k].lookup) > 0
    ensures Inv(s.(loop := Fetching(at, results, k)))
  {
    hide Sum, HighestAccount, Reported, FundedOnly, Successes, Places, Batch, BalanceOf;
    BatchEnds(s, at);
  }

  lemma {:induction false} NextResultKeeps(s: Scan, at: nat, results: seq<Checked>, k: nat, live: bool)
    requires AtResult(s, at, results, k)
    ensures Inv(NextResult(s, at, results, k, live))
    decreases |results| - k
  {
    if k >= |results| {
      BatchEnds(s, at);
      hide Batch;
      assert s.derived[..|s.derived|] == s.derived;
      hide Balanced, Successes;
      NextBatchKeeps(s, at + BATCH, live);
    } else if BalanceOf(results[k].lookup) <= 0 {
      var t := Skip(s, results[k]);
      SkipBalances(s, results[k]);
      PlaceNext(s, at, results, k, t.seen);
      hide Balanced, Successes, Places, Batch, BalanceOf;
      NextResultKeeps(t, at, results, k + 1, live);
    } else {
      ResultKeeps(s, at, results, k);
    }
  }

  // ---- Every event ----

  lemma FailKeeps(s: Scan)
    requires Balanced(s) && |s.answers| <= |s.matrix| && s.derived == Successes(s.matrix, s.answers)
      && Places(s.seen) <= s.derived
    ensures Inv(Fail(s))
  {
    hide Sum, HighestAccount, Reported, FundedOnly, Successes, Places;
  }

  lemma NextDeriveKeeps(s: Scan, failures: nat, live: bool)
    requires s.state == Scanning && !s.btc.partial && Balanced(s) && s.seen == []
    requires failures == TrailingThrows(s.answers) < MAX_CONSECUTIVE_FAILURES
    requires |s.answers| <= |s.matrix| && s.derived == Successes(s.matrix, s.answers)
    ensures Inv(NextDerive(s, failures, live))
  {
    hide Sum, HighestAccount, Reported, FundedOnly, Successes;
    if |s.answers| >= |s.matrix| {
      NextBatchKeeps(s, 0, live);
    } else if !live {
      FailKeeps(s);
    }
  }

  lemma StartKeeps(s: Scan, matrix: Option<seq<PathEntry>>, live: bool)
    requires Inv(s)
    ensures Inv(Start(s, matrix, live))
  {
    if !(s.state == Scanning || s.state == Done) {
      var t := Scan(Scanning, NOTHING, [], [], [], NoLoop, [], []);
      assert Balanced(t);
      if matrix.None? {
        FailKeeps(t);
      } else {
        NextDeriveKeeps(t.(matrix := matrix.value), 0, live);
      }
    }
  }

  lemma DeriveKeeps(s: Scan, answer: Answer, live: bool)
    requires Inv(s) && s.loop.Deriving? && |s.answers| < |s.matrix|
    ensures Inv(Derive(s, answer, live))
  {
    var answers := s.answers + [answer];
    assert Front(answers) == s.answers && Last(answers) == answer;
    assert TrailingThrows(answers) == if answer.Threw? then TrailingThrows(s.answers) + 1 else 0;
    var t := s.(answers := answers, derived := Successes(s.matrix, answers));
    assert Balanced(t);
    hide Inv, Balanced;
    match answer
    case Address(address) => NextDeriveKeeps(t, 0, live);
    case Threw =>
      if s.loop.failures + 1 >= MAX_CONSECUTIVE_FAILURES {
        FailKeeps(t);
      } else {
        NextDeriveKeeps(t, s.loop.failures + 1, live);
      }
  }

  lemma BalanceKeeps(s: Scan, lookups: seq<Lookup>, live: bool)
    requires Inv(s) && s.loop.Checking? && |lookups| == |Batch(s.derived, s.loop.at)|
    ensures Inv(Balance(s, lookups, live))
  {
    var results := Zip(Batch(s.derived, s.loop.at), lookups);
    assert Targets(results) == Batch(s.derived, s.loop.at);
    hide Balanced, Successes, NextResult, Batch, Zip, Places, Targets;
    NextResultKeeps(s, s.loop.at, results, 0, live);
  }

  lemma AccountNext(s: Scan, at: nat, results: seq<Checked>, k: nat, again: Lookup)
    requires AtResult(s, at, results, k) && k < |results| && BalanceOf(results[k].lookup) > 0
    ensures AtResult(Account(s, results[k], again), at, results, k + 1)
  {
    var t := Account(s, results[k], again);
    AccountBalances(s, results[k], again);
    hide Balanced, Successes, Batch, BalanceOf;
    assert Front(t.seen) == s.seen;
    PlaceNext(s, at, results, k, t.seen);
    hide Places, Targets;
  }

  lemma CoinKeeps(s: Scan, again: Lookup, live: bool)
    requires Inv(s) && s.loop.Fetching?
    ensures Inv(Coin(s, again, live))
  {
    var at, results, k := s.loop.at, s.loop.results, s.loop.k;
    hide Balanced, Successes, NextResult, Batch, BalanceOf, Account, Places, Targets;
    AccountNext(s, at, results, k, again);
    NextResultKeeps(Account(s, results[k], again), at, results, k + 1, live);
  }

  lemma StepKeeps(s: Scan, e: Event)
    requires Inv(s) && Enabled(s, e)
    ensures Inv(Step(s, e))
  {
    hide Inv, Start, Derive, Balance, Coin, Batch;
    match e
    case Starts(matrix, live) => StartKeeps(s, matrix, live);
    case Derives(answer, live) => DeriveKeeps(s, answer, live);
    case Balances(lookups, live) => BalanceKeeps(s, lookups, live);
    case Coins(again, live) => CoinKeeps(s, again, live);
  }

  // The scan after a run of events, those that cannot happen doing nothing.
  function After(es: seq<Event>): (s: Scan)
    ensures Inv(s)
  {
    if es == [] then FRESH
    else
      var s := After(Front(es));
      if Enabled(s, Last(es)) then StepKeeps(s, Last(es)); Step(s, Last(es)) else s
  }

  // At every moment of every run the report adds up: the total is the sum of the
  // findings, each finding and its raw result are what the two lookups of one
  // path came to, the highest account is the highest found, one loop runs while
  // scanning and none otherwise, and a scan is partial exactly when it broke off.
  // The findings are those of this attempt alone, from paths taken in order and
  // at most once each.
  lemma AlwaysAddsUp(es: seq<Event>)
    ensures var s := After(es);
      && s.btc.totalFoundSats == Sum(s.btc.findings)
      && s.btc.higherAccountMax == HighestAccount(s.btc.findings)
      && Reported(s.btc.findings, s.raw, FundedOnly(s.seen))
      && (s.state == Scanning <==> s.loop != NoLoop)
      && (s.btc.partial <==> s.state == Broken)
      && |s.answers| <= |s.matrix| && Places(s.seen) <= Successes(s.matrix, s.answers)
  {
    hide After, Sum, HighestAccount, Reported, FundedOnly, Successes, Places;
  }

  // A raw result's coins come to its balance exactly when the second lookup was
  // answered too, and with as much.
  lemma CoinsAddUpIff(es: seq<Event>, i: nat)
    requires i < |After(es).raw|
    ensures var s := After(es);
      var funded := FundedOnly(s.seen);
      && i < |funded| && s.raw[i].at == funded[i].at && s.raw[i].balanceSats > 0
      && funded[i].lookup.Answered? && funded[i].again.Some?
      && (Value(s.raw[i].utxos) == s.raw[i].balanceSats
          <==> funded[i].again.value.Answered? && Value(funded[i].again.value.utxos) == Value(funded[i].lookup.utxos))
  {
    AlwaysAddsUp(es);
    assert Value([]) == 0;
    FundedPositive(After(es).seen);
    hide After, FundedOnly;
    var s := After(es);
    assert Entered(s.btc.findings[i], s.raw[i], FundedOnly(s.seen)[i]);
  }

  // A balance is the sum of its coins' values, whatever way they are divided.
  lemma {:induction false} ValueAdds(a: seq<Utxo>, b: seq<Utxo>, u: Utxo)
    ensures Value(a + b) == Value(a) + Value(b) && Value([u]) == u.value && Value([]) == 0
  {
    assert Front([u]) == [] && Last([u]) == u;
    if b == [] {
      assert a + b == a;
    } else {
      ValueAdds(a, Front(b), u);
      assert Front(a + b) == a + Front(b) && Last(a + b) == Last(b);
    }
  }

  lemma {:induction false} FundedPositive(seen: seq<Look>)
    ensures forall l :: l in FundedOnly(seen) <==> l in seen && l.lookup.Answered? && Value(l.lookup.utxos) > 0
  {
    if seen != [] {
      FundedPositive(Front(seen));
      BalanceIs(Last(seen).lookup);
      hide BalanceOf;
      assert seen == Front(seen) + [Last(seen)];
    }
  }

  // The finding is of account n, beyond the ones in use.
  predicate IsHigher(f: Finding, n: int) {
    f.at.entry.category == HigherAccount && f.at.entry.accountIndex == Some(n)
  }

  // HighestAccount is what its name says.
  lemma {:induction false} HighestIsMax(findings: seq<Finding>)
    ensures HighestAccount(findings) >= 0
    ensures forall i, n :: 0 <= i < |findings| && IsHigher(findings[i], n) ==> n <= HighestAccount(findings)
    ensures HighestAccount(findings) == 0
      || exists i :: 0 <= i < |findings| && IsHigher(findings[i], HighestAccount(findings))
  {
    if findings != [] {
      var front := Front(findings);
      HighestIsMax(front);
      assert forall n :: IsHigher(Last(findings), n) <==> Higher(Last(findings).at) == Some(n);
      hide Higher, IsHigher;
      assert findings[|findings| - 1] == Last(findings);
      if i :| 0 <= i < |front| && IsHigher(front[i], HighestAccount(front)) {
        assert findings[i] == front[i];
      }
    }
  }

  // A finished scan dealt with every path whose derivation gave an address, in
  // order, and reports exactly those whose lookup was answered with money.
  lemma DoneReportsAll(es: seq<Event>)
    requires After(es).state == Done
    ensures var s := After(es);
      && |s.answers| == |s.matrix|
      && Places(s.seen) == Successes(s.matrix, s.answers)
      && Reported(s.btc.findings, s.raw, FundedOnly(s.seen))
      && (forall l :: l in FundedOnly(s.seen) <==> l in s.seen && l.lookup.Answered? && Value(l.lookup.utxos) > 0)
      && !s.btc.partial
  {
    FundedPositive(After(es).seen);
    hide After, Sum, HighestAccount, Reported, FundedOnly, Successes, Places;
  }

  // ---- Complete or not ----

  predicate Gives(a: Answer) {
    a.Address? && a.address != ""
  }

  lemma {:induction false} SuccessesCount(matrix: seq<PathEntry>, answers: seq<Answer>)
    requires |answers| <= |matrix|
    ensures |Successes(matrix, answers)| <= |answers|
    ensures |Successes(matrix, answers)| == |answers| <==> forall i :: 0 <= i < |answers| ==> Gives(answers[i])
    ensures |Successes(matrix, answers)| == |answers| ==>
      forall i :: 0 <= i < |answers| ==> Successes(matrix, answers)[i].entry == matrix[i]
  {
    if answers != [] {
      SuccessesCount(matrix, Front(answers));
      assert forall i ::
        0 <= i < |answers| ==> answers[i] == if i < |answers| - 1 then Front(answers)[i] else Last(answers);
    }
  }

  // Every path was really looked at: its derived address was asked for, and the
  // backend answered.
  ghost predicate LookedEverywhere(matrix: seq<PathEntry>, seen: seq<Look>) {
    && |seen| == |matrix|
    && forall i :: 0 <= i < |matrix| ==> seen[i].at.entry == matrix[i] && seen[i].lookup.Answered?
  }

  // A scan that is done, and so not partial, has looked at every path exactly
  // when every derivation gave an address and every lookup was answered; up to
  // four failed derivations in a row, and any number of failed lookups, leave no
  // mark.
  lemma DoneIsCompleteIff(es: seq<Event>)
    requires After(es).state == Done
    ensures var s := After(es);
      LookedEverywhere(s.matrix, s.seen) <==>
        && (forall i :: 0 <= i < |s.answers| ==> Gives(s.answers[i]))
        && (forall i :: 0 <= i < |s.seen| ==> s.seen[i].lookup.Answered?)
  {
    DoneReportsAll(es);
    hide After, Successes, FundedOnly, Gives, Places, LookedEverywhere;
    CompleteIff(After(es).matrix, After(es).answers, After(es).seen);
  }

  lemma CompleteIff(matrix: seq<PathEntry>, answers: seq<Answer>, seen: seq<Look>)
    requires |answers| == |matrix| && Places(seen) == Successes(matrix, answers)
    ensures LookedEverywhere(matrix, seen) <==>
      && (forall i :: 0 <= i < |answers| ==> Gives(answers[i]))
      && (forall i :: 0 <= i < |seen| ==> seen[i].lookup.Answered?)
  {
    SuccessesCount(matrix, answers);
    hide Successes, Gives;
    assert forall i :: 0 <= i < |seen| ==> Places(seen)[i] == seen[i].at;
  }

  // ---- What a finished scan misses ----

  type Money = PathEntry -> int

  function FundedPaths(matrix: seq<PathEntry>, money: Money): seq<PathEntry> {
    if matrix == [] then []
    else FundedPaths(Front(matrix), money) + if money(Last(matrix)) > 0 then [Last(matrix)] else []
  }

  function Entries(places: seq<Derived>): (r: seq<PathEntry>)
    ensures |r| == |places| && forall i :: 0 <= i < |r| ==> r[i] == places[i].entry
  {
    seq(|places|, i requires 0 <= i < |places| => places[i].entry)
  }

  function FoundAt(findings: seq<Finding>): (r: seq<PathEntry>)
    ensures |r| == |findings| && forall i :: 0 <= i < |r| ==> r[i] == findings[i].at.entry
  {
    seq(|findings|, i requires 0 <= i < |findings| => findings[i].at.entry)
  }

  // Whatever lookup is answered, is answered with what is there.
  ghost predicate Truthful(seen: seq<Look>, money: Money) {
    forall i :: 0 <= i < |seen| && seen[i].lookup.Answered? ==> Value(seen[i].lookup.utxos) == money(seen[i].at.entry)
  }

  ghost predicate NoneLostDeriving(matrix: seq<PathEntry>, answers: seq<Answer>, money: Money)
    requires |answers| <= |matrix|
  {
    forall i :: 0 <= i < |answers| && !Gives(answers[i]) ==> money(matrix[i]) <= 0
  }

  ghost predicate NoneLostLooking(seen: seq<Look>, money: Money) {
    forall i :: 0 <= i < |seen| && !seen[i].lookup.Answered? ==> money(seen[i].at.entry) <= 0
  }

  lemma FundedSnoc(matrix: seq<PathEntry>, p: PathEntry, money: Money)
    ensures FundedPaths(matrix + [p], money) == FundedPaths(matrix, money) + if money(p) > 0 then [p] else []
  {
    assert Front(matrix + [p]) == matrix;
  }

  lemma EntriesSnoc(places: seq<Derived>, d: Derived)
    ensures Entries(places + [d]) == Entries(places) + [d.entry]
  {
  }

  lemma {:induction false} LostDeriving(matrix: seq<PathEntry>, answers: seq<Answer>, money: Money)
    requires |answers| <= |matrix|
    ensures var there, reached := FundedPaths(matrix[..|answers|], money),
      FundedPaths(Entries(Successes(matrix, answers)), money);
      && |reached| <= |there|
      && (NoneLostDeriving(matrix, answers, money) ==> reached == there)
      && (|reached| == |there| ==> NoneLostDeriving(matrix, answers, money))
  {
    if answers == [] {
      assert matrix[..0] == [] && Entries([]) == [];
    } else {
      var n := |answers| - 1;
      LostDeriving(matrix, Front(answers), money);
      assert matrix[..n + 1] == matrix[..n] + [matrix[n]];
      FundedSnoc(matrix[..n], matrix[n], money);
      var before := Successes(matrix, Front(answers));
      EntriesSnoc(before, Derived(matrix[n], if Last(answers).Address? then Last(answers).address else ""));
      FundedSnoc(Entries(before), matrix[n], money);
      LostSnoc(matrix, answers, money);
      hide FundedPaths, Entries, NoneLostDeriving;
    }
  }

  lemma LostSnoc(matrix: seq<PathEntry>, answers: seq<Answer>, money: Money)
    requires 0 < |answers| <= |matrix|
    ensures NoneLostDeriving(matrix, answers, money)
      <==> NoneLostDeriving(matrix, Front(answers), money)
           && (Gives(Last(answers)) || money(matrix[|answers| - 1]) <= 0)
  {
    hide Gives;
    assert forall i ::
      0 <= i < |answers| ==> answers[i] == if i < |answers| - 1 then Front(answers)[i] else Last(answers);
  }

  lemma {:induction false} LostLooking(seen: seq<Look>, money: Money)
    requires Truthful(seen, money)
    ensures var reached, funded := FundedPaths(Entries(Places(seen)), money), Entries(Places(FundedOnly(seen)));
      && |funded| <= |reached|
      && (NoneLostLooking(seen, money) ==> funded == reached)
      && (|funded| == |reached| ==> NoneLostLooking(seen, money))
  {
    if seen == [] {
      assert Places([]) == [] && Entries([]) == [];
    } else {
      var front, l := Front(seen), Last(seen);
      assert Truthful(front, money) by {
        assert forall i :: 0 <= i < |front| ==> front[i] == seen[i];
      }
      LostLooking(front, money);
      assert seen == front + [l];
      PlacesSnoc(front, l);
      EntriesSnoc(Places(front), l.at);
      FundedSnoc(Entries(Places(front)), l.at.entry, money);
      PlacesSnoc(FundedOnly(front), l);
      EntriesSnoc(Places(FundedOnly(front)), l.at);
      assert l == seen[|seen| - 1];
      BalanceIs(l.lookup);
      LookingSnoc(seen, money);
      hide FundedPaths, Entries, Places, NoneLostLooking, BalanceOf;
    }
  }

  lemma LookingSnoc(seen: seq<Look>, money: Money)
    requires seen != []
    ensures NoneLostLooking(seen, money)
      <==> NoneLostLooking(Front(seen), money) && (Last(seen).lookup.Answered? || money(Last(seen).at.entry) <= 0)
  {
    assert forall i :: 0 <= i < |seen| ==> seen[i] == if i < |seen| - 1 then Front(seen)[i] else Last(seen);
  }

  // Whatever money the paths hold, a finished scan whose answered lookups tell
  // the truth finds all of it exactly when no derivation that failed and no
  // lookup that failed was for a path with money.
  lemma DoneFindsAllIff(es: seq<Event>, money: Money)
    requires After(es).state == Done && Truthful(After(es).seen, money)
    ensures var s := After(es);
      |s.answers| == |s.matrix| &&
      (FoundAt(s.btc.findings) == FundedPaths(s.matrix, money)
       <==> NoneLostDeriving(s.matrix, s.answers, money) && NoneLostLooking(s.seen, money))
  {
    DoneReportsAll(es);
    var s := After(es);
    LostDeriving(s.matrix, s.answers, money);
    LostLooking(s.seen, money);
    FindingsAt(s.btc.findings, s.raw, FundedOnly(s.seen));
    hide After, FundedPaths, FundedOnly, Places, Entries, FoundAt, Reported, NoneLostDeriving, NoneLostLooking,
      Truthful, BalanceOf;
    assert s.matrix[..|s.answers|] == s.matrix;
  }

  lemma FindingsAt(findings: seq<Finding>, raw: seq<Raw>, funded: seq<Look>)
    requires Reported(findings, raw, funded)
    ensures FoundAt(findings) == Entries(Places(funded))
  {
    assert forall i :: 0 <= i < |funded| ==> Entered(findings[i], raw[i], funded[i]);
  }

  // ---- Two runs that miss ----

  lemma AfterSnoc(es: seq<Event>, e: Event)
    ensures After(es + [e]) == if Enabled(After(es), e) then Step(After(es), e) else After(es)
  {
    assert Front(es + [e]) == es && Last(es + [e]) == e;
  }

  lemma StartsDeriving(p: PathEntry)
    ensures Start(FRESH, Some([p]), true) == FRESH.(state := Scanning, matrix := [p], loop := Deriving(0))
  {
  }

  lemma Started(p: PathEntry)
    ensures After([Starts(Some([p]), true)]) == FRESH.(state := Scanning, matrix := [p], loop := Deriving(0))
  {
    var none: seq<Event>, e := [], Starts(Some([p]), true);
    assert After(none) == FRESH;
    AfterSnoc(none, e);
    StartsDeriving(p);
    hide After, Inv, Start;
    assert none + [e] == [e];
  }

  // One path, whose derivation throws: done, not partial, nothing looked at.
  lemma DoneCanMissAPath(p: PathEntry)
    ensures var s := After([Starts(Some([p]), true), Derives(Threw, true)]);
      s.state == Done && !s.btc.partial && s.matrix == [p] && s.seen == []
  {
    var first := [Starts(Some([p]), true)];
    Started(p);
    AfterSnoc(first, Derives(Threw, true));
    assert first + [Derives(Threw, true)] == [Starts(Some([p]), true), Derives(Threw, true)];
  }

  // One path that gives an address, whose lookup fails: done, not partial, with
  // no finding, whatever the address holds.
  lemma DoneCanMissALookup(p: PathEntry, address: string)
    requires address != ""
    ensures var s := After([Starts(Some([p]), true), Derives(Address(address), true), Balances([Unanswered], true)]);
      && s.state == Done && !s.btc.partial && s.btc.findings == []
      && s.matrix == [p] && s.answers == [Address(address)] && s.seen == [Look(Derived(p, address), Unanswered, None)]
  {
    var first := [Starts(Some([p]), true)];
    var e, f := Derives(Address(address), true), Balances([Unanswered], true);
    AfterSnoc(first, e);
    AfterSnoc(first + [e], f);
    assert first + [e] + [f] == [Starts(Some([p]), true), e, f];
    Started(p);
    hide After, Inv;
    OneDerived(After(first), p, address);
    OneFailed(After(first + [e]), p, address);
  }

  lemma OneDerived(s: Scan, p: PathEntry, address: string)
    requires s == FRESH.(state := Scanning, matrix := [p], loop := Deriving(0)) && address != ""
    ensures Derive(s, Address(address), true)
      == s.(answers := [Address(address)], derived := [Derived(p, address)], loop := Checking(0))
  {
    assert [] + [Address(address)] == [Address(address)];
    assert [] + [Derived(p, address)] == [Derived(p, address)];
  }

  lemma OneFailed(s: Scan, p: PathEntry, address: string)
    requires s.loop == Checking(0) && s.derived == [Derived(p, address)] && s.seen == []
    ensures Enabled(s, Balances([Unanswered], true))
    ensures Balance(s, [Unanswered], true)
      == s.(seen := [Look(Derived(p, address), Unanswered, None)], state := Done, loop := NoLoop)
  {
    var c := Checked(Derived(p, address), Unanswered);
    assert Batch(s.derived, 0) == [Derived(p, address)];
    assert Zip(Batch(s.derived, 0), [Unanswered]) == [c];
    assert BalanceOf(Unanswered) == 0;
    assert Skip(s, c).seen == [Look(Derived(p, address), Unanswered, None)];
    assert NextResult(s, 0, [c], 0, true) == NextResult(Skip(s, c), 0, [c], 1, true);
  }
}
