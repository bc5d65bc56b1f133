// When a scan goes on, when it gives up and when it is done: the wallet guard and
// the limit on failed derivations.
module BtcScanGuard {
  import opened Basics
  import opened BtcScan
  import opened BtcScanSafety

  ghost predicate Funded(lookups: seq<Lookup>) {
    exists i :: 0 <= i < |lookups| && BalanceOf(lookups[i]) > 0
  }

  function LookupsOf(results: seq<Checked>): (r: seq<Lookup>)
    ensures |r| == |results| && forall i :: 0 <= i < |r| ==> r[i] == results[i].lookup
  {
    seq(|results|, i requires 0 <= i < |results| => results[i].lookup)
  }

  // Once the event is dealt with, another path is to be derived or another batch
  // looked up; a funded address of the batch comes first.
  ghost predicate Left(s: Scan, e: Event)
    requires Enabled(s, e) && !e.Starts?
  {
    match e
    case Derives(answer, _) => |s.answers| + 1 < |s.matrix| || s.derived != [] || Gives(answer)
    case Balances(lookups, _) => !Funded(lookups) && s.loop.at + 5 < |s.derived|
    case Coins(_, _) => !Funded(LookupsOf(s.loop.results)[s.loop.k + 1..]) && s.loop.at + 5 < |s.derived|
  }

  // A funded address of the batch is to be asked about again.
  ghost predicate Refetches(s: Scan, e: Event)
    requires Enabled(s, e) && !e.Starts?
  {
    match e
    case Derives(_, _) => false
    case Balances(lookups, _) => Funded(lookups)
    case Coins(_, _) => Funded(LookupsOf(s.loop.results)[s.loop.k + 1..])
  }

  // The last five derivations threw.
  ghost predicate FiveThrew(s: Scan, e: Event) {
    && e.Derives? && e.answer.Threw? && |s.answers| >= 4
    && forall i :: |s.answers| - 4 <= i < |s.answers| ==> s.answers[i].Threw?
  }

  lemma {:induction false} TrailingIff(answers: seq<Answer>, n: nat)
    ensures TrailingThrows(answers) >= n
      <==> |answers| >= n && forall i :: |answers| - n <= i < |answers| ==> answers[i].Threw?
  {
    if answers != [] && Last(answers).Threw? && n > 0 {
      TrailingIff(Front(answers), n - 1);
      assert forall i ::
        0 <= i < |answers| ==> answers[i] == if i < |answers| - 1 then Front(answers)[i] else Last(answers);
    } else if answers != [] && n > 0 {
      assert answers[|answers| - 1] == Last(answers);
    }
  }

  lemma {:induction false} NextResultIs(s: Scan, at: nat, results: seq<Checked>, k: nat, live: bool)
    requires s.state == Scanning && k <= |results|
    ensures var t := NextResult(s, at, results, k, live);
      && (Funded(LookupsOf(results)[k..]) ==>
            t.state == Scanning && t.loop.Fetching? && t.loop.at == at && t.loop.results == results
            && k <= t.loop.k < |results| && BalanceOf(results[t.loop.k].lookup) > 0
            && forall i :: k <= i < t.loop.k ==> BalanceOf(results[i].lookup) <= 0)
      && (!Funded(LookupsOf(results)[k..]) ==>
            t.state == (if at + 5 >= |s.derived| then Done else if live then Scanning else Broken)
            && t.loop == (if at + 5 < |s.derived| && live then Checking(at + 5) else NoLoop))
    decreases |results| - k
  {
    hide BalanceOf;
    var rest := LookupsOf(results)[k..];
    if k < |results| {
      assert rest[0] == results[k].lookup;
      var more := LookupsOf(results)[k + 1..];
      assert forall i :: 0 <= i < |more| ==> more[i] == rest[i + 1];
      if BalanceOf(results[k].lookup) <= 0 {
        NextResultIs(Skip(s, results[k]), at, results, k + 1, live);
        if i :| 0 <= i < |rest| && BalanceOf(rest[i]) > 0 {
          assert more[i - 1] == rest[i];
        }
      }
    }
  }

  // Result i of the batch is what the lookup of its i-th address came to, and the
  // results before k are seen with it.
  ghost predicate Paired(batch: seq<Derived>, lookups: seq<Lookup>, before: seq<Look>, t: Scan) {
    && |lookups| == |batch| && before <= t.seen && |t.seen| <= |before| + |batch|
    && (forall i :: |before| <= i < |t.seen| ==>
          t.seen[i] == Look(batch[i - |before|], lookups[i - |before|], None))
    && (t.loop.Fetching? ==>
          && |t.seen| == |before| + t.loop.k && |t.loop.results| == |batch|
          && forall i :: 0 <= i < |batch| ==> t.loop.results[i] == Checked(batch[i], lookups[i]))
    && (!t.loop.Fetching? ==> |t.seen| == |before| + |batch|)
  }

  lemma {:induction false} NextResultSees(s: Scan, at: nat, results: seq<Checked>, k: nat, live: bool)
    requires k <= |results| && !s.loop.Fetching?
    ensures var t := NextResult(s, at, results, k, live);
      && s.seen <= t.seen && |t.seen| <= |s.seen| + |results| - k
      && (forall i :: |s.seen| <= i < |t.seen| ==>
            var c := results[k + i - |s.seen|]; t.seen[i] == Look(c.at, c.lookup, None))
      && (t.loop.Fetching? ==> t.loop.results == results && k <= t.loop.k && |t.seen| == |s.seen| + t.loop.k - k)
      && (!t.loop.Fetching? ==> |t.seen| == |s.seen| + |results| - k)
    decreases |results| - k
  {
    hide BalanceOf;
    if k < |results| && BalanceOf(results[k].lookup) <= 0 {
      NextResultSees(Skip(s, results[k]), at, results, k + 1, live);
    }
  }

  // Each address of the batch at hand gets the lookup that was made for it.
  lemma BalancesPaired(s: Scan, lookups: seq<Lookup>, live: bool)
    requires Inv(s) && Enabled(s, Balances(lookups, live))
    ensures Paired(Batch(s.derived, s.loop.at), lookups, s.seen, Balance(s, lookups, live))
  {
    hide Inv, NextResult, Batch;
    NextResultSees(s, s.loop.at, Zip(Batch(s.derived, s.loop.at), lookups), 0, live);
  }

  // The funded address asked about again gets that second lookup.
  lemma CoinsPaired(s: Scan, again: Lookup, live: bool)
    requires Inv(s) && Enabled(s, Coins(again, live))
    ensures var t, c := Coin(s, again, live), s.loop.results[s.loop.k];
      s.seen + [Look(c.at, c.lookup, Some(again))] <= t.seen
  {
    hide Inv, NextResult, BalanceOf, FetchUtxos;
    var u := Account(s, s.loop.results[s.loop.k], again).(loop := NoLoop);
    SeenSame(Account(s, s.loop.results[s.loop.k], again), u, s.loop.at, s.loop.results, s.loop.k + 1, live);
    NextResultSees(u, s.loop.at, s.loop.results, s.loop.k + 1, live);
  }

  lemma {:induction false} SeenSame(s: Scan, u: Scan, at: nat, results: seq<Checked>, k: nat, live: bool)
    requires u == s.(loop := NoLoop)
    ensures NextResult(s, at, results, k, live).seen == NextResult(u, at, results, k, live).seen
    decreases |results| - k
  {
    hide BalanceOf;
    if k < |results| && BalanceOf(results[k].lookup) <= 0 {
      SeenSame(Skip(s, results[k]), Skip(u, results[k]), at, results, k + 1, live);
    }
  }

  // What an event brings the scan to: it gives up when the wallet is not the one
  // it was started on and something is left to start, or when five derivations in
  // a row have thrown; it is done when nothing is left; and else it waits for
  // what is next.
  lemma StepOutcome(s: Scan, e: Event)
    requires Inv(s) && Enabled(s, e) && !e.Starts?
    ensures var t := Step(s, e);
      && (t.state == Broken <==> FiveThrew(s, e) || (!e.live && Left(s, e)))
      && (t.state == Done <==> !FiveThrew(s, e) && !Left(s, e) && !Refetches(s, e))
      && (t.btc.partial <==> t.state == Broken)
      && (t.loop.Deriving? <==> e.Derives? && |s.answers| + 1 < |s.matrix| && e.live && !FiveThrew(s, e))
      && (t.loop.Fetching? <==> Refetches(s, e))
  {
    match e
    case Derives(answer, live) => DeriveOutcome(s, answer, live);
    case Balances(lookups, live) => BalanceOutcome(s, lookups, live);
    case Coins(again, live) => CoinOutcome(s, again, live);
  }

  lemma DeriveOutcome(s: Scan, answer: Answer, live: bool)
    requires Inv(s) && Enabled(s, Derives(answer, live))
    ensures var e, t := Derives(answer, live), Derive(s, answer, live);
      && (t.state == Broken <==> FiveThrew(s, e) || (!live && Left(s, e)))
      && (t.state == Done <==> !FiveThrew(s, e) && !Left(s, e))
      && (t.btc.partial <==> t.state == Broken) && !t.loop.Fetching?
      && (t.loop.Deriving? <==> |s.answers| + 1 < |s.matrix| && live && !FiveThrew(s, e))
  {
    hide Balanced, Successes, Places, Batch;
    TrailingIff(s.answers, 4);
    hide TrailingThrows;
  }

  lemma BalanceOutcome(s: Scan, lookups: seq<Lookup>, live: bool)
    requires Inv(s) && Enabled(s, Balances(lookups, live))
    ensures var e, t := Balances(lookups, live), Balance(s, lookups, live);
      && (t.state == Broken <==> !live && Left(s, e))
      && (t.state == Done <==> !Left(s, e) && !Refetches(s, e))
      && (t.btc.partial <==> t.state == Broken)
      && !t.loop.Deriving? && (t.loop.Fetching? <==> Refetches(s, e))
  {
    var results := Zip(Batch(s.derived, s.loop.at), lookups);
    assert LookupsOf(results)[0..] == lookups;
    BalanceKeeps(s, lookups, live);
    hide Balanced, Successes, Places, Batch, Zip, Funded, NextResult;
    NextResultIs(s, s.loop.at, results, 0, live);
  }

  lemma CoinOutcome(s: Scan, again: Lookup, live: bool)
    requires Inv(s) && Enabled(s, Coins(again, live))
    ensures var e, t := Coins(again, live), Coin(s, again, live);
      && (t.state == Broken <==> !live && Left(s, e))
      && (t.state == Done <==> !Left(s, e) && !Refetches(s, e))
      && (t.btc.partial <==> t.state == Broken)
      && !t.loop.Deriving? && (t.loop.Fetching? <==> Refetches(s, e))
  {
    hide Inv, Funded, NextResult, Account, BalanceOf, Value;
    CoinKeeps(s, again, live);
    FetchingScans(s);
    PartialIff(Coin(s, again, live));
    AccountFrame(s, s.loop.results[s.loop.k], again);
    NextResultIs(Account(s, s.loop.results[s.loop.k], again), s.loop.at, s.loop.results, s.loop.k + 1, live);
  }

  lemma FetchingScans(s: Scan)
    requires Inv(s) && s.loop.Fetching?
    ensures s.state == Scanning && s.loop.k < |s.loop.results|
  {
  }

  lemma PartialIff(s: Scan)
    requires Inv(s)
    ensures s.btc.partial <==> s.state == Broken
  {
  }

  lemma AccountFrame(s: Scan, c: Checked, again: Lookup)
    ensures Account(s, c, again).state == s.state && Account(s, c, again).derived == s.derived
  {
  }

  // A start while scanning or done changes nothing; any other begins anew, with
  // empty accounts, and gives up at once if its paths cannot be made or the
  // wallet is another.
  lemma StartOutcome(s: Scan, matrix: Option<seq<PathEntry>>, live: bool)
    ensures var t := Start(s, matrix, live);
      if s.state == Scanning || s.state == Done then t == s
      else
        && t.raw == [] && t.seen == [] && t.answers == [] && t.derived == []
        && t.btc == Btc([], 0, 0, t.state == Broken)
        && (t.state == Broken <==> matrix.None? || (matrix.value != [] && !live))
        && (t.state == Done <==> matrix == Some([]))
        && (t.state == Scanning ==> t.loop == Deriving(0) && t.matrix == matrix.value)
  {
  }

  // ---- Over runs ----

  // Step i of the run is dealt with while the wallet is another one, and leaves
  // something to start.
  ghost predicate GuardTrips(es: seq<Event>, i: nat)
    requires i < |es|
  {
    var s, e := After(es[..i]), es[i];
    && Enabled(s, e) && !e.live
    && if e.Starts? then s.state != Scanning && s.state != Done && e.matrix.Some?
      && e.matrix.value != [] else Left(s, e)
  }

  lemma TripBreaks(es: seq<Event>, i: nat)
    requires i < |es| && GuardTrips(es, i)
    ensures After(es[..i + 1]).state == Broken && After(es[..i + 1]).btc.partial
  {
    hide Step, Left, Inv;
    var s, e := After(es[..i]), es[i];
    assert Front(es[..i + 1]) == es[..i] && Last(es[..i + 1]) == e;
    if e.Starts? {
      StepIsStart(s, e);
      StartOutcome(s, e.matrix, e.live);
    } else {
      StepOutcome(s, e);
    }
  }

  lemma StepIsStart(s: Scan, e: Event)
    requires e.Starts?
    ensures Enabled(s, e) && Step(s, e) == Start(s, e.matrix, e.live)
  {
  }

  lemma BrokenWaits(s: Scan, e: Event)
    requires Inv(s) && s.state == Broken && !e.Starts?
    ensures !Enabled(s, e)
  {
  }

  // A scan that has given up stays so, with its partial mark, until it is started
  // again.
  lemma {:induction false} BrokenStays(es: seq<Event>, i: nat)
    requires i <= |es| && After(es[..i]).state == Broken
    requires forall j :: i <= j < |es| ==> !es[j].Starts?
    ensures After(es).state == Broken && After(es).btc.partial
    decreases |es|
  {
    hide Step, Inv, Enabled;
    if i == |es| {
      PartialIff(After(es));
      assert es[..i] == es;
    } else {
      assert Front(es)[..i] == es[..i];
      BrokenStays(Front(es), i);
      BrokenWaits(After(Front(es)), Last(es));
    }
  }

  // When the wallet turns out to be another with something left to start, the
  // scan ends partial; so if it is done, it was started again since.
  lemma DoneWasGuarded(es: seq<Event>, i: nat)
    requires i < |es| && GuardTrips(es, i)
    ensures (forall j :: i < j < |es| ==> !es[j].Starts?) ==> After(es).state == Broken && After(es).btc.partial
    ensures After(es).state == Done ==> exists j :: i < j < |es| && es[j].Starts?
  {
    TripBreaks(es, i);
    if forall j :: i < j < |es| ==> !es[j].Starts? {
      BrokenStays(es, i + 1);
    }
  }
}
