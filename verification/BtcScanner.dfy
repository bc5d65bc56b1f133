// The scan as it changes an audit's report in place: each method is one stretch
// of the worker between two awaits.
module BtcScanner {
  import opened Basics
  import opened BtcScan
  import opened BtcScanSafety

  lemma FetchingPlace(s: Scan)
    requires Inv(s) && s.loop.Fetching?
    ensures s.loop.k < |s.loop.results|
  {
  }

  class Scanner {
    var state: ScanState
    var btc: Btc
    var raw: seq<Raw>
    var matrix: seq<PathEntry>
    var derived: seq<Derived>
    var loop: Loop
    // How many paths the derivation loop is past.
    var index: nat
    ghost var answers: seq<Answer>
    ghost var seen: seq<Look>

    ghost function View(): Scan
      reads this
    {
      Scan(state, btc, raw, matrix, derived, loop, answers, seen)
    }

    ghost predicate Valid()
      reads this
    {
      Inv(View()) && index == |answers|
    }

    constructor ()
      ensures View() == FRESH && Valid()
    {
      state, btc, raw, matrix, derived, loop, index := Idle, NOTHING, [], [], [], NoLoop, 0;
      answers, seen := [], [];
    }

    method GiveUp()
      modifies `state, `btc, `loop
      ensures View() == Fail(old(View()))
    {
      btc := btc.(partial := true);
      state := Broken;
      loop := NoLoop;
    }

    method GoToBatch(at: nat, live: bool)
      modifies `state, `btc, `loop
      ensures View() == NextBatch(old(View()), at, live)
    {
      if at >= |derived| {
        state := Done;
        loop := NoLoop;
      } else if !live {
        GiveUp();
      } else {
        loop := Checking(at);
      }
    }

    method GoToDerive(failures: nat, live: bool)
      requires index == |answers|
      modifies `state, `btc, `loop
      ensures View() == NextDerive(old(View()), failures, live)
    {
      if index >= |matrix| {
        GoToBatch(0, live);
      } else if !live {
        GiveUp();
      } else {
        loop := Deriving(failures);
      }
    }

    method GoToResult(at: nat, results: seq<Checked>, first: nat, live: bool)
      requires first <= |results|
      modifies `state, `btc, `loop, `seen
      ensures View() == NextResult(old(View()), at, results, first, live)
    {
      var k := first;
      while k < |results|
        invariant k <= |results|
        invariant NextResult(View(), at, results, k, live) == NextResult(old(View()), at, results, first, live)
        invariant state == old(state) && btc == old(btc) && loop == old(loop)
      {
        if BalanceOf(results[k].lookup) > 0 {
          loop := Fetching(at, results, k);
          return;
        }
        seen := seen + [Look(results[k].at, results[k].lookup, None)];
        k := k + 1;
      }
      GoToBatch(at + BATCH, live);
    }

    // Add a funded address to the report and to the raw results.
    method Record(r: Checked, again: Lookup)
      modifies `btc, `raw, `seen
      ensures View() == Account(old(View()), r, again)
    {
      var balanceSats, utxos := BalanceOf(r.lookup), FetchUtxos(again);
      raw := raw + [Raw(r.at, balanceSats, utxos)];
      var highest := btc.higherAccountMax;
      if r.at.entry.category == HigherAccount && r.at.entry.accountIndex.Some? {
        highest := Max(highest, r.at.entry.accountIndex.value);
      }
      btc := btc.(findings := btc.findings + [Finding(r.at, balanceSats, |utxos|)],
                  totalFoundSats := btc.totalFoundSats + balanceSats, higherAccountMax := highest);
      seen := seen + [Look(r.at, r.lookup, Some(again))];
    }

    method Reset()
      modifies this
      ensures View() == Scan(Scanning, NOTHING, [], [], [], NoLoop, [], []) && index == 0
    {
      raw, btc, state := [], NOTHING, Scanning;
      matrix, derived, loop, index := [], [], NoLoop, 0;
      answers, seen := [], [];
    }

    // generated is None when generating the paths throws.
    method StartBtcScan(generated: Option<seq<PathEntry>>, live: bool)
      requires Valid()
      modifies this
      ensures View() == Start(old(View()), generated, live) && Valid()
    {
      StartKeeps(View(), generated, live);
      hide Inv, NextDerive, Fail;
      if state == Scanning || state == Done {
        return;
      }
      Reset();
      if generated.None? {
        GiveUp();
        return;
      }
      matrix := generated.value;
      GoToDerive(0, live);
    }

    method OnAddress(answer: Answer, live: bool)
      requires Valid() && loop.Deriving? && index < |matrix|
      modifies this
      ensures View() == Derive(old(View()), answer, live) && Valid()
    {
      DeriveKeeps(View(), answer, live);
      hide Inv, NextDerive, Fail;
      var failures := loop.failures;
      var entry := matrix[index];
      answers := answers + [answer];
      index := index + 1;
      match answer
      case Address(address) =>
        if address != "" {
          derived := derived + [Derived(entry, address)];
        }
        GoToDerive(0, live);
      case Threw =>
        failures := failures + 1;
        if failures >= MAX_CONSECUTIVE_FAILURES {
          GiveUp();
          return;
        }
        GoToDerive(failures, live);
    }

    method OnBalances(lookups: seq<Lookup>, live: bool)
      requires Valid() && loop.Checking? && |lookups| == |Batch(derived, loop.at)|
      modifies this
      ensures View() == Balance(old(View()), lookups, live) && Valid()
    {
      BalanceKeeps(View(), lookups, live);
      hide Inv, NextResult, Fail, Batch, Zip;
      var at := loop.at;
      GoToResult(at, Zip(Batch(derived, at), lookups), 0, live);
    }

    // Enter the k-th result of a batch and go on with the next.
    method Enter(at: nat, results: seq<Checked>, k: nat, again: Lookup, live: bool)
      requires k < |results|
      modifies `state, `btc, `raw, `loop, `seen
      ensures View() == NextResult(Account(old(View()), results[k], again), at, results, k + 1, live)
    {
      hide NextResult, Account;
      Record(results[k], again);
      GoToResult(at, results, k + 1, live);
    }

    method OnCoins(again: Lookup, live: bool)
      requires Valid() && loop.Fetching?
      modifies this
      ensures View() == Coin(old(View()), again, live) && Valid()
    {
      hide Inv, NextResult, Account, Sum, HighestAccount, FundedOnly, Successes, Batch, Value, BalanceOf, FetchUtxos;
      FetchingPlace(View());
      CoinKeeps(View(), again, live);
      Enter(loop.at, loop.results, loop.k, again, live);
    }
  }
}
