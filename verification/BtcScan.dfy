// The lazy Bitcoin scan of an audit: derive every path, check balances in
// batches, fetch the coins of what is found. Each await ends a step.
module BtcScan {
  import opened Basics

  const MAX_CONSECUTIVE_FAILURES: nat := 5
  const BATCH: nat := 5

  datatype Category = HigherAccount | OtherCategory
  datatype PathEntry = PathEntry(path: string, scriptType: string, category: Category, accountIndex: Option<int>)
  datatype Derived = Derived(entry: PathEntry, address: string)
  datatype Utxo = Utxo(id: nat, value: int)

  // What the backend makes of asking for an address's coins.
  datatype Lookup = Answered(utxos: seq<Utxo>) | Unanswered

  datatype Finding = Finding(at: Derived, balanceSats: int, utxoCount: nat)
  datatype Raw = Raw(at: Derived, balanceSats: int, utxos: seq<Utxo>)
  datatype Btc = Btc(findings: seq<Finding>, totalFoundSats: int, higherAccountMax: int, partial: bool)

  datatype ScanState = Idle | Scanning | Done | Broken

  // What the loop is waiting for: the address of a path, the balances of a
  // batch, or the coins of one result of the batch.
  datatype Loop =
    | NoLoop
    | Deriving(failures: nat)
    | Checking(at: nat)
    | Fetching(at: nat, results: seq<Checked>, k: nat)

  // One result of a batch; the code keeps only its balance.
  datatype Checked = Checked(at: Derived, lookup: Lookup)
  datatype Answer = Address(address: string) | Threw

  // One path dealt with: what its lookup came to and, if there was money, what
  // the second one did.
  datatype Look = Look(at: Derived, lookup: Lookup, again: Option<Lookup>)

  // answers and seen record this attempt's derivations and the results it has
  // dealt with.
  datatype Scan = Scan(
    state: ScanState, btc: Btc, raw: seq<Raw>, matrix: seq<PathEntry>, derived: seq<Derived>, loop: Loop,
    answers: seq<Answer>, seen: seq<Look>)

  const NOTHING: Btc := Btc([], 0, 0, false)
  const FRESH: Scan := Scan(Idle, NOTHING, [], [], [], NoLoop, [], [])

  // fetchUtxos catches whatever the backend throws and answers with no coins.
  function FetchUtxos(l: Lookup): seq<Utxo> {
    if l.Answered? then l.utxos else []
  }

  function Value(utxos: seq<Utxo>): int {
    if utxos == [] then 0 else Value(Front(utxos)) + Last(utxos).value
  }

  function BalanceOf(l: Lookup): int {
    Value(FetchUtxos(l))
  }

  function Fail(s: Scan): Scan {
    s.(state := Broken, btc := s.btc.(partial := true), loop := NoLoop)
  }

  function Batch(derived: seq<Derived>, at: nat): seq<Derived> {
    if at >= |derived| then [] else derived[at..if at + BATCH < |derived| then at + BATCH else |derived|]
  }

  function NextBatch(s: Scan, at: nat, live: bool): Scan {
    if at >= |s.derived| then s.(state := Done, loop := NoLoop)
    else if !live then Fail(s)
    else s.(loop := Checking(at))
  }

  function NextDerive(s: Scan, failures: nat, live: bool): Scan {
    if |s.answers| >= |s.matrix| then NextBatch(s, 0, live)
    else if !live then Fail(s)
    else s.(loop := Deriving(failures))
  }

  function Higher(at: Derived): Option<int> {
    if at.entry.category == HigherAccount then at.entry.accountIndex else None
  }

  function Max(a: int, b: int): int {
    if a < b then b else a
  }

  // Enter a funded address, with what the second lookup came to.
  function Account(s: Scan, c: Checked, again: Lookup): Scan {
    var higher, balance, utxos := Higher(c.at), BalanceOf(c.lookup), FetchUtxos(again);
    s.(raw := s.raw + [Raw(c.at, balance, utxos)],
       btc := s.btc.(
         findings := s.btc.findings + [Finding(c.at, balance, |utxos|)],
         totalFoundSats := s.btc.totalFoundSats + balance,
         higherAccountMax := if higher.Some? then Max(s.btc.higherAccountMax, higher.value)
           else s.btc.higherAccountMax),
       seen := s.seen + [Look(c.at, c.lookup, Some(again))])
  }

  function Skip(s: Scan, c: Checked): Scan {
    s.(seen := s.seen + [Look(c.at, c.lookup, None)])
  }

  // Deal with the results of a batch from the k-th on, up to the next await.
  function NextResult(s: Scan, at: nat, results: seq<Checked>, k: nat, live: bool): Scan
    decreases |results| - k
  {
    if k >= |results| then NextBatch(s, at + BATCH, live)
    else if BalanceOf(results[k].lookup) > 0 then s.(loop := Fetching(at, results, k))
    else NextResult(Skip(s, results[k]), at, results, k + 1, live)
  }

  function Zip(batch: seq<Derived>, lookups: seq<Lookup>): (r: seq<Checked>)
    requires |batch| == |lookups|
    ensures |r| == |batch| && forall i :: 0 <= i < |r| ==> r[i] == Checked(batch[i], lookups[i])
  {
    seq(|batch|, i requires 0 <= i < |batch| => Checked(batch[i], lookups[i]))
  }

  // live: the wallet handle is the captured one and the audit is not stale, as
  // checked in that step. None stands for a call that throws; a coin lookup never
  // does.
  datatype Event =
    | Starts(matrix: Option<seq<PathEntry>>, live: bool)
    | Derives(answer: Answer, live: bool)
    | Balances(lookups: seq<Lookup>, live: bool)
    | Coins(again: Lookup, live: bool)

  predicate Enabled(s: Scan, e: Event) {
    match e
    case Starts(_, _) => true
    case Derives(_, _) => s.loop.Deriving? && |s.answers| < |s.matrix|
    case Balances(lookups, _) => s.loop.Checking? && |lookups| == |Batch(s.derived, s.loop.at)|
    case Coins(_, _) => s.loop.Fetching? && s.loop.k < |s.loop.results|
  }

  function Start(s: Scan, matrix: Option<seq<PathEntry>>, live: bool): Scan {
    if s.state == Scanning || s.state == Done then s
    else
      var t := Scan(Scanning, NOTHING, [], [], [], NoLoop, [], []);
      if matrix.None? then Fail(t) else NextDerive(t.(matrix := matrix.value), 0, live)
  }

  function Derive(s: Scan, answer: Answer, live: bool): Scan
    requires s.loop.Deriving? && |s.answers| < |s.matrix|
  {
    var t := s.(answers := s.answers + [answer]);
    match answer
    case Address(address) =>
      NextDerive(if address == "" then t
        else t.(derived := t.derived + [Derived(s.matrix[|s.answers|], address)]), 0, live)
    case Threw =>
      if s.loop.failures + 1 >= MAX_CONSECUTIVE_FAILURES then Fail(t) else NextDerive(t, s.loop.failures + 1, live)
  }

  function Balance(s: Scan, lookups: seq<Lookup>, live: bool): Scan
    requires s.loop.Checking? && |lookups| == |Batch(s.derived, s.loop.at)|
  {
    NextResult(s, s.loop.at, Zip(Batch(s.derived, s.loop.at), lookups), 0, live)
  }

  function Coin(s: Scan, again: Lookup, live: bool): Scan
    requires s.loop.Fetching? && s.loop.k < |s.loop.results|
  {
    NextResult(Account(s, s.loop.results[s.loop.k], again), s.loop.at, s.loop.results, s.loop.k + 1, live)
  }

  function Step(s: Scan, e: Event): Scan
    requires Enabled(s, e)
  {
    match e
    case Starts(matrix, live) => Start(s, matrix, live)
    case Derives(answer, live) => Derive(s, answer, live)
    case Balances(lookups, live) => Balance(s, lookups, live)
    case Coins(again, live) => Coin(s, again, live)
  }

  // ---- The accounts a scan must keep ----

  function Sum(findings: seq<Finding>): int {
    if findings == [] then 0 else Sum(Front(findings)) + Last(findings).balanceSats
  }

  // The highest account among the higher-account findings, or zero.
  function HighestAccount(findings: seq<Finding>): int {
    if findings == [] then 0
    else
      var before, higher := HighestAccount(Front(findings)), Higher(Last(findings).at);
      if higher.Some? then Max(before, higher.value) else before
  }

  // The looks whose lookup was answered with money.
  function FundedOnly(seen: seq<Look>): seq<Look> {
    if seen == [] then []
    else FundedOnly(Front(seen)) + if BalanceOf(Last(seen).lookup) > 0 then [Last(seen)] else []
  }

  function Places(seen: seq<Look>): (r: seq<Derived>)
    ensures |r| == |seen| && forall i :: 0 <= i < |r| ==> r[i] == seen[i].at
  {
    seq(|seen|, i requires 0 <= i < |seen| => seen[i].at)
  }

  function Targets(results: seq<Checked>): (r: seq<Derived>)
    ensures |r| == |results| && forall i :: 0 <= i < |r| ==> r[i] == results[i].at
  {
    seq(|results|, i requires 0 <= i < |results| => results[i].at)
  }

  // The derivations that gave an address, in the order of the paths.
  function Successes(matrix: seq<PathEntry>, answers: seq<Answer>): seq<Derived>
    requires |answers| <= |matrix|
  {
    if answers == [] then []
    else
      var before, a := Successes(matrix, Front(answers)), Last(answers);
      if a.Address? && a.address != "" then before + [Derived(matrix[|answers| - 1], a.address)] else before
  }

  // How many of the last derivations threw, one after the other.
  function TrailingThrows(answers: seq<Answer>): nat {
    if answers == [] || Last(answers).Address? then 0 else 1 + TrailingThrows(Front(answers))
  }

  // A finding and its raw result are what the two lookups came to.
  ghost predicate Entered(f: Finding, r: Raw, l: Look) {
    && l.lookup.Answered? && l.again.Some?
    && f.at == r.at == l.at && f.balanceSats == r.balanceSats == Value(l.lookup.utxos)
    && r.utxos == (if l.again.value.Answered? then l.again.value.utxos else []) && f.utxoCount == |r.utxos|
  }

  ghost predicate Reported(findings: seq<Finding>, raw: seq<Raw>, funded: seq<Look>) {
    |findings| == |raw| == |funded| && forall i :: 0 <= i < |funded| ==> Entered(findings[i], raw[i], funded[i])
  }

  // The report is the account of what was seen.
  ghost predicate Balanced(s: Scan) {
    && s.btc.totalFoundSats == Sum(s.btc.findings)
    && s.btc.higherAccountMax == HighestAccount(s.btc.findings)
    && Reported(s.btc.findings, s.raw, FundedOnly(s.seen))
  }

  // How far the attempt has come.
  ghost predicate OnCourse(s: Scan) {
    && |s.answers| <= |s.matrix| && s.derived == Successes(s.matrix, s.answers) && Places(s.seen) <= s.derived
    && match s.loop
      case NoLoop => s.state == Done ==> |s.answers| == |s.matrix| && Places(s.seen) == s.derived
      case Deriving(failures) =>
        |s.answers| < |s.matrix| && s.seen == [] && failures == TrailingThrows(s.answers) < MAX_CONSECUTIVE_FAILURES
      case Checking(at) => |s.answers| == |s.matrix| && at < |s.derived| && Places(s.seen) == s.derived[..at]
      case Fetching(at, results, k) =>
        && |s.answers| == |s.matrix| && at < |s.derived| && Targets(results) == Batch(s.derived, at)
        && k < |results| && BalanceOf(results[k].lookup) > 0 && Places(s.seen) == s.derived[..at + k]
  }

  // One loop while scanning and none otherwise; and only a broken scan is partial.
  ghost predicate Inv(s: Scan) {
    && (s.state == Scanning <==> s.loop != NoLoop)
    && (s.btc.partial <==> s.state == Broken)
    && Balanced(s) && OnCourse(s)
  }
}
