// The Bitcoin account manager as a protocol: account fetches that take several
// awaits each, running beside resets, initializations and balance updates.
module BtcAccounts {
  import opened Basics

  datatype ScriptType = P2pkh | P2shP2wpkh | P2wpkh | P2tr

  datatype Xpub = Xpub(scriptType: ScriptType, path: seq<int>, xpub: string, balance: string, balanceUsd: real)
  datatype Account = Account(index: nat, xpubs: seq<Xpub>, totalUsd: real)

  datatype FetchId = FetchId(n: nat)

  // What a fetch is waiting for: whether the firmware does Taproot, the three
  // established keys, or the Taproot key.
  datatype Stage = Capability | RequiredKeys(taproot: bool) | OptionalKey(keys: seq<string>)
  datatype Fetch = Fetch(index: nat, stage: Stage, isInit: bool)

  datatype Selected = Selected(index: int, scriptType: ScriptType)
  datatype State = State(accounts: seq<Account>, selected: Selected, init: Option<FetchId>,
      fetches: map<FetchId, Fetch>)

  const REQUIRED: seq<ScriptType> := [P2pkh, P2shP2wpkh, P2wpkh]
  const DEFAULT: Selected := Selected(0, P2wpkh)
  const EMPTY: State := State([], DEFAULT, None, map[])

  function Purpose(t: ScriptType): int {
    match t
    case P2pkh => 44
    case P2shP2wpkh => 49
    case P2wpkh => 84
    case P2tr => 86
  }

  function AccountPath(t: ScriptType, index: nat): seq<int> {
    [Purpose(t) + 0x8000_0000, 0x8000_0000, index + 0x8000_0000]
  }

  predicate HasIndex(accounts: seq<Account>, index: nat) {
    exists i :: 0 <= i < |accounts| && accounts[i].index == index
  }

  function NewXpub(t: ScriptType, index: nat, key: string): Xpub {
    Xpub(t, AccountPath(t, index), key, "0", 0.0)
  }

  function NewAccount(index: nat, keys: seq<string>, taproot: string): Account
    requires |keys| == 3
  {
    Account(index,
      [NewXpub(P2pkh, index, keys[0]), NewXpub(P2shP2wpkh, index, keys[1]), NewXpub(P2wpkh, index, keys[2])]
      + if taproot == "" then [] else [NewXpub(P2tr, index, taproot)],
      0.0)
  }

  // ---- Events ----

  // A key the device did not give is empty; None stands for a call that throws.
  datatype Event =
    | Initializes(id: FetchId)
    | Adds(id: FetchId)
    | Capable(id: FetchId, taproot: bool)
    | Required(id: FetchId, keys: Option<seq<string>>)
    | Optional(id: FetchId, key: string)
    | Updates(xpub: string, balance: string, usd: real)
    | Selects(index: int, scriptType: ScriptType)
    | Resets

  predicate Enabled(s: State, e: Event) {
    match e
    case Initializes(id) => id !in s.fetches
    case Adds(id) => id !in s.fetches
    case Capable(id, _) => id in s.fetches && s.fetches[id].stage.Capability?
    case Required(id, keys) => id in s.fetches && s.fetches[id].stage.RequiredKeys?
      && (keys.Some? ==> |keys.value| == 3)
    case Optional(id, _) => id in s.fetches && s.fetches[id].stage.OptionalKey? && |s.fetches[id].stage.keys| == 3
    case _ => true
  }

  function Begin(s: State, id: FetchId, index: nat, isInit: bool): State {
    s.(fetches := s.fetches[id := Fetch(index, Capability, isInit)])
  }

  function Initialize(s: State, id: FetchId): State {
    if s.init.Some? then s else Begin(s.(accounts := [], selected := DEFAULT, init := Some(id)), id, 0, true)
  }

  function Add(s: State, id: FetchId): State {
    if HasIndex(s.accounts, |s.accounts|) then s else Begin(s, id, |s.accounts|, false)
  }

  // The end of a fetch. An initialization's clears the shared promise, whoever's
  // it is by then.
  function End(s: State, id: FetchId): State
    requires id in s.fetches
  {
    s.(fetches := s.fetches - {id}, init := if s.fetches[id].isInit then None else s.init)
  }

  // Store the account, unless another fetch did meanwhile.
  function Store(s: State, id: FetchId, keys: seq<string>, taproot: string): State
    requires id in s.fetches && |keys| == 3
  {
    var index := s.fetches[id].index;
    End(if HasIndex(s.accounts, index) then s else s.(accounts := s.accounts + [NewAccount(index, keys, taproot)]), id)
  }

  function Wait(s: State, id: FetchId, stage: Stage): State
    requires id in s.fetches
  {
    s.(fetches := s.fetches[id := s.fetches[id].(stage := stage)])
  }

  function TakeRequired(s: State, id: FetchId, keys: Option<seq<string>>): State
    requires id in s.fetches && s.fetches[id].stage.RequiredKeys? && (keys.Some? ==> |keys.value| == 3)
  {
    if keys.None? || "" in keys.value then End(s, id)
    else if s.fetches[id].stage.taproot then Wait(s, id, OptionalKey(keys.value))
    else Store(s, id, keys.value, "")
  }

  // ---- Balances ----

  function FindXpub(xpubs: seq<Xpub>, xpub: string): (i: nat)
    ensures i <= |xpubs|
    ensures i < |xpubs| ==> xpubs[i].xpub == xpub
    ensures forall k :: 0 <= k < i ==> xpubs[k].xpub != xpub
  {
    if xpubs == [] || xpubs[0].xpub == xpub then 0 else 1 + FindXpub(xpubs[1..], xpub)
  }

  // The first key that matches, in an account, takes the balance.
  function WithBalance(xpubs: seq<Xpub>, xpub: string, balance: string, usd: real): (r: seq<Xpub>)
    ensures |r| == |xpubs|
  {
    var i := FindXpub(xpubs, xpub);
    if i < |xpubs| then xpubs[i := xpubs[i].(balance := balance, balanceUsd := usd)] else xpubs
  }

  function SumUsd(xpubs: seq<Xpub>): real {
    if xpubs == [] then 0.0 else SumUsd(Front(xpubs)) + Last(xpubs).balanceUsd
  }

  function UpdateAccount(a: Account, xpub: string, balance: string, usd: real): Account {
    var xpubs := WithBalance(a.xpubs, xpub, balance, usd);
    a.(xpubs := xpubs, totalUsd := SumUsd(xpubs))
  }

  function UpdateAll(accounts: seq<Account>, xpub: string, balance: string, usd: real): (r: seq<Account>)
    ensures |r| == |accounts| && forall i :: 0 <= i < |r| ==> r[i] == UpdateAccount(accounts[i], xpub, balance, usd)
  {
    seq(|accounts|, i requires 0 <= i < |accounts| => UpdateAccount(accounts[i], xpub, balance, usd))
  }

  function Step(s: State, e: Event): State
    requires Enabled(s, e)
  {
    match e
    case Initializes(id) => Initialize(s, id)
    case Adds(id) => Add(s, id)
    case Capable(id, taproot) => Wait(s, id, RequiredKeys(taproot))
    case Required(id, keys) => TakeRequired(s, id, keys)
    case Optional(id, key) => Store(s, id, s.fetches[id].stage.keys, key)
    case Updates(xpub, balance, usd) => s.(accounts := UpdateAll(s.accounts, xpub, balance, usd))
    case Selects(index, scriptType) => s.(selected := Selected(index, scriptType))
    case Resets => s.(accounts := [], selected := DEFAULT, init := None)
  }

  // ---- What holds throughout ----

  ghost predicate DistinctIndices(accounts: seq<Account>) {
    forall i, j :: 0 <= i < j < |accounts| ==> accounts[i].index != accounts[j].index
  }

  // The three established types, each with a key, and at most Taproot besides;
  // paths are the account's own; the total is the sum.
  ghost predicate AccountSound(a: Account) {
    && 3 <= |a.xpubs| <= 4
    && (forall i :: 0 <= i < 3 ==> a.xpubs[i].scriptType == REQUIRED[i])
    && (|a.xpubs| == 4 ==> a.xpubs[3].scriptType == P2tr)
    && (forall i ::
      0 <= i < |a.xpubs| ==> a.xpubs[i].xpub != "" && a.xpubs[i].path == AccountPath(a.xpubs[i].scriptType, a.index))
    && a.totalUsd == SumUsd(a.xpubs)
  }

  ghost predicate FetchSound(f: Fetch) {
    f.stage.OptionalKey? ==> |f.stage.keys| == 3 && "" !in f.stage.keys
  }

  ghost predicate Inv(s: State) {
    && DistinctIndices(s.accounts)
    && (forall i :: 0 <= i < |s.accounts| ==> AccountSound(s.accounts[i]))
    && forall id :: id in s.fetches ==> FetchSound(s.fetches[id])
  }

  lemma NewAccountSound(index: nat, keys: seq<string>, taproot: string)
    requires |keys| == 3 && "" !in keys
    ensures AccountSound(NewAccount(index, keys, taproot))
  {
    var xpubs := NewAccount(index, keys, taproot).xpubs;
    forall i | 0 <= i < 3 ensures keys[i] != "" {
      assert keys[i] in keys;
    }
    ZeroSum(xpubs);
  }

  lemma {:induction false} ZeroSum(xpubs: seq<Xpub>)
    requires forall i :: 0 <= i < |xpubs| ==> xpubs[i].balanceUsd == 0.0
    ensures SumUsd(xpubs) == 0.0
  {
    if xpubs != [] {
      ZeroSum(Front(xpubs));
    }
  }

  lemma UpdateSound(a: Account, xpub: string, balance: string, usd: real)
    requires AccountSound(a)
    ensures AccountSound(UpdateAccount(a, xpub, balance, usd)) && UpdateAccount(a, xpub, balance, usd).index == a.index
  {
    hide SumUsd, AccountPath;
  }

  lemma StoreKeeps(s: State, id: FetchId, keys: seq<string>, taproot: string)
    requires Inv(s) && id in s.fetches && |keys| == 3 && "" !in keys
    ensures Inv(Store(s, id, keys, taproot))
  {
    NewAccountSound(s.fetches[id].index, keys, taproot);
    hide AccountSound, NewAccount;
    assert NewAccount(s.fetches[id].index, keys, taproot).index == s.fetches[id].index by {
      NewIndex(s.fetches[id].index, keys, taproot);
    }
  }

  lemma NewIndex(index: nat, keys: seq<string>, taproot: string)
    requires |keys| == 3
    ensures NewAccount(index, keys, taproot).index == index
  {
  }

  // Whatever order fetches, resets and updates come in, indices stay distinct,
  // every stored account has its keys, and every total is its sum.
  lemma StepKeeps(s: State, e: Event)
    requires Inv(s) && Enabled(s, e)
    ensures Inv(Step(s, e))
  {
    match e
    case Required(id, keys) =>
      if keys.Some? && "" !in keys.value {
        StoreKeeps(s, id, keys.value, "");
      }
      hide AccountSound, Store;
    case Optional(id, key) =>
      hide AccountSound, Store;
      StoreKeeps(s, id, s.fetches[id].stage.keys, key);
    case Updates(xpub, balance, usd) =>
      hide AccountSound, UpdateAccount;
      forall i | 0 <= i < |s.accounts|
        ensures AccountSound(UpdateAccount(s.accounts[i], xpub, balance, usd))
          && UpdateAccount(s.accounts[i], xpub, balance, usd).index == s.accounts[i].index
      {
        UpdateSound(s.accounts[i], xpub, balance, usd);
      }
    case _ => hide AccountSound;
  }

  function After(es: seq<Event>): (s: State)
    ensures Inv(s)
  {
    if es == [] then EMPTY
    else
      var s := After(Front(es));
      if Enabled(s, Last(es)) then StepKeeps(s, Last(es)); Step(s, Last(es)) else s
  }

  lemma AlwaysSound(es: seq<Event>, i: nat)
    requires i < |After(es).accounts|
    ensures var a := After(es).accounts[i];
      && (forall k :: 0 <= k < |After(es).accounts| && k != i ==> After(es).accounts[k].index != a.index)
      && (forall t ::
        t in REQUIRED ==> exists k :: 0 <= k < |a.xpubs| && a.xpubs[k].scriptType == t && a.xpubs[k].xpub != "")
      && a.totalUsd == SumUsd(a.xpubs)
  {
    hide After, SumUsd, AccountPath;
    var a := After(es).accounts[i];
    assert AccountSound(a);
    forall t | t in REQUIRED ensures exists k ::
      0 <= k < |a.xpubs| && a.xpubs[k].scriptType == t && a.xpubs[k].xpub != "" {
      var k :| 0 <= k < 3 && REQUIRED[k] == t;
      assert a.xpubs[k].scriptType == t;
    }
  }
}
