// The account manager object, what it lists for spending, and when its account
// numbers have gaps.
module BtcAccountManager {
  import opened Basics
  import opened BtcAccounts

  // ---- What is spendable ----

  datatype Spend = Spend(xpub: string, scriptType: ScriptType, path: seq<int>)

  function FromXpubs(xpubs: seq<Xpub>): seq<Spend> {
    if xpubs == [] then []
    else
      var x := Last(xpubs);
      FromXpubs(Front(xpubs)) + if x.xpub != "" then [Spend(x.xpub, x.scriptType, x.path)] else []
  }

  function Spendable(accounts: seq<Account>): seq<Spend> {
    if accounts == [] then [] else Spendable(Front(accounts)) + FromXpubs(Last(accounts).xpubs)
  }

  predicate Yields(x: Xpub, e: Spend) {
    x.xpub != "" && e == Spend(x.xpub, x.scriptType, x.path)
  }

  ghost predicate HeldIn(xpubs: seq<Xpub>, e: Spend) {
    exists k :: 0 <= k < |xpubs| && Yields(xpubs[k], e)
  }

  lemma {:induction false} FromXpubsAre(xpubs: seq<Xpub>, e: Spend)
    ensures e in FromXpubs(xpubs) <==> HeldIn(xpubs, e)
  {
    if xpubs != [] {
      var front := Front(xpubs);
      FromXpubsAre(front, e);
      assert e in FromXpubs(xpubs) <==> e in FromXpubs(front) || Yields(Last(xpubs), e);
      hide FromXpubs, Yields;
      if k :| 0 <= k < |front| && Yields(front[k], e) {
        assert xpubs[k] == front[k];
      }
      if k :| 0 <= k < |xpubs| && Yields(xpubs[k], e) {
        assert k < |front| ==> front[k] == xpubs[k];
      }
    }
  }

  // Every key that is there is listed, with its own type and path, and nothing
  // else is.
  lemma {:induction false} SpendableIff(accounts: seq<Account>, e: Spend)
    ensures e in Spendable(accounts) <==> exists i :: 0 <= i < |accounts| && HeldIn(accounts[i].xpubs, e)
  {
    hide FromXpubs, HeldIn;
    if accounts != [] {
      var front := Front(accounts);
      SpendableIff(front, e);
      FromXpubsAre(Last(accounts).xpubs, e);
      if i :| 0 <= i < |front| && HeldIn(front[i].xpubs, e) {
        assert accounts[i] == front[i];
      }
      if i :| 0 <= i < |accounts| && HeldIn(accounts[i].xpubs, e) {
        assert i < |front| ==> front[i] == accounts[i];
      }
    }
  }

  lemma {:induction false} FromXpubsSame(a: seq<Xpub>, b: seq<Xpub>)
    requires |a| == |b|
      && forall k ::
        0 <= k < |a| ==> a[k].xpub == b[k].xpub && a[k].scriptType == b[k].scriptType && a[k].path == b[k].path
    ensures FromXpubs(a) == FromXpubs(b)
  {
    if a != [] {
      FromXpubsSame(Front(a), Front(b));
    }
  }

  // No balance, cached zero or not, changes what is listed.
  lemma {:induction false} SpendableIgnoresBalances(accounts: seq<Account>, xpub: string, balance: string, usd: real)
    ensures Spendable(UpdateAll(accounts, xpub, balance, usd)) == Spendable(accounts)
  {
    hide SumUsd;
    if accounts != [] {
      SpendableIgnoresBalances(Front(accounts), xpub, balance, usd);
      var after := UpdateAll(accounts, xpub, balance, usd);
      assert Front(after) == UpdateAll(Front(accounts), xpub, balance, usd);
      FromXpubsSame(Last(after).xpubs, Last(accounts).xpubs);
      hide UpdateAll, FromXpubs;
    }
  }

  // ---- Gaps in the account numbers ----

  ghost predicate Contiguous(accounts: seq<Account>) {
    forall i :: 0 <= i < |accounts| ==> accounts[i].index == i
  }

  // No fetch is for an account beyond the next.
  ghost predicate Current(s: State) {
    forall id :: id in s.fetches ==> s.fetches[id].index <= |s.accounts|
  }

  predicate Clears(s: State, e: Event) {
    e.Resets? || (e.Initializes? && s.init.None?)
  }

  lemma StoreContiguousIff(s: State, id: FetchId, keys: seq<string>, taproot: string)
    requires id in s.fetches && |keys| == 3 && Contiguous(s.accounts)
    ensures Contiguous(Store(s, id, keys, taproot).accounts) <==> s.fetches[id].index <= |s.accounts|
  {
    var index := s.fetches[id].index;
    NewIndex(index, keys, taproot);
    hide NewAccount;
    if index < |s.accounts| {
      assert s.accounts[index].index == index;
    } else if index > |s.accounts| {
      var after := s.accounts + [NewAccount(index, keys, taproot)];
      assert after[|s.accounts|].index == index;
    }
  }

  lemma StoreCurrent(s: State, id: FetchId, keys: seq<string>, taproot: string)
    requires id in s.fetches && |keys| == 3 && Current(s)
    ensures Current(Store(s, id, keys, taproot))
  {
    hide NewAccount;
  }

  // Account numbers run 0, 1, 2, ... and every fetch is for one of these or the
  // next, until the accounts are cleared; clearing keeps that exactly when every
  // fetch then under way is for account 0.
  lemma ContiguousIff(s: State, e: Event)
    requires Enabled(s, e) && Contiguous(s.accounts) && Current(s)
    ensures Contiguous(Step(s, e).accounts)
    ensures Current(Step(s, e)) <==> (Clears(s, e) ==> forall id :: id in s.fetches ==> s.fetches[id].index == 0)
  {
    match e
    case Required(id, keys) =>
      if keys.Some? && "" !in keys.value {
        StoreContiguousIff(s, id, keys.value, "");
        StoreCurrent(s, id, keys.value, "");
      }
      hide Store, HasIndex;
    case Optional(id, key) =>
      hide Store, HasIndex;
      StoreContiguousIff(s, id, s.fetches[id].stage.keys, key);
      StoreCurrent(s, id, s.fetches[id].stage.keys, key);
    case Updates(xpub, balance, usd) =>
      hide HasIndex, WithBalance, SumUsd;
    case Initializes(id) =>
      InitializeCurrent(s, id);
    case _ => hide HasIndex;
  }

  lemma InitializeCurrent(s: State, id: FetchId)
    requires Enabled(s, Initializes(id)) && Current(s)
    ensures Current(Initialize(s, id)) <==> (s.init.None? ==> forall k :: k in s.fetches ==> s.fetches[k].index == 0)
  {
    if s.init.None? {
      var t := Initialize(s, id);
      assert forall k :: k in s.fetches ==> k in t.fetches && t.fetches[k] == s.fetches[k];
    }
  }

  lemma AfterSnoc(es: seq<Event>, e: Event)
    ensures After(es + [e]) == if Enabled(After(es), e) then Step(After(es), e) else After(es)
  {
    assert Front(es + [e]) == es && Last(es + [e]) == e;
  }

  function FirstAccount(keys: seq<string>): seq<Event> {
    [] + [Initializes(FetchId(0))] + [Capable(FetchId(0), false)] + [Required(FetchId(0), Some(keys))]
  }

  function StaleAdd(keys: seq<string>): seq<Event> {
    FirstAccount(keys) + [Adds(FetchId(1))] + [Resets] + [Capable(FetchId(1), false)]
      + [Required(FetchId(1), Some(keys))]
  }

  lemma FirstAccountStored(keys: seq<string>)
    requires |keys| == 3 && "" !in keys
    ensures var s := After(FirstAccount(keys));
      |s.accounts| == 1 && s.accounts[0].index == 0 && s.init.None? && s.fetches == map[]
  {
    var e0: seq<Event> := [];
    var e1 := e0 + [Initializes(FetchId(0))];
    var e2 := e1 + [Capable(FetchId(0), false)];
    AfterSnoc(e0, Initializes(FetchId(0)));
    AfterSnoc(e1, Capable(FetchId(0), false));
    AfterSnoc(e2, Required(FetchId(0), Some(keys)));
    NewIndex(0, keys, "");
    hide After, NewAccount;
    assert After(e0) == EMPTY;
  }

  // A fetch begun before a reset and finished after it leaves account 1 alone,
  // and from then on adding does nothing.
  lemma StaleAddLeavesGap(keys: seq<string>, id: FetchId)
    requires |keys| == 3 && "" !in keys
    ensures var s := After(StaleAdd(keys));
      |s.accounts| == 1 && s.accounts[0].index == 1 && !Contiguous(s.accounts) && Add(s, id) == s
  {
    FirstAccountStored(keys);
    var e3 := FirstAccount(keys);
    var e4 := e3 + [Adds(FetchId(1))];
    var e5 := e4 + [Resets];
    var e6 := e5 + [Capable(FetchId(1), false)];
    AfterSnoc(e3, Adds(FetchId(1)));
    AfterSnoc(e4, Resets);
    AfterSnoc(e5, Capable(FetchId(1), false));
    AfterSnoc(e6, Required(FetchId(1), Some(keys)));
    NewIndex(1, keys, "");
    hide After, NewAccount, FirstAccount;
    assert !HasIndex(After(e3).accounts, 1);
    assert After(e6).accounts == [] && After(e6).fetches[FetchId(1)] == Fetch(1, RequiredKeys(false), false);
  }

  // ---- The manager ----

  class Manager {
    var accounts: seq<Account>
    var selected: Selected
    var init: Option<FetchId>
    // The fetches under way, which the source keeps as suspended calls.
    var fetches: map<FetchId, Fetch>

    ghost function View(): State
      reads this
    {
      State(accounts, selected, init, fetches)
    }

    ghost predicate Valid()
      reads this
    {
      Inv(View())
    }

    constructor ()
      ensures View() == EMPTY && Valid()
    {
      accounts, selected, init, fetches := [], DEFAULT, None, map[];
    }

    // this.accounts.some(a => a.accountIndex === index).
    method Exists(index: nat) returns (found: bool)
      ensures found == HasIndex(accounts, index)
    {
      for i := 0 to |accounts|
        invariant forall k :: 0 <= k < i ==> accounts[k].index != index
      {
        if accounts[i].index == index {
          return true;
        }
      }
      return false;
    }

    method InitializeAccounts(id: FetchId)
      requires Valid() && id !in fetches
      modifies this
      ensures View() == Initialize(old(View()), id) && Valid()
    {
      StepKeeps(View(), Initializes(id));
      hide Inv;
      if init.Some? {
        return;
      }
      accounts, selected, init := [], DEFAULT, Some(id);
      fetches := fetches[id := Fetch(0, Capability, true)];
    }

    method AddAccount(id: FetchId)
      requires Valid() && id !in fetches
      modifies this
      ensures View() == Add(old(View()), id) && Valid()
    {
      StepKeeps(View(), Adds(id));
      hide Inv;
      var next := |accounts|;
      var taken := Exists(next);
      if taken {
        return;
      }
      fetches := fetches[id := Fetch(next, Capability, false)];
    }

    method OnCapability(id: FetchId, taproot: bool)
      requires Valid() && id in fetches && fetches[id].stage.Capability?
      modifies this
      ensures View() == Wait(old(View()), id, RequiredKeys(taproot)) && Valid()
    {
      StepKeeps(View(), Capable(id, taproot));
      hide Inv;
      fetches := fetches[id := fetches[id].(stage := RequiredKeys(taproot))];
    }

    // The end of a fetch, with its account or without.
    method FinishFetch(id: FetchId)
      requires id in fetches
      modifies `fetches, `init
      ensures View() == End(old(View()), id)
    {
      if fetches[id].isInit {
        init := None;
      }
      fetches := fetches - {id};
    }

    method StoreAccount(id: FetchId, keys: seq<string>, taproot: string)
      requires Valid() && id in fetches && |keys| == 3 && "" !in keys
      modifies `accounts, `fetches, `init
      ensures View() == Store(old(View()), id, keys, taproot) && Valid()
    {
      StoreKeeps(View(), id, keys, taproot);
      hide Inv, HasIndex, End, NewAccount;
      var index := fetches[id].index;
      var taken := Exists(index);
      if !taken {
        accounts := accounts + [NewAccount(index, keys, taproot)];
      }
      FinishFetch(id);
    }

    method OnRequiredKeys(id: FetchId, keys: Option<seq<string>>)
      requires Valid() && id in fetches && fetches[id].stage.RequiredKeys? && (keys.Some? ==> |keys.value| == 3)
      modifies this
      ensures View() == TakeRequired(old(View()), id, keys) && Valid()
    {
      StepKeeps(View(), Required(id, keys));
      hide Inv, Store, End;
      if keys.None? || "" in keys.value {
        FinishFetch(id);
        return;
      }
      if fetches[id].stage.taproot {
        fetches := fetches[id := fetches[id].(stage := OptionalKey(keys.value))];
        return;
      }
      StoreAccount(id, keys.value, "");
    }

    method OnOptionalKey(id: FetchId, key: string)
      requires Valid() && id in fetches && fetches[id].stage.OptionalKey?
      modifies this
      ensures |old(fetches)[id].stage.keys| == 3
      ensures View() == Store(old(View()), id, old(fetches)[id].stage.keys, key) && Valid()
    {
      var keys := fetches[id].stage.keys;
      assert FetchSound(fetches[id]);
      hide Inv, Store;
      StoreAccount(id, keys, key);
    }

    method UpdateXpubBalance(xpub: string, balance: string, usd: real)
      requires Valid()
      modifies `accounts
      ensures accounts == UpdateAll(old(accounts), xpub, balance, usd) && Valid()
    {
      StepKeeps(View(), Updates(xpub, balance, usd));
      hide Inv, SumUsd, WithBalance;
      var all := accounts;
      for i := 0 to |all|
        invariant |accounts| == |all|
        invariant forall k ::
          0 <= k < |all| ==> accounts[k] == if k < i then UpdateAccount(all[k], xpub, balance, usd) else all[k]
      {
        var xpubs := SetBalance(accounts[i].xpubs, xpub, balance, usd);
        var total := Total(xpubs);
        accounts := accounts[i := accounts[i].(xpubs := xpubs, totalUsd := total)];
      }
      assert accounts == UpdateAll(all, xpub, balance, usd);
    }

    method SetSelectedXpub(index: int, scriptType: ScriptType)
      requires Valid()
      modifies `selected
      ensures View() == Step(old(View()), Selects(index, scriptType)) && Valid()
    {
      selected := Selected(index, scriptType);
    }

    method Reset()
      requires Valid()
      modifies this
      ensures View() == Step(old(View()), Resets) && Valid()
    {
      StepKeeps(View(), Resets);
      hide Inv;
      accounts, selected, init := [], DEFAULT, None;
    }

    method GetSpendableXpubs() returns (result: seq<Spend>)
      ensures result == Spendable(accounts)
    {
      hide FromXpubs;
      result := [];
      for i := 0 to |accounts|
        invariant result == Spendable(accounts[..i])
      {
        assert Front(accounts[..i + 1]) == accounts[..i] && Last(accounts[..i + 1]) == accounts[i];
        var listed := ListXpubs(accounts[i].xpubs);
        result := result + listed;
      }
      assert accounts[..|accounts|] == accounts;
    }

    // The sum over all accounts that toAccountSet reports.
    method TotalUsd() returns (total: real)
      ensures total == SumAccounts(accounts)
    {
      total := 0.0;
      for i := 0 to |accounts|
        invariant total == SumAccounts(accounts[..i])
      {
        assert Front(accounts[..i + 1]) == accounts[..i] && Last(accounts[..i + 1]) == accounts[i];
        total := total + accounts[i].totalUsd;
      }
      assert accounts[..|accounts|] == accounts;
    }
  }

  function SumAccounts(accounts: seq<Account>): real {
    if accounts == [] then 0.0 else SumAccounts(Front(accounts)) + Last(accounts).totalUsd
  }

  function SumAllUsd(accounts: seq<Account>): real {
    if accounts == [] then 0.0 else SumAllUsd(Front(accounts)) + SumUsd(Last(accounts).xpubs)
  }

  // The reported total is the sum over every key's balance.
  lemma {:induction false} TotalIsSumOfKeys(accounts: seq<Account>)
    requires forall i :: 0 <= i < |accounts| ==> AccountSound(accounts[i])
    ensures SumAccounts(accounts) == SumAllUsd(accounts)
  {
    hide SumUsd, AccountPath;
    if accounts != [] {
      TotalIsSumOfKeys(Front(accounts));
      assert AccountSound(accounts[|accounts| - 1]);
    }
  }

  method SetBalance(xpubs: seq<Xpub>, xpub: string, balance: string, usd: real) returns (r: seq<Xpub>)
    ensures r == WithBalance(xpubs, xpub, balance, usd)
  {
    r := xpubs;
    for i := 0 to |xpubs|
      invariant r == xpubs && forall k :: 0 <= k < i ==> xpubs[k].xpub != xpub
    {
      if xpubs[i].xpub == xpub {
        r := xpubs[i := xpubs[i].(balance := balance, balanceUsd := usd)];
        break;
      }
    }
  }

  method Total(xpubs: seq<Xpub>) returns (sum: real)
    ensures sum == SumUsd(xpubs)
  {
    sum := 0.0;
    for i := 0 to |xpubs|
      invariant sum == SumUsd(xpubs[..i])
    {
      assert Front(xpubs[..i + 1]) == xpubs[..i] && Last(xpubs[..i + 1]) == xpubs[i];
      sum := sum + xpubs[i].balanceUsd;
    }
    assert xpubs[..|xpubs|] == xpubs;
  }

  method ListXpubs(xpubs: seq<Xpub>) returns (result: seq<Spend>)
    ensures result == FromXpubs(xpubs)
  {
    result := [];
    for i := 0 to |xpubs|
      invariant result == FromXpubs(xpubs[..i])
    {
      assert Front(xpubs[..i + 1]) == xpubs[..i] && Last(xpubs[..i + 1]) == xpubs[i];
      if xpubs[i].xpub != "" {
        result := result + [Spend(xpubs[i].xpub, xpubs[i].scriptType, xpubs[i].path)];
      }
    }
    assert xpubs[..|xpubs|] == xpubs;
  }
}
