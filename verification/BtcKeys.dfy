// Which keys and balances an account has, and what each event of the manager
// does to its accounts.
module BtcKeys {
  import opened Basics
  import opened BtcAccounts
  import opened BtcAccountManager
  import opened BtcSessions

  const HARDENED: int := 0x8000_0000

  // The account of a fetch: each key under its own type and path, nothing on it,
  // and Taproot only if there is a key for it.
  ghost predicate Keeps(a: Account, index: nat, keys: seq<string>, taproot: string)
    requires |keys| == 3
  {
    && a.index == index && a.totalUsd == 0.0
    && |a.xpubs| == (if taproot == "" then 3 else 4)
    && a.xpubs[0] == Xpub(P2pkh, [44 + HARDENED, HARDENED, index + HARDENED], keys[0], "0", 0.0)
    && a.xpubs[1] == Xpub(P2shP2wpkh, [49 + HARDENED, HARDENED, index + HARDENED], keys[1], "0", 0.0)
    && a.xpubs[2] == Xpub(P2wpkh, [84 + HARDENED, HARDENED, index + HARDENED], keys[2], "0", 0.0)
    && (taproot != "" ==>
          a.xpubs[3] == Xpub(P2tr, [86 + HARDENED, HARDENED, index + HARDENED], taproot, "0", 0.0))
  }

  lemma NewKeeps(index: nat, keys: seq<string>, taproot: string)
    requires |keys| == 3
    ensures Keeps(NewAccount(index, keys, taproot), index, keys, taproot)
  {
  }

  // One more account, the fetch's own, with these keys; unless its number is
  // there.
  ghost predicate Stored(s: State, t: State, id: FetchId, keys: seq<string>, taproot: string)
    requires id in s.fetches && |keys| == 3
  {
    if exists i :: 0 <= i < |s.accounts| && s.accounts[i].index == s.fetches[id].index then t.accounts == s.accounts
    else
      && |t.accounts| == |s.accounts| + 1 && t.accounts[..|s.accounts|] == s.accounts
      && Keeps(t.accounts[|s.accounts|], s.fetches[id].index, keys, taproot)
  }

  // The fetch is over.
  ghost predicate Ended(s: State, t: State, id: FetchId)
    requires id in s.fetches
  {
    && t.fetches == s.fetches - {id} && t.selected == s.selected
    && t.init == if s.fetches[id].isInit then None else s.init
  }

  lemma StoreAdds(s: State, id: FetchId, keys: seq<string>, taproot: string)
    requires id in s.fetches && |keys| == 3
    ensures Stored(s, Store(s, id, keys, taproot), id, keys, taproot) && Ended(s, Store(s, id, keys, taproot), id)
  {
    NewKeeps(s.fetches[id].index, keys, taproot);
    hide Keeps, NewAccount;
  }

  // The required keys store the account when the device has no Taproot, and wait
  // for the Taproot key when it has; a missing one, or a throw, ends the fetch
  // with nothing stored.
  lemma RequiredStores(s: State, id: FetchId, keys: Option<seq<string>>)
    requires Enabled(s, Required(id, keys))
    ensures var t := Step(s, Required(id, keys));
      if keys.None? || "" in keys.value then t.accounts == s.accounts && Ended(s, t, id)
      else if !s.fetches[id].stage.taproot then Stored(s, t, id, keys.value, "") && Ended(s, t, id)
      else t == s.(fetches := s.fetches[id := s.fetches[id].(stage := OptionalKey(keys.value))])
  {
    if keys.Some? && "" !in keys.value && !s.fetches[id].stage.taproot {
      StoreAdds(s, id, keys.value, "");
    }
    hide Stored, Store;
  }

  // The Taproot key, given or not, stores the account with the keys the fetch has.
  lemma OptionalStores(s: State, id: FetchId, key: string)
    requires Enabled(s, Optional(id, key))
    ensures var t := Step(s, Optional(id, key));
      Stored(s, t, id, s.fetches[id].stage.keys, key) && Ended(s, t, id)
  {
    StoreAdds(s, id, s.fetches[id].stage.keys, key);
  }

  // What begins a fetch and what clears the accounts.
  lemma BeginningsAndClearings(s: State, id: FetchId, taproot: bool)
    ensures Enabled(s, Initializes(id)) ==>
      Step(s, Initializes(id)) ==
        if s.init.Some? then s
        else State([], Selected(0, P2wpkh), Some(id), s.fetches[id := Fetch(0, Capability, true)])
    ensures Enabled(s, Adds(id)) ==>
      Step(s, Adds(id)) ==
        if exists i :: 0 <= i < |s.accounts| && s.accounts[i].index == |s.accounts| then s
        else s.(fetches := s.fetches[id := Fetch(|s.accounts|, Capability, false)])
    ensures Enabled(s, Capable(id, taproot)) ==>
      Step(s, Capable(id, taproot)) == s.(fetches := s.fetches[id := s.fetches[id].(stage := RequiredKeys(taproot))])
    ensures Step(s, Resets) == State([], Selected(0, P2wpkh), None, s.fetches)
    ensures forall index, scriptType ::
      Step(s, Selects(index, scriptType)) == s.(selected := Selected(index, scriptType))
  {
  }

  // ---- Balances ----

  // A total is the sum of its keys' balances, whatever way they are divided.
  lemma {:induction false} UsdAdds(a: seq<Xpub>, b: seq<Xpub>, x: Xpub)
    ensures SumUsd(a + b) == SumUsd(a) + SumUsd(b) && SumUsd([x]) == x.balanceUsd && SumUsd([]) == 0.0
  {
    assert Front([x]) == [] && Last([x]) == x;
    if b == [] {
      assert a + b == a;
    } else {
      UsdAdds(a, Front(b), x);
      assert Front(a + b) == a + Front(b) && Last(a + b) == Last(b);
    }
  }

  // Key k is the first of the account that matches.
  ghost predicate FirstKey(a: Account, k: int, xpub: string) {
    0 <= k < |a.xpubs| && a.xpubs[k].xpub == xpub && forall j :: 0 <= j < k ==> a.xpubs[j].xpub != xpub
  }

  // An update gives the balance to the first matching key of each account, leaves
  // every other key alone, and makes every total the sum of its keys.
  lemma UpdateGives(s: State, xpub: string, balance: string, usd: real, i: nat)
    requires i < |s.accounts|
    ensures var t := Step(s, Updates(xpub, balance, usd));
      && |t.accounts| == |s.accounts| && t == s.(accounts := t.accounts)
      && t.accounts[i].index == s.accounts[i].index && |t.accounts[i].xpubs| == |s.accounts[i].xpubs|
      && (forall k :: 0 <= k < |s.accounts[i].xpubs| ==>
            t.accounts[i].xpubs[k] ==
              if FirstKey(s.accounts[i], k, xpub) then s.accounts[i].xpubs[k].(balance := balance, balanceUsd := usd)
              else s.accounts[i].xpubs[k])
      && t.accounts[i].totalUsd == SumUsd(t.accounts[i].xpubs)
  {
    hide SumUsd, FindXpub;
    var at := FindXpub(s.accounts[i].xpubs, xpub);
    forall k | 0 <= k < |s.accounts[i].xpubs| ensures FirstKey(s.accounts[i], k, xpub) <==> k == at {
    }
  }
}
