// Compiling Solana instructions against one account table, signer first.
module AccountTable {
  import opened Basics
  import opened Bytes

  // An account buffer: which object it is, and the key its bytes spell. External
  // accounts are looked up by object.
  datatype Account<K> = Account(ref: nat, key: K)
  datatype Ix<K> = Ix(program: Account<K>, accounts: seq<Account<K>>, data: Buffer)
  // An instruction whose accounts are numbers in the table, or the numbers the
  // lookup tables give them, whatever those are.
  datatype Compiled = Compiled(program: int, accounts: seq<int>, data: Buffer)

  type External = map<nat, int>

  function Place<K(==)>(keys: seq<K>, external: External, a: Account<K>): (seq<K>, int) {
    if a.ref in external then (keys, external[a.ref])
    else if IndexOf(keys, a.key) < |keys| then (keys, IndexOf(keys, a.key))
    else (keys + [a.key], |keys|)
  }

  function PlaceAll<K(==)>(keys: seq<K>, external: External, accounts: seq<Account<K>>): (seq<K>, seq<int>) {
    if accounts == [] then (keys, [])
    else
      var (k, indices) := PlaceAll(keys, external, Front(accounts));
      var (k', i) := Place(k, external, Last(accounts));
      (k', indices + [i])
  }

  function CompileIx<K(==)>(keys: seq<K>, external: External, ix: Ix<K>): (seq<K>, Compiled) {
    var (k, accounts) := PlaceAll(keys, external, ix.accounts);
    var (k', program) := Place(k, external, ix.program);
    (k', Compiled(program, accounts, ix.data))
  }

  function CompileAll<K(==)>(keys: seq<K>, external: External, ixs: seq<Ix<K>>): (seq<K>, seq<Compiled>) {
    if ixs == [] then (keys, [])
    else
      var (k, compiled) := CompileAll(keys, external, Front(ixs));
      var (k', c) := CompileIx(k, external, Last(ixs));
      (k', compiled + [c])
  }

  method PlaceOne<K(==)>(keys: seq<K>, external: External, a: Account<K>) returns (keys': seq<K>, i: int)
    ensures (keys', i) == Place(keys, external, a)
  {
    if a.ref in external {
      return keys, external[a.ref];
    }
    i := IndexOf(keys, a.key);
    keys' := keys;
    if i == |keys| {
      keys' := keys + [a.key];
      i := |keys'| - 1;
    }
  }

  method Compile<K(==)>(signer: K, external: External, ixs: seq<Ix<K>>) returns (keys: seq<K>, compiled: seq<Compiled>)
    ensures (keys, compiled) == CompileAll([signer], external, ixs)
  {
    keys, compiled := [signer], [];
    for i := 0 to |ixs|
      invariant (keys, compiled) == CompileAll([signer], external, ixs[..i])
    {
      assert Front(ixs[..i + 1]) == ixs[..i] && Last(ixs[..i + 1]) == ixs[i];
      ghost var before := keys;
      var indices: seq<int> := [];
      var accounts := ixs[i].accounts;
      for k := 0 to |accounts|
        invariant (keys, indices) == PlaceAll(before, external, accounts[..k])
      {
        assert Front(accounts[..k + 1]) == accounts[..k] && Last(accounts[..k + 1]) == accounts[k];
        var index: int;
        keys, index := PlaceOne(keys, external, accounts[k]);
        indices := indices + [index];
      }
      assert accounts[..|accounts|] == accounts;
      var program: int;
      keys, program := PlaceOne(keys, external, ixs[i].program);
      compiled := compiled + [Compiled(program, indices, ixs[i].data)];
    }
    assert ixs[..|ixs|] == ixs;
  }

  // ---- What the table is ----

  // The keys used outside the lookup tables, in order of use, the signer first.
  function Used<K>(external: External, accounts: seq<Account<K>>): seq<K> {
    if accounts == [] then []
    else Used(external, Front(accounts)) + if Last(accounts).ref in external then [] else [Last(accounts).key]
  }

  function Uses<K>(signer: K, external: External, ixs: seq<Ix<K>>): seq<K> {
    if ixs == [] then [signer]
    else Uses(signer, external, Front(ixs)) + Used(external, Last(ixs).accounts + [Last(ixs).program])
  }

  function FirstUses<K(==)>(keys: seq<K>): seq<K> {
    if keys == [] then []
    else
      var rest := FirstUses(Front(keys));
      if Last(keys) in rest then rest else rest + [Last(keys)]
  }

  ghost predicate Names<K>(keys: seq<K>, external: External, a: Account<K>, i: int) {
    if a.ref in external then i == external[a.ref] else 0 <= i < |keys| && keys[i] == a.key
  }

  ghost predicate NamesAll<K>(keys: seq<K>, external: External, accounts: seq<Account<K>>, indices: seq<int>) {
    |indices| == |accounts| && forall k :: 0 <= k < |accounts| ==> Names(keys, external, accounts[k], indices[k])
  }

  ghost predicate NamesIx<K>(keys: seq<K>, external: External, ix: Ix<K>, c: Compiled) {
    NamesAll(keys, external, ix.accounts, c.accounts) && Names(keys, external, ix.program, c.program)
      && c.data == ix.data
  }

  lemma PlaceFacts<K>(keys: seq<K>, external: External, a: Account<K>)
    requires Distinct(keys)
    ensures var (k, i) := Place(keys, external, a);
      && keys <= k && Distinct(k) && Names(k, external, a, i)
      && k == if a.ref in external || a.key in keys then keys else keys + [a.key]
  {
    var n := IndexOf(keys, a.key);
    if a.key in keys {
      var m :| 0 <= m < |keys| && keys[m] == a.key;
      assert n <= m;
    }
  }

  lemma {:induction false} PlaceAllNames<K>(keys: seq<K>, external: External, accounts: seq<Account<K>>)
    requires Distinct(keys)
    ensures var (k, indices) := PlaceAll(keys, external, accounts);
      keys <= k && Distinct(k) && NamesAll(k, external, accounts, indices)
  {
    if accounts != [] {
      PlaceAllNames(keys, external, Front(accounts));
      var (k, indices) := PlaceAll(keys, external, Front(accounts));
      PlaceFacts(k, external, Last(accounts));
      var (k', i) := Place(k, external, Last(accounts));
      forall n | 0 <= n < |accounts| ensures Names(k', external, accounts[n], (indices + [i])[n]) {
        if n < |indices| {
          assert Names(k, external, Front(accounts)[n], indices[n]);
        }
      }
    }
  }

  lemma {:induction false} PlaceAllTable<K>(keys: seq<K>, external: External, accounts: seq<Account<K>>, before: seq<K>)
    requires Distinct(keys) && keys == FirstUses(before)
    ensures PlaceAll(keys, external, accounts).0 == FirstUses(before + Used(external, accounts))
  {
    if accounts == [] {
      assert before + [] == before;
    } else {
      PlaceAllTable(keys, external, Front(accounts), before);
      PlaceAllNames(keys, external, Front(accounts));
      hide Distinct, NamesAll, Names;
      var k := PlaceAll(keys, external, Front(accounts)).0;
      PlaceFacts(k, external, Last(accounts));
      UsedStep(before, external, accounts);
      FirstUseStep(before + Used(external, Front(accounts)), Last(accounts).key);
      hide FirstUses, Used, Place;
    }
  }

  lemma UsedStep<K>(before: seq<K>, external: External, accounts: seq<Account<K>>)
    requires accounts != []
    ensures before + Used(external, accounts) == before + Used(external, Front(accounts))
      + if Last(accounts).ref in external then [] else [Last(accounts).key]
  {
  }

  lemma FirstUseStep<K>(uses: seq<K>, key: K)
    ensures FirstUses(uses + [key]) == if key in FirstUses(uses) then FirstUses(uses) else FirstUses(uses) + [key]
    ensures uses + [] == uses
  {
    assert Front(uses + [key]) == uses;
  }

  lemma CompileIxFacts<K>(keys: seq<K>, external: External, ix: Ix<K>, before: seq<K>)
    requires Distinct(keys) && keys == FirstUses(before)
    ensures var (k, c) := CompileIx(keys, external, ix);
      && keys <= k && Distinct(k) && NamesIx(k, external, ix, c)
      && k == FirstUses(before + Used(external, ix.accounts + [ix.program]))
  {
    var all := ix.accounts + [ix.program];
    PlaceAllNames(keys, external, ix.accounts);
    PlaceAllTable(keys, external, all, before);
    assert Front(all) == ix.accounts;
    PlaceFacts(PlaceAll(keys, external, ix.accounts).0, external, ix.program);
    var (k, c) := CompileIx(keys, external, ix);
    assert k == PlaceAll(keys, external, all).0;
    GrownNames(PlaceAll(keys, external, ix.accounts).0, k, external, ix.accounts, c.accounts);
  }

  lemma GrownNames<K>(keys: seq<K>, keys': seq<K>, external: External, accounts: seq<Account<K>>, indices: seq<int>)
    requires keys <= keys' && NamesAll(keys, external, accounts, indices)
    ensures NamesAll(keys', external, accounts, indices)
  {
    forall k | 0 <= k < |accounts| ensures Names(keys', external, accounts[k], indices[k]) {
      assert Names(keys, external, accounts[k], indices[k]);
    }
  }

  lemma {:induction false} TableIsFirstUses<K>(signer: K, external: External, ixs: seq<Ix<K>>)
    ensures var keys := CompileAll([signer], external, ixs).0;
      keys == FirstUses(Uses(signer, external, ixs)) && Distinct(keys) && [signer] <= keys
  {
    if ixs == [] {
      FirstUse(signer);
    } else {
      hide CompileIx, FirstUses, Used, NamesIx, Distinct;
      TableIsFirstUses(signer, external, Front(ixs));
      var keys := CompileAll([signer], external, Front(ixs)).0;
      var before := Uses(signer, external, Front(ixs));
      CompileIxFacts(keys, external, Last(ixs), before);
      assert CompileAll([signer], external, ixs).0 == CompileIx(keys, external, Last(ixs)).0;
    }
  }

  lemma FirstUse<K>(signer: K)
    ensures FirstUses([signer]) == [signer] && Distinct([signer])
  {
    assert Front([signer]) == [] && Last([signer]) == signer;
  }

  ghost predicate NamesEvery<K>(keys: seq<K>, external: External, ixs: seq<Ix<K>>, compiled: seq<Compiled>) {
    |compiled| == |ixs| && forall i :: 0 <= i < |ixs| ==> NamesIx(keys, external, ixs[i], compiled[i])
  }

  lemma NamesOneMore<K>(keys: seq<K>, keys': seq<K>, external: External, ixs: seq<Ix<K>>, compiled: seq<Compiled>,
      c: Compiled)
    requires ixs != [] && keys <= keys' && NamesEvery(keys, external, Front(ixs), compiled)
      && NamesIx(keys', external, Last(ixs), c)
    ensures NamesEvery(keys', external, ixs, compiled + [c])
  {
    hide NamesIx;
    forall i | 0 <= i < |ixs| ensures NamesIx(keys', external, ixs[i], (compiled + [c])[i]) {
      if i < |compiled| {
        assert NamesIx(keys, external, Front(ixs)[i], compiled[i]);
        NamesLater(keys, keys', external, ixs[i], compiled[i]);
      }
    }
  }

  lemma {:induction false} TableNames<K>(signer: K, external: External, ixs: seq<Ix<K>>)
    ensures var (keys, compiled) := CompileAll([signer], external, ixs);
      NamesEvery(keys, external, ixs, compiled)
  {
    if ixs != [] {
      hide NamesEvery, NamesIx, Distinct, CompileIx, FirstUses, Uses, Used;
      TableNames(signer, external, Front(ixs));
      var (k, compiled) := CompileAll([signer], external, Front(ixs));
      TableIsFirstUses(signer, external, Front(ixs));
      CompileIxFacts(k, external, Last(ixs), Uses(signer, external, Front(ixs)));
      var (keys, c) := CompileIx(k, external, Last(ixs));
      NamesOneMore(k, keys, external, ixs, compiled, c);
    }
  }

  // The table is the signer followed by every other account in order of first
  // use, without repeats; and each compiled index names the account it was
  // compiled from.
  lemma TableFacts<K>(signer: K, external: External, ixs: seq<Ix<K>>)
    ensures var (keys, compiled) := CompileAll([signer], external, ixs);
      && keys == FirstUses(Uses(signer, external, ixs))
      && Distinct(keys) && [signer] <= keys
      && NamesEvery(keys, external, ixs, compiled)
  {
    TableIsFirstUses(signer, external, ixs);
    TableNames(signer, external, ixs);
  }

  lemma NamesLater<K>(keys: seq<K>, keys': seq<K>, external: External, ix: Ix<K>, c: Compiled)
    requires keys <= keys' && NamesIx(keys, external, ix, c)
    ensures NamesIx(keys', external, ix, c)
  {
    GrownNames(keys, keys', external, ix.accounts, c.accounts);
  }
}
