// Which of the wallet's addresses one transport lease may cover.
module OwnedWatches {
  import opened Basics
  import opened WatchScheduler
  import Strings

  datatype Network = Network(id: string)
  datatype Key = Key(text: string)
  datatype Watch = Watch(address: string, network: Network, chain: ChainId, account: bool)

  const LEASE_LIMIT: nat := 200
  const LEAVES_PER_CHAIN: nat := 8

  function KeyOf(network: Network, address: string): Key {
    Key(network.id + ":" + if "eip155:" <= network.id then Strings.Lower(address) else address)
  }

  function WatchKey(w: Watch): Key {
    KeyOf(w.network, w.address)
  }

  // A total order on keys; the choice of order is immaterial.
  predicate TextLeq(a: string, b: string) {
    a == "" || (b != "" && (a[0] < b[0] || (a[0] == b[0] && TextLeq(a[1..], b[1..]))))
  }

  lemma {:induction false} TextLeqTotal(a: string, b: string)
    ensures TextLeq(a, b) || TextLeq(b, a)
  {
    if a != "" && b != "" {
      TextLeqTotal(a[1..], b[1..]);
    }
  }

  lemma {:induction false} TextLeqTransitive(a: string, b: string, c: string)
    requires TextLeq(a, b) && TextLeq(b, c)
    ensures TextLeq(a, c)
  {
    if a != "" && a[0] == b[0] && b[0] == c[0] {
      TextLeqTransitive(a[1..], b[1..], c[1..]);
    }
  }

  predicate Leq(a: Watch, b: Watch) {
    TextLeq(WatchKey(a).text, WatchKey(b).text)
  }

  function Insert(w: Watch, s: seq<Watch>): seq<Watch> {
    if s == [] || Leq(w, s[0]) then [w] + s else [s[0]] + Insert(w, s[1..])
  }

  function Sorted(s: seq<Watch>): seq<Watch> {
    if s == [] then [] else Insert(s[0], Sorted(s[1..]))
  }

  function Accounts(s: seq<Watch>): seq<Watch> {
    if s == [] then [] else (if s[0].account then [s[0]] else []) + Accounts(s[1..])
  }

  function Leaves(s: seq<Watch>): seq<Watch> {
    if s == [] then [] else (if s[0].account then [] else [s[0]]) + Leaves(s[1..])
  }

  function CountChain(s: seq<Watch>, c: ChainId): nat {
    if s == [] then 0 else (if s[0].chain == c then 1 else 0) + CountChain(s[1..], c)
  }

  // The first n leaves, newest first, keeping those with fewer than eight newer
  // leaves on their chain.
  function Recent(leaves: seq<Watch>, n: nat): seq<Watch>
    requires n <= |leaves|
  {
    if n == 0 then []
    else
      (if CountChain(leaves[n..], leaves[n - 1].chain) < LEAVES_PER_CHAIN then [leaves[n - 1]] else [])
      + Recent(leaves, n - 1)
  }

  function Take(s: seq<Watch>, limit: nat): seq<Watch> {
    if |s| <= limit then s else s[..limit]
  }

  // Accounts first, then recent leaves, cut at the lease limit.
  function Chosen(entries: seq<Watch>): seq<Watch> {
    Take(Accounts(entries) + Recent(Leaves(entries), |Leaves(entries)|), LEASE_LIMIT)
  }

  function Select(entries: seq<Watch>): seq<Watch> {
    Sorted(Chosen(entries))
  }

  lemma CountStep(leaves: seq<Watch>, n: nat)
    requires 0 < n <= |leaves|
    ensures forall c ::
      CountChain(leaves[n - 1..], c) == (if leaves[n - 1].chain == c then 1 else 0) + CountChain(leaves[n..], c)
  {
    assert leaves[n - 1..][1..] == leaves[n..];
  }

  lemma RecentStep(leaves: seq<Watch>, n: nat, kept: seq<Watch>)
    requires 0 < n <= |leaves|
    ensures kept + Recent(leaves, n)
      == (if CountChain(leaves[n..], leaves[n - 1].chain) < LEAVES_PER_CHAIN then kept + [leaves[n - 1]] else kept)
        + Recent(leaves, n - 1)
  {
    var rest := Recent(leaves, n - 1);
    assert kept + ([leaves[n - 1]] + rest) == (kept + [leaves[n - 1]]) + rest;
    assert kept + ([] + rest) == kept + rest;
  }

  // The counting filter over the reversed leaves.
  method KeepRecent(leaves: seq<Watch>) returns (kept: seq<Watch>)
    ensures kept == Recent(leaves, |leaves|)
  {
    var counts: map<ChainId, nat> := map[];
    var n := |leaves|;
    kept := [];
    while n > 0
      invariant 0 <= n <= |leaves|
      invariant forall c :: CountChain(leaves[n..], c) == if c in counts then counts[c] else 0
      invariant Recent(leaves, |leaves|) == kept + Recent(leaves, n)
    {
      var leaf := leaves[n - 1];
      CountStep(leaves, n);
      RecentStep(leaves, n, kept);
      var count := if leaf.chain in counts then counts[leaf.chain] else 0;
      counts := counts[leaf.chain := count + 1];
      if count < LEAVES_PER_CHAIN {
        kept := kept + [leaf];
      }
      n := n - 1;
    }
  }

  predicate IsSorted(s: seq<Watch>) {
    forall i, j :: 0 <= i < j < |s| ==> Leq(s[i], s[j])
  }

  lemma {:induction false} InsertMultiset(w: Watch, s: seq<Watch>)
    ensures multiset(Insert(w, s)) == multiset(s) + multiset{w}
    ensures forall x :: x in Insert(w, s) <==> x in s || x == w
  {
    if s != [] && !Leq(w, s[0]) {
      InsertMultiset(w, s[1..]);
      assert s == [s[0]] + s[1..];
    }
  }

  lemma {:induction false} InsertSorted(w: Watch, s: seq<Watch>)
    requires IsSorted(s)
    ensures IsSorted(Insert(w, s))
  {
    hide TextLeq, WatchKey;
    if s != [] {
      if Leq(w, s[0]) {
        forall j | 0 < j < |s| ensures Leq(w, s[j]) {
          TextLeqTransitive(WatchKey(w).text, WatchKey(s[0]).text, WatchKey(s[j]).text);
        }
      } else {
        InsertSorted(w, s[1..]);
        TextLeqTotal(WatchKey(s[0]).text, WatchKey(w).text);
        InsertMultiset(w, s[1..]);
        var t := Insert(w, s[1..]);
        forall k | 0 <= k < |t| ensures Leq(s[0], t[k]) {
          assert t[k] in t;
        }
      }
    }
  }

  lemma {:induction false} SortedFacts(s: seq<Watch>)
    ensures multiset(Sorted(s)) == multiset(s)
    ensures IsSorted(Sorted(s))
  {
    if s != [] {
      SortedFacts(s[1..]);
      InsertMultiset(s[0], Sorted(s[1..]));
      InsertSorted(s[0], Sorted(s[1..]));
      assert s == [s[0]] + s[1..];
    }
  }

  lemma {:induction false} AccountsFacts(s: seq<Watch>)
    ensures forall x :: x in Accounts(s) <==> x in s && x.account
    ensures forall x :: x in Leaves(s) <==> x in s && !x.account
  {
    if s != [] {
      AccountsFacts(s[1..]);
      assert s == [s[0]] + s[1..];
    }
  }

  lemma {:induction false} RecentCount(leaves: seq<Watch>, n: nat, c: ChainId)
    requires n <= |leaves|
    ensures CountChain(Recent(leaves, n), c) <=
      if CountChain(leaves[n..], c) <= LEAVES_PER_CHAIN then LEAVES_PER_CHAIN - CountChain(leaves[n..], c) else 0
  {
    if n > 0 {
      RecentCount(leaves, n - 1, c);
      CountStep(leaves, n);
      var rest := Recent(leaves, n - 1);
      assert ([leaves[n - 1]] + rest)[1..] == rest;
      assert [] + rest == rest;
    }
  }

  lemma {:induction false} RecentMember(leaves: seq<Watch>, n: nat)
    requires n <= |leaves|
    ensures forall x :: x in Recent(leaves, n) ==> x in leaves
  {
    if n > 0 {
      RecentMember(leaves, n - 1);
    }
  }

  lemma SelectChosen(entries: seq<Watch>)
    ensures |Select(entries)| == |Chosen(entries)|
    ensures forall x :: x in Select(entries) <==> x in Chosen(entries)
    ensures IsSorted(Select(entries))
  {
    SortedFacts(Chosen(entries));
    var r := Select(entries);
    assert |multiset(r)| == |r| && |multiset(Chosen(entries))| == |Chosen(entries)|;
    assert forall x :: x in r <==> x in multiset(r);
    assert forall x :: x in Chosen(entries) <==> x in multiset(Chosen(entries));
  }

  // A lease stays within its limit, is sorted, draws only on the given watches,
  // and gives no place to a leaf address while an account is left out.
  lemma SelectFavoursAccounts(entries: seq<Watch>)
    ensures |Select(entries)| <= LEASE_LIMIT
    ensures forall x :: x in Select(entries) ==> x in entries
    ensures IsSorted(Select(entries))
    ensures (exists a :: a in entries && a.account && a !in Select(entries))
      ==> forall x :: x in Select(entries) ==> x.account
    ensures forall c :: CountChain(Recent(Leaves(entries), |Leaves(entries)|), c) <= LEAVES_PER_CHAIN
  {
    var leaves := Leaves(entries);
    var recent := Recent(leaves, |leaves|);
    AccountsFacts(entries);
    RecentMember(leaves, |leaves|);
    SelectChosen(entries);
    forall c ensures CountChain(recent, c) <= LEAVES_PER_CHAIN { RecentCount(leaves, |leaves|, c); }
    if a :| a in entries && a.account && a !in Select(entries) {
      FullOfAccounts(Accounts(entries), recent, a);
    }
  }

  lemma FullOfAccounts(accounts: seq<Watch>, recent: seq<Watch>, a: Watch)
    requires a in accounts && a !in Take(accounts + recent, LEASE_LIMIT)
    ensures forall x :: x in Take(accounts + recent, LEASE_LIMIT) ==> x in accounts
  {
    var i :| 0 <= i < |accounts| && accounts[i] == a;
    var all, taken := accounts + recent, Take(accounts + recent, LEASE_LIMIT);
    assert forall k :: 0 <= k < |taken| ==> taken[k] == all[k] && taken[k] in taken;
    assert all[i] == a;
    assert taken == accounts[..LEASE_LIMIT];
  }

  // Fewer than eight later leaves are on the chain of leaf i.
  predicate IsRecent(leaves: seq<Watch>, i: nat)
    requires i < |leaves|
  {
    CountChain(leaves[i + 1..], leaves[i].chain) < 8
  }

  lemma {:induction false} RecentIff(leaves: seq<Watch>, n: nat, x: Watch)
    requires n <= |leaves|
    ensures x in Recent(leaves, n) <==> exists i :: 0 <= i < n && leaves[i] == x && IsRecent(leaves, i)
  {
    if n > 0 {
      RecentIff(leaves, n - 1, x);
    }
  }

  // An account, or a recent leaf.
  ghost predicate IsDue(entries: seq<Watch>, x: Watch) {
    (x in entries && x.account)
    || exists i :: 0 <= i < |Leaves(entries)| && Leaves(entries)[i] == x && IsRecent(Leaves(entries), i)
  }

  // A lease has what is due and nothing else, unless it is full at 200.
  lemma SelectIff(entries: seq<Watch>, x: Watch)
    ensures x in Select(entries) ==> IsDue(entries, x)
    ensures IsDue(entries, x) ==> x in Select(entries) || |Select(entries)| == 200
    ensures |Select(entries)| <= 200
    ensures forall y :: y in Leaves(entries) <==> y in entries && !y.account
  {
    AccountsFacts(entries);
    DueIff(entries, x);
    SelectChosen(entries);
    hide Select, Recent, Leaves, Accounts, IsDue, Take;
    TakeMember(Accounts(entries) + Recent(Leaves(entries), |Leaves(entries)|), x);
  }

  lemma DueIff(entries: seq<Watch>, x: Watch)
    ensures x in Accounts(entries) + Recent(Leaves(entries), |Leaves(entries)|) <==> IsDue(entries, x)
  {
    AccountsFacts(entries);
    RecentIff(Leaves(entries), |Leaves(entries)|, x);
    hide Recent, Leaves, Accounts, IsRecent;
  }

  lemma TakeMember(all: seq<Watch>, x: Watch)
    ensures x in Take(all, LEASE_LIMIT) ==> x in all
    ensures x in all ==> x in Take(all, LEASE_LIMIT) || |Take(all, LEASE_LIMIT)| == LEASE_LIMIT
    ensures |Take(all, LEASE_LIMIT)| <= LEASE_LIMIT
  {
  }
}
