// The wire transaction of a list of instructions, and what its reader sees.
module SolanaTable {
  import opened Basics
  import opened Bytes
  import opened Codec
  import opened SolanaWire
  import opened AccountTable
  import opened SolanaEdit

  // ---- The wire transaction ----

  function Filler(b: Byte): (k: Key)
    ensures forall i :: 0 <= i < 32 ==> k[i] == b
  {
    seq(32, i requires 0 <= i < 32 => b)
  }

  function ToMessage(signer: Key, external: External, ixs: seq<Ix<Key>>, v0: bool,
      lookups: seq<WideLookup>): WideMessage {
    var (keys, compiled) := CompileAll([signer], external, ixs);
    WideMessage(v0, WideHeader(1, 0, 0), keys, Filler(0xbb), compiled, lookups)
  }

  // The account at a place of an instruction; the program comes last.
  function AccountAt<K>(ix: Ix<K>, k: nat): Account<K>
    requires k <= |ix.accounts|
  {
    if k < |ix.accounts| then ix.accounts[k] else ix.program
  }

  // The keys the table must hold: the signer's, and each key used for itself.
  ghost function StaticKeys<K(!new)>(signer: K, external: External, ixs: seq<Ix<K>>): set<K> {
    {signer} + set i, k | 0 <= i < |ixs| && 0 <= k <= |ixs[i].accounts| && AccountAt(ixs[i], k).ref !in external
      :: AccountAt(ixs[i], k).key
  }

  // tx's own serialization, part by part; it writes the same bytes as the
  // editor's serializer.
  method Serialize(signer: Key, external: External, ixs: seq<Ix<Key>>, v0: bool, lookups: seq<WideLookup>)
      returns (out: Buffer)
    requires |StaticKeys(signer, external, ixs)| < LENGTH_LIMIT && |ixs| < LENGTH_LIMIT && |lookups| < LENGTH_LIMIT
    requires forall i :: 0 <= i < |ixs| ==> |ixs[i].accounts| < LENGTH_LIMIT && |ixs[i].data| < LENGTH_LIMIT
    requires forall i ::
      0 <= i < |lookups| ==> |lookups[i].writable| < LENGTH_LIMIT && |lookups[i].readonly| < LENGTH_LIMIT
    ensures out == EncodeEdited(ToMessage(signer, external, ixs, v0, lookups))
  {
    LengthsFit(signer, external, ixs);
    hide CompileAll, StaticKeys, Counted, MapAll, EncodeMessage, EncodeEdited, Narrow, Zeros, Filler, NarrowIx,
      NarrowLookup;
    var keys, compiled := Compile(signer, external, ixs);
    var count := CompactLoop(|keys|);
    var parts: Buffer := (if v0 then [0x80] else []) + [1, 0, 0] + (count + EncodeAll(EncodeKey, keys)) + Filler(0xbb);
    var instructions := SerializeInstructions(compiled);
    parts := parts + instructions;
    var tail: Buffer := [];
    if v0 {
      tail := SerializeLookups(lookups);
    }
    parts := parts + tail;
    out := [1] + Zeros(64) + parts;
    EditedParts(ToMessage(signer, external, ixs, v0, lookups), count);
  }

  lemma EditedParts(m: WideMessage, count: Buffer)
    requires m.header == WideHeader(1, 0, 0) && count == Compact(|m.accounts|)
    ensures EncodeEdited(m) == [1] + Zeros(64) + ((if m.v0 then [0x80] else []) + [1, 0, 0]
      + (count + EncodeAll(EncodeKey, m.accounts)) + m.blockhash
        + Counted(EncodeInstruction, MapAll(NarrowIx, m.instructions))
      + if m.v0 then Counted(EncodeLookup, MapAll(NarrowLookup, m.lookups)) else [])
  {
    assert Compact(1) == [1];
    assert Counted(EncodeKey, m.accounts) == count + EncodeAll(EncodeKey, m.accounts);
    hide Counted, MapAll, Zeros, Compact;
  }

  lemma LengthsFit(signer: Key, external: External, ixs: seq<Ix<Key>>)
    requires forall i :: 0 <= i < |ixs| ==> |ixs[i].accounts| < LENGTH_LIMIT && |ixs[i].data| < LENGTH_LIMIT
    ensures var (keys, compiled) := CompileAll([signer], external, ixs);
      && |keys| == |StaticKeys(signer, external, ixs)| && |compiled| == |ixs|
      && forall i :: 0 <= i < |compiled| ==> |compiled[i].accounts| < LENGTH_LIMIT && |compiled[i].data| < LENGTH_LIMIT
  {
    TableFacts(signer, external, ixs);
    TableSize(signer, external, ixs);
    hide CompileAll, StaticKeys, Uses, FirstUses;
    var (keys, compiled) := CompileAll([signer], external, ixs);
    forall i | 0 <= i < |compiled| ensures |compiled[i].accounts| < LENGTH_LIMIT && |compiled[i].data| < LENGTH_LIMIT {
      assert NamesIx(keys, external, ixs[i], compiled[i]);
    }
  }

  method SerializeInstructions(compiled: seq<Compiled>) returns (parts: Buffer)
    requires |compiled| < LENGTH_LIMIT
    requires forall i ::
      0 <= i < |compiled| ==> |compiled[i].accounts| < LENGTH_LIMIT && |compiled[i].data| < LENGTH_LIMIT
    ensures parts == Counted(EncodeInstruction, MapAll(NarrowIx, compiled))
  {
    var head := CompactLoop(|compiled|);
    ghost var all := MapAll(NarrowIx, compiled);
    parts := head;
    for i := 0 to |compiled|
      invariant parts == head + EncodeAll(EncodeInstruction, all[..i])
    {
      var c := compiled[i];
      var accounts := CompactLoop(|c.accounts|);
      var data := CompactLoop(|c.data|);
      parts := parts + ([LowByte(c.program)] + (accounts + LowBytes(c.accounts)) + (data + c.data));
      EncodeOneMore(EncodeInstruction, all, i, head);
    }
    assert all[..|compiled|] == all;
  }

  lemma EncodeOneMore<T>(encode: T -> Buffer, xs: seq<T>, i: nat, head: Buffer)
    requires i < |xs|
    ensures head + EncodeAll(encode, xs[..i]) + encode(xs[i]) == head + EncodeAll(encode, xs[..i + 1])
  {
    EncodeAllSnoc(encode, xs[..i], xs[i]);
    assert xs[..i + 1] == xs[..i] + [xs[i]];
  }

  method SerializeLookups(lookups: seq<WideLookup>) returns (parts: Buffer)
    requires |lookups| < LENGTH_LIMIT
    requires forall i ::
      0 <= i < |lookups| ==> |lookups[i].writable| < LENGTH_LIMIT && |lookups[i].readonly| < LENGTH_LIMIT
    ensures parts == Counted(EncodeLookup, MapAll(NarrowLookup, lookups))
  {
    var head := CompactLoop(|lookups|);
    ghost var all := MapAll(NarrowLookup, lookups);
    parts := head;
    for i := 0 to |lookups|
      invariant parts == head + EncodeAll(EncodeLookup, all[..i])
    {
      var l := lookups[i];
      var writable := CompactLoop(|l.writable|);
      var readonly := CompactLoop(|l.readonly|);
      parts := parts + (l.key + (writable + LowBytes(l.writable)) + (readonly + LowBytes(l.readonly)));
      EncodeOneMore(EncodeLookup, all, i, head);
    }
    assert all[..|lookups|] == all;
  }

  // ---- The table's size ----

  lemma {:induction false} FirstUsesHas<K>(uses: seq<K>, key: K)
    ensures key in FirstUses(uses) <==> key in uses
  {
    if uses != [] {
      assert uses == Front(uses) + [Last(uses)];
      FirstUsesHas(Front(uses), key);
    }
  }

  lemma {:induction false} UsedHas<K>(external: External, accounts: seq<Account<K>>, key: K)
    ensures key in Used(external, accounts)
      <==> exists k :: 0 <= k < |accounts| && accounts[k].ref !in external && accounts[k].key == key
  {
    if accounts != [] {
      UsedHas(external, Front(accounts), key);
      assert forall k :: 0 <= k < |accounts| - 1 ==> Front(accounts)[k] == accounts[k];
      assert Last(accounts) == accounts[|accounts| - 1];
    }
  }

  ghost predicate UsesKey<K>(external: External, ix: Ix<K>, key: K) {
    exists k :: 0 <= k <= |ix.accounts| && AccountAt(ix, k).ref !in external && AccountAt(ix, k).key == key
  }

  lemma IxUses<K>(external: External, ix: Ix<K>, key: K)
    ensures key in Used(external, ix.accounts + [ix.program]) <==> UsesKey(external, ix, key)
  {
    var all := ix.accounts + [ix.program];
    UsedHas(external, all, key);
    assert forall k :: 0 <= k <= |ix.accounts| ==> all[k] == AccountAt(ix, k);
  }

  lemma {:induction false} UsesHas<K>(signer: K, external: External, ixs: seq<Ix<K>>, key: K)
    ensures key in Uses(signer, external, ixs)
      <==> key == signer || exists i :: 0 <= i < |ixs| && UsesKey(external, ixs[i], key)
  {
    hide Used, UsesKey;
    if ixs != [] {
      UsesHas(signer, external, Front(ixs), key);
      IxUses(external, Last(ixs), key);
      assert forall i :: 0 <= i < |ixs| - 1 ==> Front(ixs)[i] == ixs[i];
      assert Last(ixs) == ixs[|ixs| - 1];
    }
  }

  lemma {:induction false} DistinctSize<K>(s: seq<K>, keys: set<K>)
    requires Distinct(s) && forall k :: k in s ==> k in keys
    ensures |s| <= |keys| && ((forall k :: k in keys ==> k in s) ==> |s| == |keys|)
  {
    if s != [] {
      var rest := keys - {Last(s)};
      assert forall k :: k in s <==> k in Front(s) || k == Last(s);
      DistinctSize(Front(s), rest);
      assert |keys| == |rest| + 1;
    } else if keys != {} {
      var k :| k in keys;
    }
  }

  // The table has one place for each key it must hold.
  lemma TableSize<K(!new)>(signer: K, external: External, ixs: seq<Ix<K>>)
    ensures |CompileAll([signer], external, ixs).0| == |StaticKeys(signer, external, ixs)|
  {
    var keys := CompileAll([signer], external, ixs).0;
    var all := StaticKeys(signer, external, ixs);
    TableFacts(signer, external, ixs);
    forall key ensures key in keys <==> key in all {
      FirstUsesHas(Uses(signer, external, ixs), key);
      UsesHas(signer, external, ixs, key);
      KeyIsStatic(signer, external, ixs, key);
    }
    hide CompileAll, Uses, FirstUses;
    DistinctSize(keys, all);
  }

  lemma KeyIsStatic<K(!new)>(signer: K, external: External, ixs: seq<Ix<K>>, key: K)
    ensures key in StaticKeys(signer, external, ixs)
      <==> key == signer || exists i :: 0 <= i < |ixs| && UsesKey(external, ixs[i], key)
  {
    hide AccountAt;
    if key in StaticKeys(signer, external, ixs) && key != signer {
      var i, k :| 0 <= i < |ixs| && 0 <= k <= |ixs[i].accounts| && AccountAt(ixs[i], k).ref !in external
        && AccountAt(ixs[i], k).key == key;
      assert UsesKey(external, ixs[i], key);
    }
  }

  // ---- What a reader of the wire sees ----

  // An index that leads back: the number the lookup tables give an external
  // account, and the place of any other.
  ghost predicate Reads(x: Message, external: External, a: Account<Key>, i: Byte) {
    if a.ref in external then i == external[a.ref] else i < |x.accounts| && x.accounts[i] == a.key
  }

  function IndexAt(r: Instruction, k: nat): Byte
    requires k <= |r.accounts|
  {
    if k < |r.accounts| then r.accounts[k] else r.program
  }

  ghost predicate ReadsIx(x: Message, external: External, ix: Ix<Key>, r: Instruction) {
    && |r.accounts| == |ix.accounts|
    && (forall k :: 0 <= k <= |ix.accounts| ==> Reads(x, external, AccountAt(ix, k), IndexAt(r, k)))
    && r.data == ix.data
  }

  ghost predicate ReadsAll(x: Message, external: External, ixs: seq<Ix<Key>>, lookups: seq<WideLookup>) {
    && |x.instructions| == |ixs|
    && (forall i :: 0 <= i < |ixs| ==> ReadsIx(x, external, ixs[i], x.instructions[i]))
    && (x.v0 ==> MapAll(WidenLookup, x.lookups) == lookups)
  }

  // Of the version asked for, with the signer as its one signer and first account.
  ghost predicate Addressed(x: Message, signer: Key, v0: bool) {
    && x.v0 == v0 && x.header == Header(1, 0, 0) && x.accounts != [] && x.accounts[0] == signer
    && forall i :: 0 <= i < 32 ==> x.blockhash[i] == 0xbb
  }

  predicate ExternalFits(external: External, ix: Ix<Key>) {
    forall k :: 0 <= k <= |ix.accounts| && AccountAt(ix, k).ref in external ==> IsByte(external[AccountAt(ix, k).ref])
  }

  // What the caller can check beforehand: the keys fit a byte's numbers, and so
  // do the numbers of the external accounts in use and of the lookups sent.
  ghost predicate AllFit(signer: Key, external: External, ixs: seq<Ix<Key>>, v0: bool, lookups: seq<WideLookup>) {
    && |StaticKeys(signer, external, ixs)| <= 256
    && (forall i :: 0 <= i < |ixs| ==> ExternalFits(external, ixs[i]))
    && (v0 ==> LookupsFit(lookups))
  }

  // What a transaction is read as.
  function WireMessage(signer: Key, external: External, ixs: seq<Ix<Key>>, v0: bool,
      lookups: seq<WideLookup>): Message {
    OnWire(Narrow(ToMessage(signer, external, ixs, v0, lookups)))
  }

  lemma WireIs(signer: Key, external: External, ixs: seq<Ix<Key>>, v0: bool, lookups: seq<WideLookup>)
    ensures var m := ToMessage(signer, external, ixs, v0, lookups);
      ReadTransaction(EncodeEdited(m)) == Some(WireMessage(signer, external, ixs, v0, lookups))
    ensures var x := WireMessage(signer, external, ixs, v0, lookups);
      var (keys, compiled) := CompileAll([signer], external, ixs);
      && Addressed(x, signer, v0)
      && x.v0 == v0 && x.accounts == keys && x.instructions == MapAll(NarrowIx, compiled)
      && x.lookups == if v0 then MapAll(NarrowLookup, lookups) else []
  {
    hide CompileAll, MapAll, ReadTransaction, EncodeMessage, Compact, Zeros;
    SignerFirst(signer, external, ixs);
    WireBack(ToMessage(signer, external, ixs, v0, lookups));
  }

  lemma WireBack(m: WideMessage)
    requires m.header == WideHeader(1, 0, 0)
    ensures ReadTransaction(EncodeEdited(m)) == Some(OnWire(Narrow(m)))
  {
    hide ReadTransaction, EncodeMessage, Compact, Zeros, MapAll;
    TransactionBackIff(Narrow(m));
    assert EncodeEdited(m) == EncodeTransaction(Narrow(m));
  }

  lemma SignerFirst(signer: Key, external: External, ixs: seq<Ix<Key>>)
    ensures var keys := CompileAll([signer], external, ixs).0; keys != [] && keys[0] == signer
  {
    TableFacts(signer, external, ixs);
  }

  lemma NamesAt(keys: seq<Key>, external: External, ix: Ix<Key>, c: Compiled, k: nat) returns (n: int)
    requires NamesIx(keys, external, ix, c) && k <= |ix.accounts|
    ensures Names(keys, external, AccountAt(ix, k), n) && IndexAt(NarrowIx(c), k) == LowByte(n)
  {
    n := if k < |ix.accounts| then c.accounts[k] else c.program;
  }

  lemma IxReads(x: Message, external: External, ix: Ix<Key>, c: Compiled)
    requires |x.accounts| <= 256 && NamesIx(x.accounts, external, ix, c) && ExternalFits(external, ix)
    ensures ReadsIx(x, external, ix, NarrowIx(c))
  {
    forall k | 0 <= k <= |ix.accounts| ensures Reads(x, external, AccountAt(ix, k), IndexAt(NarrowIx(c), k)) {
      var n := NamesAt(x.accounts, external, ix, c, k);
    }
  }

  // Where everything fits a byte, the decoded transaction has the instructions
  // that went in: every index leads back to its account.
  lemma TransactionReadsBack(signer: Key, external: External, ixs: seq<Ix<Key>>, v0: bool, lookups: seq<WideLookup>)
    requires AllFit(signer, external, ixs, v0, lookups)
    ensures var t := ReadTransaction(EncodeEdited(ToMessage(signer, external, ixs, v0, lookups)));
      t.Some? && ReadsAll(t.value, external, ixs, lookups)
  {
    hide ReadTransaction, WireMessage, ReadsIx, NamesIx, CompileAll, Uses, FirstUses, StaticKeys, ExternalFits,
      LookupFits, NarrowIx;
    WireIs(signer, external, ixs, v0, lookups);
    TableFacts(signer, external, ixs);
    TableSize(signer, external, ixs);
    LookupsBack(lookups);
    var (keys, compiled) := CompileAll([signer], external, ixs);
    var x := WireMessage(signer, external, ixs, v0, lookups);
    forall i | 0 <= i < |ixs| ensures ReadsIx(x, external, ixs[i], x.instructions[i]) {
      assert NamesIx(keys, external, ixs[i], compiled[i]);
      IxReads(x, external, ixs[i], compiled[i]);
    }
  }

  // ---- What does not fit ----

  // The account at a place is read as the signer.
  ghost predicate ReadAsSigner(x: Message, signer: Key, external: External, ix: Ix<Key>, r: Instruction, k: nat) {
    && |r.accounts| == |ix.accounts| && k <= |ix.accounts| && IndexAt(r, k) == 0
    && x.accounts != [] && x.accounts[0] == signer
    && (if AccountAt(ix, k).ref in external then external[AccountAt(ix, k).ref] != 0
      else AccountAt(ix, k).key != signer)
  }

  lemma SignerInstead(x: Message, signer: Key, external: External, ix: Ix<Key>, r: Instruction, k: nat)
    requires ReadAsSigner(x, signer, external, ix, r, k)
    ensures !ReadsIx(x, external, ix, r)
  {
    assert !Reads(x, external, AccountAt(ix, k), IndexAt(r, k));
  }

  // The 257th account's index is written as zero, the signer's.
  lemma LargeTableMisreads(signer: Key, external: External, ixs: seq<Ix<Key>>, v0: bool, lookups: seq<WideLookup>)
    returns (i: nat, k: nat)
    requires |StaticKeys(signer, external, ixs)| > 256
    ensures var t := ReadTransaction(EncodeEdited(ToMessage(signer, external, ixs, v0, lookups)));
      && t.Some? && |t.value.instructions| == |ixs| && i < |ixs|
      && ReadAsSigner(t.value, signer, external, ixs[i], t.value.instructions[i], k)
  {
    hide ReadTransaction, WireMessage, CompileAll, FirstUses, NamesIx, ReadAsSigner, Uses, StaticKeys;
    WireIs(signer, external, ixs, v0, lookups);
    TableFacts(signer, external, ixs);
    TableSize(signer, external, ixs);
    var (keys, compiled) := CompileAll([signer], external, ixs);
    var key := keys[256];
    assert keys[0] == signer;
    FirstUsesHas(Uses(signer, external, ixs), key);
    UsesHas(signer, external, ixs, key);
    i :| 0 <= i < |ixs| && UsesKey(external, ixs[i], key);
    k :| 0 <= k <= |ixs[i].accounts| && AccountAt(ixs[i], k).ref !in external && AccountAt(ixs[i], k).key == key;
    assert NamesIx(keys, external, ixs[i], compiled[i]);
    WrapsToSigner(WireMessage(signer, external, ixs, v0, lookups), signer, external, ixs[i], compiled[i], k);
  }

  lemma WrapsToSigner(x: Message, signer: Key, external: External, ix: Ix<Key>, c: Compiled, k: nat)
    requires |x.accounts| > 256 && Distinct(x.accounts) && x.accounts[0] == signer
      && NamesIx(x.accounts, external, ix, c)
    requires k <= |ix.accounts| && AccountAt(ix, k).ref !in external && AccountAt(ix, k).key == x.accounts[256]
    ensures ReadAsSigner(x, signer, external, ix, NarrowIx(c), k)
  {
    var n := NamesAt(x.accounts, external, ix, c, k);
    assert n == 256;
  }

  lemma ReadIxFits(x: Message, external: External, ix: Ix<Key>, r: Instruction)
    requires ReadsIx(x, external, ix, r)
    ensures ExternalFits(external, ix)
  {
    forall k | 0 <= k <= |ix.accounts| && AccountAt(ix, k).ref in external
      ensures IsByte(external[AccountAt(ix, k).ref])
    {
      assert Reads(x, external, AccountAt(ix, k), IndexAt(r, k));
    }
  }

  lemma ReadAllFits(signer: Key, external: External, ixs: seq<Ix<Key>>, v0: bool, lookups: seq<WideLookup>)
    requires var t := ReadTransaction(EncodeEdited(ToMessage(signer, external, ixs, v0, lookups)));
      t.Some? && ReadsAll(t.value, external, ixs, lookups)
    ensures AllFit(signer, external, ixs, v0, lookups)
  {
    hide ReadTransaction, EncodeEdited, WireMessage, ReadsIx, CompileAll, StaticKeys, ExternalFits, ReadAsSigner,
      LookupFits;
    var x := WireMessage(signer, external, ixs, v0, lookups);
    WireIs(signer, external, ixs, v0, lookups);
    LookupsBack(lookups);
    if |StaticKeys(signer, external, ixs)| > 256 {
      var i, k := LargeTableMisreads(signer, external, ixs, v0, lookups);
      SignerInstead(x, signer, external, ixs[i], x.instructions[i], k);
    }
    forall i | 0 <= i < |ixs| ensures ExternalFits(external, ixs[i]) {
      ReadIxFits(x, external, ixs[i], x.instructions[i]);
    }
  }

  // Every number on the wire says what it was written for exactly when at most
  // 256 keys are used, and every external and lookup number is a byte.
  lemma IndicesReadBackIff(signer: Key, external: External, ixs: seq<Ix<Key>>, v0: bool, lookups: seq<WideLookup>)
    ensures var t := ReadTransaction(EncodeEdited(ToMessage(signer, external, ixs, v0, lookups)));
      && t.Some? && Addressed(t.value, signer, v0)
      && (ReadsAll(t.value, external, ixs, lookups) <==> AllFit(signer, external, ixs, v0, lookups))
  {
    WireIs(signer, external, ixs, v0, lookups);
    hide *;
    if AllFit(signer, external, ixs, v0, lookups) {
      TransactionReadsBack(signer, external, ixs, v0, lookups);
    }
    var t := ReadTransaction(EncodeEdited(ToMessage(signer, external, ixs, v0, lookups)));
    if t.Some? && ReadsAll(t.value, external, ixs, lookups) {
      ReadAllFits(signer, external, ixs, v0, lookups);
    }
  }

  // ---- The inputs ----

  function NumberedKey(n: nat): (k: Key)
    requires n < U16_LIMIT
  {
    U16(n) + Zeros(30)
  }

  lemma NumberedKeysDiffer(m: nat, n: nat)
    requires m < U16_LIMIT && n < U16_LIMIT && NumberedKey(m) == NumberedKey(n)
    ensures m == n
  {
    assert NumberedKey(m)[0] == NumberedKey(n)[0] && NumberedKey(m)[1] == NumberedKey(n)[1];
  }

  // One instruction over 256 accounts, numbered from 1; the last is its program.
  function ManyAccounts(): Ix<Key> {
    Ix(Account(256, NumberedKey(256)), seq(255, i requires 0 <= i < 255 => Account(i + 1, NumberedKey(i + 1))), [])
  }

  lemma ManyKeys()
    ensures |StaticKeys(NumberedKey(0), map[], [ManyAccounts()])| > 256
  {
    var keys := seq(257, n requires 0 <= n < 257 => NumberedKey(n));
    var all := StaticKeys(NumberedKey(0), map[], [ManyAccounts()]);
    forall i, j | 0 <= i < j < 257 ensures keys[i] != keys[j] {
      if keys[i] == keys[j] {
        NumberedKeysDiffer(i, j);
      }
    }
    forall key | key in keys ensures key in all {
      var n :| 0 <= n < 257 && keys[n] == key;
      if n > 0 {
        assert AccountAt([ManyAccounts()][0], n - 1).key == key;
      }
    }
    DistinctSize(keys, all);
  }

  // Its program's key is the 257th, and the program is read as the signer.
  lemma ManyAccountsMisread(v0: bool)
    ensures var t := ReadTransaction(EncodeEdited(ToMessage(NumberedKey(0), map[], [ManyAccounts()], v0, [])));
      t.Some? && |t.value.instructions| == 1
      && exists k :: ReadAsSigner(t.value, NumberedKey(0), map[], ManyAccounts(), t.value.instructions[0], k)
  {
    ManyKeys();
    hide ReadTransaction, EncodeEdited, ReadAsSigner, StaticKeys, ToMessage;
    var i, k := LargeTableMisreads(NumberedKey(0), map[], [ManyAccounts()], v0, []);
  }

  // An external account whose number is a nonzero multiple of 256 is read as
  // the signer too.
  lemma ExternalMisreads(signer: Key, external: External, ixs: seq<Ix<Key>>, v0: bool, lookups: seq<WideLookup>,
      i: nat, k: nat)
    requires i < |ixs| && k <= |ixs[i].accounts| && AccountAt(ixs[i], k).ref in external
    requires external[AccountAt(ixs[i], k).ref] % 256 == 0 != external[AccountAt(ixs[i], k).ref]
    ensures var t := ReadTransaction(EncodeEdited(ToMessage(signer, external, ixs, v0, lookups)));
      t.Some? && |t.value.instructions| == |ixs|
        && ReadAsSigner(t.value, signer, external, ixs[i], t.value.instructions[i], k)
  {
    hide ReadTransaction, EncodeEdited, WireMessage, CompileAll, FirstUses, NamesIx, Uses, ToMessage, NarrowIx;
    WireIs(signer, external, ixs, v0, lookups);
    TableFacts(signer, external, ixs);
    var (keys, compiled) := CompileAll([signer], external, ixs);
    assert NamesIx(keys, external, ixs[i], compiled[i]);
    var n := NamesAt(keys, external, ixs[i], compiled[i], k);
    SameLength(keys, external, ixs[i], compiled[i]);
    assert keys[0] == signer;
  }

  lemma SameLength(keys: seq<Key>, external: External, ix: Ix<Key>, c: Compiled)
    requires NamesIx(keys, external, ix, c)
    ensures |NarrowIx(c).accounts| == |ix.accounts|
  {
  }

  // One such input: a single account, whose number is 256.
  lemma ExternalMisread(v0: bool)
    ensures var external, ix := map[5 := 256], Ix(Account(6, Filler(0x77)), [Account(5, Filler(0x22))], []);
      var t := ReadTransaction(EncodeEdited(ToMessage(Filler(0x11), external, [ix], v0, [])));
      && t.Some? && |t.value.instructions| == 1
      && ReadAsSigner(t.value, Filler(0x11), external, ix, t.value.instructions[0], 0)
  {
    hide ReadTransaction, EncodeEdited, ToMessage, ReadAsSigner;
    ExternalMisreads(Filler(0x11), map[5 := 256], [Ix(Account(6, Filler(0x77)), [Account(5, Filler(0x22))], [])],
      v0, [], 0, 0);
  }
}
