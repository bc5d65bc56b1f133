// Messages as the editor holds them, with numbers of any size, and which of
// them survive being written with one byte a number.
module SolanaEdit {
  import opened Basics
  import opened Bytes
  import opened Codec
  import opened SolanaWire
  import opened AccountTable

  datatype WideLookup = WideLookup(key: Key, writable: seq<int>, readonly: seq<int>)
  datatype WideHeader = WideHeader(signatures: nat, readonlySigned: int, readonlyUnsigned: int)
  datatype WideMessage = WideMessage(
    v0: bool, header: WideHeader, accounts: seq<Key>, blockhash: Key,
    instructions: seq<Compiled>, lookups: seq<WideLookup>)

  // Buffer.from keeps each number's low byte.
  function LowByte(n: int): Byte {
    n % 256
  }

  function MapAll<A, B>(f: A -> B, s: seq<A>): (r: seq<B>)
    ensures |r| == |s| && forall i :: 0 <= i < |s| ==> r[i] == f(s[i])
  {
    seq(|s|, i requires 0 <= i < |s| => f(s[i]))
  }

  function LowBytes(ns: seq<int>): Buffer {
    MapAll(LowByte, ns)
  }

  function NarrowIx(c: Compiled): Instruction {
    Instruction(LowByte(c.program), LowBytes(c.accounts), c.data)
  }

  function NarrowLookup(l: WideLookup): Lookup {
    Lookup(l.key, LowBytes(l.writable), LowBytes(l.readonly))
  }

  function NarrowHeader(h: WideHeader): Header {
    Header(LowByte(h.signatures), LowByte(h.readonlySigned), LowByte(h.readonlyUnsigned))
  }

  function Narrow(m: WideMessage): Message {
    Message(m.v0, NarrowHeader(m.header), m.accounts, m.blockhash,
      MapAll(NarrowIx, m.instructions), MapAll(NarrowLookup, m.lookups))
  }

  // The edited transaction; its slots are counted by the whole number.
  function EncodeEdited(m: WideMessage): Buffer {
    Compact(m.header.signatures) + Zeros(64 * m.header.signatures) + EncodeMessage(Narrow(m))
  }

  // ---- What the bytes say, as an editor's message ----

  function WidenIx(ix: Instruction): Compiled {
    Compiled(ix.program, ix.accounts, ix.data)
  }

  function WidenLookup(l: Lookup): WideLookup {
    WideLookup(l.key, l.writable, l.readonly)
  }

  function Widen(m: Message): WideMessage {
    WideMessage(m.v0, WideHeader(m.header.signatures, m.header.readonlySigned, m.header.readonlyUnsigned),
      m.accounts, m.blockhash, MapAll(WidenIx, m.instructions), MapAll(WidenLookup, m.lookups))
  }

  predicate IsByte(n: int) {
    0 <= n < 256
  }

  predicate AreBytes(ns: seq<int>) {
    forall i :: 0 <= i < |ns| ==> IsByte(ns[i])
  }

  predicate IxFits(c: Compiled) {
    IsByte(c.program) && AreBytes(c.accounts)
  }

  predicate LookupFits(l: WideLookup) {
    AreBytes(l.writable) && AreBytes(l.readonly)
  }

  predicate LookupsFit(ls: seq<WideLookup>) {
    forall i :: 0 <= i < |ls| ==> LookupFits(ls[i])
  }

  predicate Fits(m: WideMessage) {
    && IsByte(m.header.signatures) && IsByte(m.header.readonlySigned) && IsByte(m.header.readonlyUnsigned)
    && (forall i :: 0 <= i < |m.instructions| ==> IxFits(m.instructions[i]))
    && (m.v0 ==> LookupsFit(m.lookups))
  }

  function Sent(m: WideMessage): WideMessage {
    if m.v0 then m else m.(lookups := [])
  }

  lemma LowBytesFit(ns: seq<int>)
    ensures LowBytes(ns) == ns <==> AreBytes(ns)
  {
    if LowBytes(ns) == ns {
      forall i | 0 <= i < |ns| ensures IsByte(ns[i]) {
        assert LowBytes(ns)[i] == LowByte(ns[i]);
      }
    }
  }

  lemma IxFit(c: Compiled)
    ensures WidenIx(NarrowIx(c)) == c <==> IxFits(c)
  {
    LowBytesFit(c.accounts);
  }

  lemma LookupFit(l: WideLookup)
    ensures WidenLookup(NarrowLookup(l)) == l <==> LookupFits(l)
  {
    LowBytesFit(l.writable);
    LowBytesFit(l.readonly);
  }

  // Mapping each element to itself is leaving the list alone.
  lemma ThereAndBack<A, B>(f: A -> B, g: B -> A, s: seq<A>)
    ensures MapAll(g, MapAll(f, s)) == s <==> forall i :: 0 <= i < |s| ==> g(f(s[i])) == s[i]
  {
    var t := MapAll(g, MapAll(f, s));
    assert forall i :: 0 <= i < |s| ==> t[i] == g(f(s[i]));
  }

  lemma IxsFit(cs: seq<Compiled>)
    ensures MapAll(WidenIx, MapAll(NarrowIx, cs)) == cs <==> forall i :: 0 <= i < |cs| ==> IxFits(cs[i])
  {
    hide WidenIx, NarrowIx, IxFits, MapAll;
    ThereAndBack(NarrowIx, WidenIx, cs);
    forall i | 0 <= i < |cs| ensures WidenIx(NarrowIx(cs[i])) == cs[i] <==> IxFits(cs[i]) {
      IxFit(cs[i]);
    }
  }

  lemma LookupsBack(ls: seq<WideLookup>)
    ensures MapAll(WidenLookup, MapAll(NarrowLookup, ls)) == ls <==> LookupsFit(ls)
  {
    hide WidenLookup, NarrowLookup, LookupFits, MapAll;
    ThereAndBack(NarrowLookup, WidenLookup, ls);
    forall i | 0 <= i < |ls| ensures WidenLookup(NarrowLookup(ls[i])) == ls[i] <==> LookupFits(ls[i]) {
      LookupFit(ls[i]);
    }
  }

  lemma WidenNarrow(m: WideMessage)
    ensures Widen(OnWire(Narrow(m))) == Sent(m) <==> Fits(m)
  {
    IxsFit(m.instructions);
    LookupsBack(m.lookups);
    hide IxFits, LookupsFit, NarrowIx, NarrowLookup, WidenIx, WidenLookup;
  }

  lemma NarrowWiden(x: Message)
    ensures Narrow(Widen(x)) == x
  {
    assert forall ix :: NarrowIx(WidenIx(ix)).accounts == ix.accounts;
    assert forall l :: NarrowLookup(WidenLookup(l)) == l;
    assert Narrow(Widen(x)).instructions == x.instructions;
    assert Narrow(Widen(x)).lookups == x.lookups;
  }

  // A message some bytes say is one whose numbers are bytes.
  lemma SaidFits(x: Message, m: WideMessage)
    requires Widen(x) == Sent(m)
    ensures Fits(m) && x == OnWire(Narrow(m))
  {
    NarrowWiden(x);
    assert x == Narrow(Sent(m));
    assert Narrow(Sent(m)) == OnWire(Narrow(m));
    WidenNarrow(m);
  }

  // An edited transaction decodes to the message that was edited exactly when
  // each of its numbers fits a byte and its first byte says its version.
  lemma EditedBackIff(m: WideMessage)
    ensures var t := ReadTransaction(EncodeEdited(m));
      t.Some? && Widen(t.value) == Sent(m) <==> Fits(m) && (m.v0 || m.header.signatures < 128)
  {
    hide Widen, Fits, Sent, Narrow, ReadTransaction, EncodeMessage, Compact, Zeros;
    var t := ReadTransaction(EncodeEdited(m));
    if Fits(m) {
      SameHeader(m);
      TransactionBackIff(Narrow(m));
      WidenNarrow(m);
    }
    if t.Some? && Widen(t.value) == Sent(m) {
      SaidFits(t.value, m);
      SameHeader(m);
      TransactionBackIff(Narrow(m));
    }
  }

  lemma SameHeader(m: WideMessage)
    requires Fits(m)
    ensures EncodeEdited(m) == EncodeTransaction(Narrow(m))
    ensures Narrow(m).v0 == m.v0 && Narrow(m).header.signatures == m.header.signatures
  {
  }
}
