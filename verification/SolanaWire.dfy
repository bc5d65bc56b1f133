// Solana wire messages: the compact length prefix, the nested message layout,
// and a decoder written from the public transaction format.
module SolanaWire {
  import opened Basics
  import opened Bytes
  import opened Codec

  // ---- Compact lengths ----

  const LENGTH_LIMIT: nat := 0x8000_0000

  // Seven bits a byte, low bits first, the high bit set on all but the last.
  function Compact(n: nat): (r: Buffer)
    ensures r != []
  {
    if n < 128 then [n] else [n % 128 + 128] + Compact(n / 128)
  }

  // The only accepted spelling of a length has no padding byte at its end.
  function ReadCompact(b: Buffer): Read<nat> {
    if b == [] then Fail
    else if b[0] < 128 then Got(b[0], b[1..])
    else
      var high := ReadCompact(b[1..]);
      if high.Fail? || high.value == 0 then Fail else Got(b[0] - 128 + 128 * high.value, high.rest)
  }

  // compactU16's do-while loop; lengths are below the 32-bit shift's sign bit.
  method CompactU16(value: nat) returns (out: Buffer)
    requires value < LENGTH_LIMIT
    ensures out == Compact(value)
  {
    var v := value;
    out := [];
    var more := true;
    while more
      invariant more ==> out + Compact(v) == Compact(value)
      invariant !more ==> out == Compact(value)
      decreases more, v
    {
      var low := v % 128;
      ghost var w := v;
      v := v / 128;
      assert Compact(w) == if v > 0 then [low + 128] + Compact(v) else [low];
      assert out + ([low + 128] + Compact(v)) == (out + [low + 128]) + Compact(v);
      out := out + [if v > 0 then low + 128 else low];
      more := v > 0;
    }
  }

  // compact's endless loop, returning from inside.
  method CompactLoop(n: nat) returns (out: Buffer)
    requires n < LENGTH_LIMIT
    ensures out == Compact(n)
  {
    var v := n;
    out := [];
    while true
      invariant out + Compact(v) == Compact(n)
      decreases v
    {
      var b := v % 128;
      if v / 128 == 0 {
        return out + [b];
      }
      assert out + ([b + 128] + Compact(v / 128)) == (out + [b + 128]) + Compact(v / 128);
      v := v / 128;
      out := out + [b + 128];
    }
  }

  lemma {:induction false} CompactBack(n: nat, rest: Buffer)
    ensures ReadCompact(Compact(n) + rest) == Got(n, rest)
  {
    var b := Compact(n) + rest;
    if n < 128 {
      assert b[1..] == rest;
    } else {
      CompactBack(n / 128, rest);
      assert b[1..] == Compact(n / 128) + rest;
    }
  }

  // Whatever reads as a length is that length's encoding.
  lemma {:induction false} CompactOnly(b: Buffer)
    requires ReadCompact(b).Got?
    ensures b == Compact(ReadCompact(b).value) + ReadCompact(b).rest
  {
    if b[0] < 128 {
      assert b == [b[0]] + b[1..];
    } else {
      CompactOnly(b[1..]);
      var high := ReadCompact(b[1..]);
      var n := ReadCompact(b).value;
      assert n / 128 == high.value && n % 128 == b[0] - 128;
      assert b == [b[0]] + (Compact(high.value) + high.rest);
    }
  }

  // ---- Messages ----

  type Key = k: Buffer | |k| == 32 witness Zeros(32)

  datatype Instruction = Instruction(program: Byte, accounts: Buffer, data: Buffer)
  datatype Lookup = Lookup(key: Key, writable: Buffer, readonly: Buffer)
  datatype Header = Header(signatures: Byte, readonlySigned: Byte, readonlyUnsigned: Byte)
  datatype Message = Message(
    v0: bool, header: Header, accounts: seq<Key>, blockhash: Key,
    instructions: seq<Instruction>, lookups: seq<Lookup>)

  function WithLength(b: Buffer): Buffer {
    Compact(|b|) + b
  }

  function EncodeKey(k: Key): Buffer {
    k
  }

  function EncodeInstruction(ix: Instruction): Buffer {
    [ix.program] + WithLength(ix.accounts) + WithLength(ix.data)
  }

  function EncodeLookup(l: Lookup): Buffer {
    l.key + WithLength(l.writable) + WithLength(l.readonly)
  }

  function EncodeHeader(h: Header): Buffer {
    [h.signatures, h.readonlySigned, h.readonlyUnsigned]
  }

  function Counted<T>(encode: T -> Buffer, xs: seq<T>): Buffer {
    Compact(|xs|) + EncodeAll(encode, xs)
  }

  function EncodeMessage(m: Message): Buffer {
    (if m.v0 then [0x80] else []) + EncodeHeader(m.header)
    + Counted(EncodeKey, m.accounts) + m.blockhash
    + Counted(EncodeInstruction, m.instructions)
    + (if m.v0 then Counted(EncodeLookup, m.lookups) else [])
  }

  // A transaction with empty signature slots.
  function EncodeTransaction(m: Message): Buffer {
    Compact(m.header.signatures) + Zeros(64 * m.header.signatures) + EncodeMessage(m)
  }

  // ---- The decoder ----

  function ReadVector(b: Buffer): Read<Buffer> {
    var n := ReadCompact(b);
    if n.Fail? then Fail else ReadBytes(n.rest, n.value)
  }

  function ReadKey(b: Buffer): Read<Key> {
    if |b| < 32 then Fail
    else
      var key: Key := b[..32];
      Got(key, b[32..])
  }

  function ReadInstruction(b: Buffer): Read<Instruction> {
    if b == [] then Fail
    else
      var accounts := ReadVector(b[1..]);
      if accounts.Fail? then Fail
      else
        var data := ReadVector(accounts.rest);
        if data.Fail? then Fail else Got(Instruction(b[0], accounts.value, data.value), data.rest)
  }

  function ReadLookup(b: Buffer): Read<Lookup> {
    var key := ReadKey(b);
    if key.Fail? then Fail
    else
      var writable := ReadVector(key.rest);
      if writable.Fail? then Fail
      else
        var readonly := ReadVector(writable.rest);
        if readonly.Fail? then Fail else Got(Lookup(key.value, writable.value, readonly.value), readonly.rest)
  }

  function ReadCounted<T>(read: Buffer -> Read<T>, b: Buffer): Read<seq<T>> {
    var n := ReadCompact(b);
    if n.Fail? then Fail else ReadMany(read, n.value, n.rest)
  }

  // A first byte with its high bit set is a version, and only version 0 is known.
  function ReadMessage(b: Buffer): Read<Message> {
    if b == [] then Fail
    else if b[0] >= 128 then (if b[0] == 0x80 then ReadBody(true, b[1..]) else Fail)
    else ReadBody(false, b)
  }

  function ReadBody(v0: bool, b: Buffer): Read<Message> {
    if |b| < 3 then Fail
    else
      var accounts := ReadCounted(ReadKey, b[3..]);
      if accounts.Fail? then Fail
      else
        var blockhash := ReadKey(accounts.rest);
        if blockhash.Fail? then Fail
        else ReadTail(v0, Header(b[0], b[1], b[2]), accounts.value, blockhash.value, blockhash.rest)
  }

  function ReadTail(v0: bool, h: Header, accounts: seq<Key>, blockhash: Key, b: Buffer): Read<Message> {
    var instructions := ReadCounted(ReadInstruction, b);
    if instructions.Fail? then Fail
    else if !v0 then Got(Message(v0, h, accounts, blockhash, instructions.value, []), instructions.rest)
    else
      var lookups := ReadCounted(ReadLookup, instructions.rest);
      if lookups.Fail? then Fail
      else Got(Message(v0, h, accounts, blockhash, instructions.value, lookups.value), lookups.rest)
  }

  // Signature count, that many 64-byte slots, and the message up to the end.
  function ReadTransaction(b: Buffer): Option<Message> {
    var n := ReadCompact(b);
    if n.Fail? || |n.rest| < 64 * n.value then None
    else
      var m := ReadMessage(n.rest[64 * n.value..]);
      if m.Got? && m.rest == [] && m.value.header.signatures == n.value then Some(m.value) else None
  }

  // ---- Decoding undoes encoding ----

  lemma VectorBack(v: Buffer, rest: Buffer)
    ensures ReadVector(WithLength(v) + rest) == Got(v, rest)
  {
    assert WithLength(v) + rest == Compact(|v|) + (v + rest);
    CompactBack(|v|, v + rest);
    ReadBytesBack(v, rest);
  }

  lemma KeyBack(k: Key)
    ensures Undoes(ReadKey, EncodeKey, k)
  {
    forall rest: Buffer ensures ReadKey(EncodeKey(k) + rest) == Got(k, rest) {
      ReadBytesBack(k, rest);
    }
  }

  lemma InstructionBack(ix: Instruction)
    ensures Undoes(ReadInstruction, EncodeInstruction, ix)
  {
    forall rest: Buffer ensures ReadInstruction(EncodeInstruction(ix) + rest) == Got(ix, rest) {
      var b := EncodeInstruction(ix) + rest;
      assert b[1..] == WithLength(ix.accounts) + (WithLength(ix.data) + rest);
      VectorBack(ix.accounts, WithLength(ix.data) + rest);
      VectorBack(ix.data, rest);
    }
  }

  lemma LookupBack(l: Lookup)
    ensures Undoes(ReadLookup, EncodeLookup, l)
  {
    forall rest: Buffer ensures ReadLookup(EncodeLookup(l) + rest) == Got(l, rest) {
      var tail := WithLength(l.writable) + (WithLength(l.readonly) + rest);
      assert EncodeLookup(l) + rest == l.key + tail;
      ReadBytesBack(l.key, tail);
      VectorBack(l.writable, WithLength(l.readonly) + rest);
      VectorBack(l.readonly, rest);
    }
  }

  lemma CountedBack<T>(read: Buffer -> Read<T>, encode: T -> Buffer, xs: seq<T>, rest: Buffer)
    requires forall i :: 0 <= i < |xs| ==> Undoes(read, encode, xs[i])
    ensures ReadCounted(read, Counted(encode, xs) + rest) == Got(xs, rest)
  {
    assert Counted(encode, xs) + rest == Compact(|xs|) + (EncodeAll(encode, xs) + rest);
    CompactBack(|xs|, EncodeAll(encode, xs) + rest);
    ReadManyBack(read, encode, xs, rest);
  }

  // What a message means on the wire: a legacy message has no lookup entries.
  function OnWire(m: Message): Message {
    if m.v0 then m else m.(lookups := [])
  }

  function Tail(m: Message): Buffer {
    Counted(EncodeInstruction, m.instructions) + (if m.v0 then Counted(EncodeLookup, m.lookups) else [])
  }

  lemma TailBack(m: Message, rest: Buffer)
    ensures ReadTail(m.v0, m.header, m.accounts, m.blockhash, Tail(m) + rest) == Got(OnWire(m), rest)
  {
    var lookups := if m.v0 then Counted(EncodeLookup, m.lookups) else [];
    assert Tail(m) + rest == Counted(EncodeInstruction, m.instructions) + (lookups + rest);
    forall i | 0 <= i < |m.instructions| ensures Undoes(ReadInstruction, EncodeInstruction, m.instructions[i]) {
      InstructionBack(m.instructions[i]);
    }
    CountedBack(ReadInstruction, EncodeInstruction, m.instructions, lookups + rest);
    if m.v0 {
      forall i | 0 <= i < |m.lookups| ensures Undoes(ReadLookup, EncodeLookup, m.lookups[i]) {
        LookupBack(m.lookups[i]);
      }
      CountedBack(ReadLookup, EncodeLookup, m.lookups, rest);
    } else {
      assert [] + rest == rest;
    }
  }

  function Body(m: Message): Buffer {
    EncodeHeader(m.header) + (Counted(EncodeKey, m.accounts) + (m.blockhash + Tail(m)))
  }

  lemma BodyBack(m: Message, rest: Buffer)
    ensures ReadBody(m.v0, Body(m) + rest) == Got(OnWire(m), rest)
  {
    var b := Body(m) + rest;
    var afterAccounts := m.blockhash + (Tail(m) + rest);
    assert b[3..] == Counted(EncodeKey, m.accounts) + afterAccounts;
    forall i | 0 <= i < |m.accounts| ensures Undoes(ReadKey, EncodeKey, m.accounts[i]) {
      KeyBack(m.accounts[i]);
    }
    CountedBack(ReadKey, EncodeKey, m.accounts, afterAccounts);
    ReadBytesBack(m.blockhash, Tail(m) + rest);
    TailBack(m, rest);
  }

  lemma MessageIsBody(m: Message)
    ensures EncodeMessage(m) == (if m.v0 then [0x80] else []) + Body(m)
  {
  }

  // A message decodes to itself, whatever follows it, exactly when its first
  // byte says its version: it is v0, or asks for fewer than 128 signatures.
  lemma MessageBackIff(m: Message, rest: Buffer)
    ensures ReadMessage(EncodeMessage(m) + rest) == Got(OnWire(m), rest) <==> m.v0 || m.header.signatures < 128
  {
    var b := EncodeMessage(m) + rest;
    MessageIsBody(m);
    if m.v0 {
      assert b[1..] == Body(m) + rest;
      BodyBack(m, rest);
    } else {
      assert b == Body(m) + rest;
      assert b[0] == m.header.signatures;
      BodyBack(m, rest);
    }
  }

  // Past 128 signatures the first byte of a legacy message is an unknown version;
  // at 128 it is version 0, and whatever is then read is a v0 message.
  lemma LegacyMisreads(m: Message, rest: Buffer)
    requires !m.v0 && m.header.signatures >= 128
    ensures var r := ReadMessage(EncodeMessage(m) + rest);
      r.Got? ==> m.header.signatures == 128 && r.value.v0
  {
    MessageIsBody(m);
    var b := EncodeMessage(m) + rest;
    assert b[0] == m.header.signatures;
  }

  // A legacy message for 128 signatures, and the v0 message with its bytes.
  function LegacyLimit(): Message {
    Message(false, Header(128, 0, 0), [], Zeros(32), [Instruction(0, [0], Zeros(32))], [])
  }

  function ReadsAsV0(): Message {
    Message(true, Header(0, 0, 0), [], Zeros(31) + [1], [], [Lookup([0, 32] + Zeros(30), [], [])])
  }

  lemma LegacyReadsAsV0()
    ensures ReadMessage(EncodeMessage(LegacyLimit())) == Got(ReadsAsV0(), [])
  {
    SameBytes();
    MessageBackIff(ReadsAsV0(), []);
    assert EncodeMessage(ReadsAsV0()) + [] == EncodeMessage(ReadsAsV0());
  }

  lemma SameBytes()
    ensures EncodeMessage(LegacyLimit()) == EncodeMessage(ReadsAsV0())
  {
    LegacyBytes();
    V0Bytes();
    assert Zeros(32) == Zeros(31) + [0];
    assert [0] + Zeros(31) == Zeros(32) && Zeros(32) == Zeros(30) + [0, 0];
  }

  lemma LegacyBytes()
    ensures EncodeMessage(LegacyLimit()) == [128, 0, 0, 0] + Zeros(32) + [1, 0, 1, 0, 32] + Zeros(32)
  {
    var ix := Instruction(0, [0], Zeros(32));
    assert EncodeAll(EncodeInstruction, [ix]) == EncodeInstruction(ix);
    assert EncodeInstruction(ix) == [0, 1, 0, 32] + Zeros(32);
  }

  lemma V0Bytes()
    ensures EncodeMessage(ReadsAsV0()) == [128, 0, 0, 0, 0] + Zeros(31) + [1, 0, 1, 0, 32] + Zeros(30) + [0, 0]
  {
    var m := ReadsAsV0();
    OneLookup(m.lookups[0]);
    assert Counted(EncodeKey, m.accounts) == [0];
    assert Counted(EncodeInstruction, m.instructions) == [0];
    hide Counted, EncodeAll, EncodeLookup, Compact;
  }

  lemma OneLookup(l: Lookup)
    requires l.writable == l.readonly == []
    ensures Counted(EncodeLookup, [l]) == [1] + l.key + [0, 0]
  {
    assert EncodeAll(EncodeLookup, [l]) == EncodeLookup(l);
  }

  // A transaction decodes to its message under the same condition.
  lemma TransactionBackIff(m: Message)
    ensures ReadTransaction(EncodeTransaction(m)) == Some(OnWire(m)) <==> m.v0 || m.header.signatures < 128
  {
    var slots := Zeros(64 * m.header.signatures);
    assert EncodeTransaction(m) == Compact(m.header.signatures) + (slots + EncodeMessage(m));
    CompactBack(m.header.signatures, slots + EncodeMessage(m));
    assert (slots + EncodeMessage(m))[|slots|..] == EncodeMessage(m);
    MessageBackIff(m, []);
    assert EncodeMessage(m) + [] == EncodeMessage(m);
  }
}
