// Certified contacts: bringing one to canonical form, the bytes that stand for
// it, and reading those bytes back.
module Contacts {
  import opened Basics
  import opened Bytes
  import opened Strings
  import opened Hex
  import opened Codec

  const EVM_ADDRESS: int := 1
  const NETWORK_MAX: nat := 63
  const DESTINATION_DIGITS_MAX: nat := 128
  const LABEL_MAX: nat := 24

  datatype Contact = Contact(network: string, destinationType: int, destination: string, name: string)

  datatype ContactError = BadNetwork | BadType | BadDestination | BadEvm | BadLabel

  predicate IsNameChar(c: char) {
    'A' <= c <= 'Z' || 'a' <= c <= 'z' || '0' <= c <= '9' || c == '-'
  }

  // Two non-empty names with one colon between them.
  predicate IsCaip2(s: string) {
    var colon := IndexOf(s, ':');
    0 < colon < |s| - 1 && forall i :: 0 <= i < |s| && i != colon ==> IsNameChar(s[i])
  }

  // A hyphen, a digit, or a letter of either case, by its ASCII code.
  predicate IsNamePart(c: char) {
    var code := c as int;
    code == 45 || 48 <= code <= 57 || 65 <= code <= 90 || 97 <= code <= 122
  }

  // A network is named by two parts that are not empty, with a colon between them.
  lemma Caip2Iff(s: string)
    ensures IsCaip2(s) <==>
      exists i :: 0 < i < |s| - 1 && s[i] == ':' && forall k :: 0 <= k < |s| && k != i ==> IsNamePart(s[k])
  {
    assert forall c: char :: IsNameChar(c) <==> IsNamePart(c);
    assert !IsNamePart(':');
    hide IsNameChar, IsNamePart;
    if i :| 0 < i < |s| - 1 && s[i] == ':' && forall k :: 0 <= k < |s| && k != i ==> IsNamePart(s[k]) {
      IndexIs(s, ':', i);
    }
  }

  function StripHexPrefix(s: string): string {
    if "0x" <= s then s[2..] else s
  }

  function Normalize(c: Contact): Result<Contact, ContactError> {
    var network := Trim(c.network);
    var destination := StripHexPrefix(Lower(c.destination));
    var name := Trim(c.name);
    if !IsCaip2(network) || |network| > NETWORK_MAX then Err(BadNetwork)
    else if !(0 < c.destinationType <= 255) then Err(BadType)
    else if destination == "" || !IsLowerHex(destination) || |destination| % 2 != 0
      || |destination| > DESTINATION_DIGITS_MAX then Err(BadDestination)
    else if c.destinationType == EVM_ADDRESS && !("eip155:" <= network && |destination| == 40) then Err(BadEvm)
    else if !IsPlain(name, LABEL_MAX) then Err(BadLabel)
    else Ok(Contact(network, c.destinationType, destination, name))
  }

  // What a contact must look like for its bytes to mean it.
  predicate Canonical(c: Contact) {
    && IsCaip2(c.network) && |c.network| <= 63
    && 0 < c.destinationType <= 255
    && c.destination != "" && IsLowerHex(c.destination) && |c.destination| % 2 == 0 && |c.destination| <= 128
    && (c.destinationType == 1 ==> "eip155:" <= c.network && |c.destination| == 40)
    && IsPlain(c.name, 24) && Trimmed(c.name)
  }

  // The text names destination d, in any case and with or without 0x.
  predicate Names(destination: string, d: string) {
    Lower(destination) == d || Lower(destination) == "0x" + d
  }

  // c is r but for spaces around its network and name, and for the case and
  // prefix of its destination.
  ghost predicate Spells(c: Contact, r: Contact) {
    && Spaced(c.network, r.network) && c.destinationType == r.destinationType
    && Names(c.destination, r.destination) && Spaced(c.name, r.name)
  }

  lemma StripIff(destination: string, d: string)
    requires IsLowerHex(d)
    ensures StripHexPrefix(Lower(destination)) == d <==> Names(destination, d)
  {
    var s := Lower(destination);
    assert |d| < 2 || d[1] != 'x';
    if s == "0x" + d {
      assert s[2..] == d;
    }
    if "0x" <= s {
      assert s == "0x" + s[2..];
    }
  }

  lemma NoEmptyNetwork(s: string)
    requires IsCaip2(s)
    ensures s != "" && Trimmed(s)
  {
    NoSpaces(s);
  }

  // What is certified is what was given: a contact is accepted exactly when it
  // spells a canonical one, and that is its normal form.
  lemma NormalizeIff(c: Contact, r: Contact)
    ensures Normalize(c) == Ok(r) <==> Canonical(r) && Spells(c, r)
  {
    hide IsCaip2, IsPlain, IsLowerHex, StripHexPrefix, Trim, Trimmed, Spaced, Names;
    if Normalize(c) == Ok(r) {
      NormalizeIsCanonical(c);
    }
    if Canonical(r) {
      NoEmptyNetwork(r.network);
      PlainSome(r.name, 24);
      TrimIff(c.network, r.network);
      TrimIff(c.name, r.name);
      StripIff(c.destination, r.destination);
    }
  }

  lemma PlainSome(s: string, max: nat)
    requires IsPlain(s, max)
    ensures s != ""
  {
  }

  lemma NormalizeIsCanonical(c: Contact)
    requires Normalize(c).Ok?
    ensures Canonical(Normalize(c).value)
  {
    hide IsCaip2, IsPlain, IsLowerHex;
    TrimTrims(c.name);
  }

  lemma NoSpaces(s: string)
    requires IsCaip2(s)
    ensures Trimmed(s) && IsAscii(s)
  {
    var colon := IndexOf(s, ':');
    forall i | 0 <= i < |s| ensures s[i] as int < 128 && !IsSpace(s[i]) {
      assert i != colon ==> IsNameChar(s[i]);
    }
  }

  lemma LowerHexFixed(s: string)
    requires IsLowerHex(s)
    ensures StripHexPrefix(Lower(s)) == s
  {
    assert Lower(s) == s;
    assert |s| < 2 || s[1] != 'x';
  }

  // A contact is its own normal form exactly when it is canonical, so normal
  // forms are stable.
  lemma FixedIffCanonical(c: Contact)
    ensures Normalize(c) == Ok(c) <==> Canonical(c)
  {
    if Canonical(c) {
      NoSpaces(c.network);
      TrimFixed(c.network);
      TrimFixed(c.name);
      LowerHexFixed(c.destination);
      hide IsCaip2, IsPlain, IsLowerHex, StripHexPrefix, Trim, Trimmed;
    } else if Normalize(c) == Ok(c) {
      NormalizeIsCanonical(c);
    }
  }

  lemma NormalizeIdempotent(c: Contact)
    requires Normalize(c).Ok?
    ensures Normalize(Normalize(c).value) == Normalize(c)
  {
    NormalizeIsCanonical(c);
    FixedIffCanonical(Normalize(c).value);
  }

  // ---- Bytes ----

  function Counted(part: Buffer): Buffer {
    [|part| % 256] + part
  }

  datatype Fields = Fields(network: Buffer, kind: Byte, destination: Buffer, name: Buffer)

  function FieldBytes(f: Fields): Buffer {
    Counted(f.network) + ([f.kind] + (Counted(f.destination) + Counted(f.name)))
  }

  function ToFields(c: Contact): Fields {
    Fields(Ascii(c.network), c.destinationType % 256, HexDecode(c.destination), Ascii(c.name))
  }

  function FromFields(f: Fields): Contact {
    Contact(Text(f.network), f.kind, HexEncode(f.destination), Text(f.name))
  }

  function EntryBytes(c: Contact): Buffer {
    FieldBytes(ToFields(c))
  }

  function ReadCounted(b: Buffer): Read<Buffer> {
    if b == [] then Fail else ReadBytes(b[1..], b[0])
  }

  function ReadFields(b: Buffer): Read<Fields> {
    var network := ReadCounted(b);
    if network.Fail? || network.rest == [] then Fail
    else
      var destination := ReadCounted(network.rest[1..]);
      if destination.Fail? then Fail
      else
        var name := ReadCounted(destination.rest);
        if name.Fail? then Fail
        else Got(Fields(network.value, network.rest[0], destination.value, name.value), name.rest)
  }

  function ReadEntry(b: Buffer): Read<Contact> {
    var fields := ReadFields(b);
    if fields.Fail? then Fail else Got(FromFields(fields.value), fields.rest)
  }

  lemma CountedBack(part: Buffer, rest: Buffer)
    requires |part| < 256
    ensures ReadCounted(Counted(part) + rest) == Got(part, rest)
  {
    assert (Counted(part) + rest)[1..] == part + rest;
    ReadBytesBack(part, rest);
  }

  lemma FieldsBack(f: Fields, rest: Buffer)
    requires |f.network| < 256 && |f.destination| < 256 && |f.name| < 256
    ensures ReadFields(FieldBytes(f) + rest) == Got(f, rest)
  {
    hide Counted, ReadCounted;
    var name := Counted(f.name) + rest;
    var destination := Counted(f.destination) + name;
    var kind := [f.kind] + destination;
    assert kind[1..] == destination;
    assert FieldBytes(f) + rest == Counted(f.network) + kind;
    CountedBack(f.network, kind);
    CountedBack(f.destination, name);
    CountedBack(f.name, rest);
  }

  lemma ContactFields(c: Contact)
    requires Canonical(c)
    ensures var f := ToFields(c);
      FromFields(f) == c && |f.network| <= NETWORK_MAX && |f.destination| <= 64 && |f.name| <= LABEL_MAX
  {
    HexForth(c.destination);
    NoSpaces(c.network);
    AsciiRoundTrip(c.network);
    hide IsCaip2, IsLowerHex, Ascii, Text, HexDecode, HexEncode, Trimmed;
  }

  // An entry is recovered from its bytes whatever follows them.
  lemma EntryBack(c: Contact, rest: Buffer)
    requires Canonical(c)
    ensures ReadEntry(EntryBytes(c) + rest) == Got(c, rest)
  {
    hide Canonical, ToFields, FromFields, FieldBytes, ReadFields;
    ContactFields(c);
    FieldsBack(ToFields(c), rest);
  }

  lemma EntryUndone(c: Contact)
    requires Canonical(c)
    ensures Undoes(ReadEntry, EntryBytes, c)
  {
    forall rest ensures ReadEntry(EntryBytes(c) + rest) == Got(c, rest) {
      EntryBack(c, rest);
    }
  }

  // No two canonical contacts share their bytes, nor do the bytes of one begin
  // the bytes of another.
  lemma EntriesPrefixFree(c: Contact, d: Contact)
    requires Canonical(c) && Canonical(d) && EntryBytes(c) <= EntryBytes(d)
    ensures c == d
  {
    hide Canonical, EntryBytes, ReadEntry;
    var rest := EntryBytes(d)[|EntryBytes(c)|..];
    EntryBack(c, rest);
    EntryBack(d, []);
    assert EntryBytes(c) + rest == EntryBytes(d) + [];
  }

  lemma EntryLength(c: Contact)
    requires Canonical(c)
    ensures |EntryBytes(c)| <= 155
  {
    ContactFields(c);
    hide Canonical, ToFields, FromFields;
  }
}
