// The 75-byte certificate body the root device reviews and signs: building it
// into a buffer, and inspecting one that arrives.
module CertificateBody {
  import opened Basics
  import opened Bytes

  // body is followed by a 64-byte compact signature in a full certificate.
  const BODY_BYTES: nat := 75
  const SIGNATURE_BYTES: nat := 64
  const ALIAS_BYTES: nat := 32
  const KEY_BYTES: nat := 33
  const MIN_EXPIRY: nat := 1787270400

  const SCOPE_SOLANA: nat := 501
  const ALLOWED_SCOPES: set<nat> :=
    {501, 1, 10, 56, 100, 130, 137, 5000, 8453, 42161, 42170, 43114, 80094, 81457}

  datatype Refusal =
    | BadExpiry | BadScope | BadAlias | BadKey | BadLength | BadVersion | BadCapability
    | BelowFloor | Expired | HashMismatch | NotUnderRoot

  datatype Certificate = Certificate(alias: string, scope: nat, notAfter: nat, delegateKey: Buffer)

  predicate PrintableByte(b: Byte) {
    0x20 <= b <= 0x7e
  }

  predicate AliasAllowed(alias: string) {
    1 <= |alias| <= 31 && IsAscii(alias) && forall b :: b in Ascii(alias) ==> PrintableByte(b)
  }

  function PaddedAlias(alias: string): (r: Buffer)
    requires |alias| <= ALIAS_BYTES
    ensures |r| == ALIAS_BYTES
  {
    Ascii(alias) + Zeros(ALIAS_BYTES - |alias|)
  }

  // Why build refuses its arguments, if it does.
  function BuildRefusal(c: Certificate): Option<Refusal> {
    if c.notAfter >= U32_LIMIT then Some(BadExpiry)
    else if c.scope !in ALLOWED_SCOPES then Some(BadScope)
    else if !AliasAllowed(c.alias) then Some(BadAlias)
    else if |c.delegateKey| != KEY_BYTES then Some(BadKey)
    else None
  }

  // The layout: version, capability, scope, expiry, padded alias, delegate key.
  function Layout(c: Certificate): (r: Buffer)
    requires BuildRefusal(c).None?
    ensures |r| == BODY_BYTES
  {
    [1, 1] + U32(c.scope) + U32(c.notAfter) + PaddedAlias(c.alias) + c.delegateKey
  }

  function Build(c: Certificate): Result<Buffer, Refusal> {
    if BuildRefusal(c).Some? then Err(BuildRefusal(c).value) else Ok(Layout(c))
  }

  // The alias a padded field spells, if it is well formed: printable bytes, then
  // at least one NUL and nothing else.
  predicate AliasEndsAt(field: Buffer, n: nat) {
    && 1 <= n < |field| && n <= 31
    && (forall i :: 0 <= i < n ==> PrintableByte(field[i]))
    && (forall i :: n <= i < |field| ==> field[i] == 0)
  }

  function ReadAlias(field: Buffer): Result<string, Refusal> {
    if AliasEndsAt(field, IndexOf(field, 0)) then Ok(Text(field[..IndexOf(field, 0)])) else Err(BadAlias)
  }

  function Inspect(body: Buffer, expectedHash: Buffer, now: int,
      keccak: Buffer -> Buffer): Result<Certificate, Refusal> {
    if |body| != BODY_BYTES then Err(BadLength)
    else if body[0] != 1 then Err(BadVersion)
    else if body[1] != 1 then Err(BadCapability)
    else if ReadU32(body, 2) !in ALLOWED_SCOPES then Err(BadScope)
    else if ReadU32(body, 6) <= MIN_EXPIRY then Err(BelowFloor)
    else if ReadU32(body, 6) <= now then Err(Expired)
    else if ReadAlias(body[10..42]).Err? then Err(BadAlias)
    else if keccak(body) != expectedHash then Err(HashMismatch)
    else Ok(Certificate(ReadAlias(body[10..42]).value, ReadU32(body, 2), ReadU32(body, 6), body[42..75]))
  }

  // A full certificate: the body must inspect against its own hash, and the
  // compact signature must recover the root.
  function InspectCertificate(certificate: Buffer, now: int, keccak: Buffer -> Buffer,
      rootSigned: (Buffer, Buffer) -> bool): Result<Certificate, Refusal> {
    if |certificate| != BODY_BYTES + SIGNATURE_BYTES then Err(BadLength)
    else
      var body := certificate[..BODY_BYTES];
      var inspected := Inspect(body, keccak(body), now, keccak);
      if inspected.Ok? && !rootSigned(body, certificate[BODY_BYTES..]) then Err(NotUnderRoot) else inspected
  }

  // ---- The source's buffer writes and byte loops ----

  method EncodeAlias(alias: string) returns (r: Result<Buffer, Refusal>)
    ensures r == if AliasAllowed(alias) then Ok(PaddedAlias(alias)) else Err(BadAlias)
  {
    var encoded := Ascii(alias);
    AsciiRoundTrip(alias);
    if |encoded| < 1 || |encoded| > 31 || Text(encoded) != alias {
      return Err(BadAlias);
    }
    for i := 0 to |encoded|
      invariant forall k :: 0 <= k < i ==> PrintableByte(encoded[k])
    {
      if encoded[i] < 0x20 || encoded[i] > 0x7e {
        assert encoded[i] in Ascii(alias);
        return Err(BadAlias);
      }
    }
    var padded := new Byte[ALIAS_BYTES](_ => 0);
    for i := 0 to |encoded|
      invariant padded[..i] == encoded[..i]
      invariant forall k :: i <= k < ALIAS_BYTES ==> padded[k] == 0
    {
      padded[i] := encoded[i];
    }
    assert padded[..] == padded[..|encoded|] + padded[|encoded|..];
    assert padded[..] == PaddedAlias(alias);
    r := Ok(padded[..]);
  }

  method DecodeAlias(field: Buffer) returns (r: Result<string, Refusal>)
    ensures r == ReadAlias(field)
  {
    var firstNul := IndexOf(field, 0);
    if firstNul < 1 || firstNul > 31 || firstNul == |field| {
      return Err(BadAlias);
    }
    for i := 0 to firstNul
      invariant forall k :: 0 <= k < i ==> PrintableByte(field[k])
    {
      if field[i] < 0x20 || field[i] > 0x7e {
        return Err(BadAlias);
      }
    }
    for i := firstNul to |field|
      invariant forall k :: firstNul <= k < i ==> field[k] == 0
    {
      if field[i] != 0 {
        return Err(BadAlias);
      }
    }
    r := Ok(Text(field[..firstNul]));
  }

  // Copy part into body at offset at.
  method CopyInto(body: array<Byte>, at: nat, part: Buffer)
    requires at + |part| <= body.Length
    modifies body
    ensures body[..] == old(body[..at]) + part + old(body[at + |part|..])
  {
    for i := 0 to |part|
      invariant body[..at] == old(body[..at])
      invariant body[at..at + i] == part[..i]
      invariant body[at + |part|..] == old(body[at + |part|..])
    {
      body[at + i] := part[i];
      assert body[at..at + i + 1] == body[at..at + i] + [part[i]];
    }
    assert body[..] == body[..at] + body[at..at + |part|] + body[at + |part|..];
  }

  method BuildBody(c: Certificate) returns (r: Result<Buffer, Refusal>)
    ensures r == Build(c)
  {
    if c.notAfter >= U32_LIMIT {
      return Err(BadExpiry);
    }
    if c.scope !in ALLOWED_SCOPES {
      return Err(BadScope);
    }
    var body := new Byte[BODY_BYTES](_ => 0);
    body[0], body[1] := 1, 1;
    CopyInto(body, 2, U32(c.scope));
    CopyInto(body, 6, U32(c.notAfter));
    ghost var head := [1, 1] + U32(c.scope) + U32(c.notAfter);
    assert body[..10] == head;
    var alias := EncodeAlias(c.alias);
    if alias.Err? {
      return Err(alias.error);
    }
    CopyInto(body, 10, alias.value);
    assert body[..42] == head + alias.value;
    if |c.delegateKey| != KEY_BYTES {
      return Err(BadKey);
    }
    CopyInto(body, 42, c.delegateKey);
    assert body[..] == head + alias.value + c.delegateKey;
    r := Ok(body[..]);
  }

  // ---- Building and inspecting undo each other ----

  lemma AliasSurvives(alias: string)
    requires AliasAllowed(alias)
    ensures ReadAlias(PaddedAlias(alias)) == Ok(alias)
  {
    var field := PaddedAlias(alias);
    forall i | 0 <= i < |alias| ensures PrintableByte(field[i]) {
      assert field[i] == Ascii(alias)[i];
      assert Ascii(alias)[i] in Ascii(alias);
    }
    IndexIs(field, 0, |alias|);
    assert field[..|alias|] == Ascii(alias);
    AsciiRoundTrip(alias);
  }

  lemma AliasRebuilds(field: Buffer)
    requires |field| == ALIAS_BYTES && ReadAlias(field).Ok?
    ensures AliasAllowed(ReadAlias(field).value) && PaddedAlias(ReadAlias(field).value) == field
  {
    var n := IndexOf(field, 0);
    var alias := Text(field[..n]);
    assert Ascii(alias) == field[..n];
    assert field == field[..n] + field[n..];
    assert field[n..] == Zeros(ALIAS_BYTES - n);
  }

  lemma LayoutFields(c: Certificate)
    requires BuildRefusal(c).None?
    ensures var b := Layout(c);
      && b[0] == 1 && b[1] == 1 && ReadU32(b, 2) == c.scope && ReadU32(b, 6) == c.notAfter
      && b[10..42] == PaddedAlias(c.alias) && b[42..75] == c.delegateKey
  {
    var b := Layout(c);
    assert b[2..6] == U32(c.scope);
    assert b[6..10] == U32(c.notAfter);
    U32Read(c.scope, b, 2);
    U32Read(c.notAfter, b, 6);
  }

  // A built body inspects, under its own hash, to the fields it was built from;
  // it is refused only for an expiry at or below the floor or the present time.
  lemma InspectBuilt(c: Certificate, now: int, keccak: Buffer -> Buffer)
    requires Build(c).Ok?
    ensures Inspect(Build(c).value, keccak(Build(c).value), now, keccak)
      == if c.notAfter <= MIN_EXPIRY then Err(BelowFloor) else if c.notAfter <= now then Err(Expired) else Ok(c)
  {
    LayoutFields(c);
    AliasSurvives(c.alias);
  }

  // A certificate is built exactly when its fields are in range: a 32-bit expiry,
  // a scope of the list, 1 to 31 printable characters, and a 33-byte key.
  lemma BuildIff(c: Certificate)
    ensures Build(c).Ok? <==>
      && c.notAfter < 0x1_0000_0000
      && c.scope in {501, 1, 10, 56, 100, 130, 137, 5000, 8453, 42161, 42170, 43114, 80094, 81457}
      && 1 <= |c.alias| <= 31 && (forall i :: 0 <= i < |c.alias| ==> ' ' <= c.alias[i] <= '~')
      && |c.delegateKey| == 33
  {
    if forall i :: 0 <= i < |c.alias| ==> ' ' <= c.alias[i] <= '~' {
      forall b | b in Ascii(c.alias) ensures PrintableByte(b) {
        var i :| 0 <= i < |Ascii(c.alias)| && Ascii(c.alias)[i] == b;
      }
    }
    if AliasAllowed(c.alias) {
      forall i | 0 <= i < |c.alias| ensures ' ' <= c.alias[i] <= '~' {
        assert Ascii(c.alias)[i] in Ascii(c.alias);
      }
    }
  }

  // The bytes of a certificate, field by field.
  lemma BodyIs(c: Certificate)
    requires Build(c).Ok?
    ensures var b := Build(c).value;
      && |b| == 75 && b[0] == 1 && b[1] == 1 && ReadU32(b, 2) == c.scope && ReadU32(b, 6) == c.notAfter
      && b[10..10 + |c.alias|] == Ascii(c.alias) && (forall i :: 10 + |c.alias| <= i < 42 ==> b[i] == 0)
      && b[42..] == c.delegateKey
  {
    LayoutFields(c);
    var b := Layout(c);
    assert b[10..42][..|c.alias|] == b[10..10 + |c.alias|];
    assert forall i :: 10 + |c.alias| <= i < 42 ==> b[i] == b[10..42][i - 10];
  }

  // A body is accepted exactly when it is that of a certificate that expires after
  // the floor and after now, and has the hash given.
  lemma InspectIff(body: Buffer, expectedHash: Buffer, now: int, keccak: Buffer -> Buffer, c: Certificate)
    ensures Inspect(body, expectedHash, now, keccak) == Ok(c)
      <==> Build(c) == Ok(body) && 1_787_270_400 < c.notAfter && now < c.notAfter && keccak(body) == expectedHash
  {
    hide Layout, ReadAlias, BuildRefusal, ReadU32;
    if Inspect(body, expectedHash, now, keccak) == Ok(c) {
      RebuildInspected(body, expectedHash, now, keccak);
    }
    if Build(c) == Ok(body) {
      InspectBuilt(c, now, keccak);
    }
  }

  // A full certificate is one whose body is accepted and signed by the root.
  lemma InspectCertificateIff(certificate: Buffer, now: int, keccak: Buffer -> Buffer,
      rootSigned: (Buffer, Buffer) -> bool, c: Certificate)
    ensures InspectCertificate(certificate, now, keccak, rootSigned) == Ok(c)
      <==> |certificate| == 139 && Build(c) == Ok(certificate[..75])
           && 1_787_270_400 < c.notAfter && now < c.notAfter && rootSigned(certificate[..75], certificate[75..])
  {
    hide Inspect, Build;
    if |certificate| == 139 {
      InspectIff(certificate[..75], keccak(certificate[..75]), now, keccak, c);
    }
  }

  // The fields of any accepted body rebuild exactly its bytes, and its hash.
  lemma RebuildInspected(body: Buffer, expectedHash: Buffer, now: int, keccak: Buffer -> Buffer)
    requires Inspect(body, expectedHash, now, keccak).Ok?
    ensures Build(Inspect(body, expectedHash, now, keccak).value) == Ok(body)
    ensures keccak(body) == expectedHash
  {
    var c := Inspect(body, expectedHash, now, keccak).value;
    AliasRebuilds(body[10..42]);
    ReadU32Back(body, 2);
    ReadU32Back(body, 6);
    assert body == body[..2] + body[2..6] + body[6..10] + body[10..42] + body[42..75];
    assert body[..2] == [1, 1];
  }

  // Two certificates that build the same bytes are the same certificate.
  lemma BuildInjective(c: Certificate, d: Certificate)
    requires Build(c).Ok? && Build(c) == Build(d)
    ensures c == d
  {
    LayoutFields(c);
    LayoutFields(d);
    AliasSurvives(c.alias);
    AliasSurvives(d.alias);
  }
}
