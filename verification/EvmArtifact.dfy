// Importing what an offline ceremony signed, and choosing a promoted artifact
// for a transaction by reading its schema header back.
module EvmArtifact {
  import opened Basics
  import opened Bytes
  import opened Strings
  import opened Hex
  import opened Codec
  import opened EvmSchema
  import opened EvmCompile
  import CertificateBody

  const CERTIFICATE_BYTES: nat := 139
  const MAX_IDENTITY_AGE_MS: int := 300_000

  // The cryptography the checks rest on.
  datatype Crypto = Crypto(
    keccak: Buffer -> Buffer,
    rootSigned: (Buffer, Buffer) -> bool,
    sha256: Buffer -> Buffer,
    recover: (Buffer, Buffer, int) -> Option<Buffer>)

  datatype Bundle = Bundle(chain: Chain, identityHash: string, expiresAt: int)
  datatype Ceremony = Ceremony(
    bundleHash: string, payloadHex: string, signatureHex: string, recovery: Option<int>, certificateHex: string)

  // Strings and times the source may find missing are empty or zero here.
  datatype Artifact = Artifact(
    chain: Chain, bundleHash: string, identityHash: string, expiresAt: int, payloadHex: string, envelopeHex: string,
      revokedAt: int)

  datatype ImportError =
    | WrongBundle | BadPayload | PayloadDiffers | BadSignature | BadCertificate
      | NotCertified(why: CertificateBody.Refusal)
    | ScopeMismatch | CertificateExpiresFirst | BadRecovery | NotDelegate | RecoveryRequired

  function AnyHex(s: string): Option<Buffer> {
    var clean := WithoutPrefix(s);
    if clean == "" || |clean| % 2 != 0 || !IsHex(clean) then None else Some(HexDecode(clean))
  }

  predicate RecoveryAllowed(v: int) {
    v == 0 || v == 1 || v == 27 || v == 28
  }

  function Candidates(recovery: Option<int>): seq<int> {
    if recovery.None? then [27, 28] else [recovery.value]
  }

  predicate Recovers(crypto: Crypto, payload: Buffer, signature: Buffer, key: Buffer, v: int) {
    crypto.recover(crypto.sha256(payload), signature, if v < 27 then v + 27 else v) == Some(key)
  }

  // The first candidate under which the signature recovers the delegate's key.
  method SignatureMatches(crypto: Crypto, payload: Buffer, signature: Buffer, key: Buffer, recovery: Option<int>)
      returns (r: Result<int, ImportError>)
    ensures r == MatchRecovery(crypto, payload, signature, key, recovery)
  {
    var candidates := Candidates(recovery);
    if exists v | v in candidates :: !RecoveryAllowed(v) {
      return Err(BadRecovery);
    }
    for i := 0 to |candidates|
      invariant FirstRecovering(crypto, payload, signature, key, candidates[i..])
        == FirstRecovering(crypto, payload, signature, key, candidates)
    {
      if Recovers(crypto, payload, signature, key, candidates[i]) {
        return Ok(candidates[i]);
      }
      assert candidates[i..][1..] == candidates[i + 1..];
    }
    return Err(NotDelegate);
  }

  function FirstRecovering(crypto: Crypto, payload: Buffer, signature: Buffer, key: Buffer,
      candidates: seq<int>): (r: Result<int, ImportError>)
    ensures r.Ok? ==> r.value in candidates && Recovers(crypto, payload, signature, key, r.value)
    ensures r.Err?
      ==> r.error == NotDelegate && forall v :: v in candidates ==> !Recovers(crypto, payload, signature, key, v)
  {
    if candidates == [] then Err(NotDelegate)
    else if Recovers(crypto, payload, signature, key, candidates[0]) then Ok(candidates[0])
    else FirstRecovering(crypto, payload, signature, key, candidates[1..])
  }

  function MatchRecovery(crypto: Crypto, payload: Buffer, signature: Buffer, key: Buffer,
      recovery: Option<int>): Result<int, ImportError> {
    if recovery.Some? && !RecoveryAllowed(recovery.value) then Err(BadRecovery)
    else FirstRecovering(crypto, payload, signature, key, Candidates(recovery))
  }

  function Envelope(certificate: Buffer, payload: Buffer, signature: Buffer, recovery: int): Buffer {
    [3] + certificate + payload + signature + [recovery % 256]
  }

  function Scope(chain: Chain, payload: Buffer): Option<nat> {
    if chain == Solana then Some(CertificateBody.SCOPE_SOLANA)
    else if |payload| < 5 then None
    else Some(ReadU32(payload, 1))
  }

  // compiled and compiledHash are the deterministic compiler's payload and the
  // hash of the bundle it was compiled from.
  function Import(crypto: Crypto, bundle: Bundle, compiledHash: string, compiled: Buffer, ceremony: Ceremony,
      now: int): Result<Artifact, ImportError> {
    var payload := AnyHex(ceremony.payloadHex);
    var signature := ExactHex(ceremony.signatureHex, 64);
    var certificate := ExactHex(ceremony.certificateHex, CERTIFICATE_BYTES);
    if Lower(WithoutPrefix(ceremony.bundleHash)) != compiledHash then Err(WrongBundle)
    else if payload.None? then Err(BadPayload)
    else if HexEncode(payload.value) != HexEncode(compiled) then Err(PayloadDiffers)
    else if signature.None? then Err(BadSignature)
    else if certificate.None? then Err(BadCertificate)
    else
      var cert := CertificateBody.InspectCertificate(certificate.value, now / 1000, crypto.keccak, crypto.rootSigned);
      if cert.Err? then Err(NotCertified(cert.error))
      else if Scope(bundle.chain, payload.value) != Some(cert.value.scope) then Err(ScopeMismatch)
      else if cert.value.notAfter * 1000 < bundle.expiresAt then Err(CertificateExpiresFirst)
      else
        var recovery :=
          MatchRecovery(crypto, payload.value, signature.value, cert.value.delegateKey, ceremony.recovery);
        if recovery.Err? then Err(recovery.error)
        else if bundle.chain == Ethereum && ceremony.recovery.None? then Err(RecoveryRequired)
        else
          var envelope :=
            if bundle.chain == Ethereum then
              HexEncode(Envelope(certificate.value, payload.value, signature.value, recovery.value))
            else "";
          Ok(Artifact(bundle.chain, compiledHash, bundle.identityHash, bundle.expiresAt, HexEncode(payload.value),
            envelope, 0))
  }

  // ---- What an import guarantees ----

  // The hexadecimal characters the resolver takes to be the certificate.
  function CertificateSlice(envelopeHex: string): string {
    var last := if |envelopeHex| < 280 then |envelopeHex| else 280;
    if last < 2 then "" else envelopeHex[2..last]
  }

  lemma SliceOfEnvelope(certificate: Buffer, payload: Buffer, signature: Buffer, recovery: int)
    requires |certificate| == CERTIFICATE_BYTES
    ensures CertificateSlice(HexEncode(Envelope(certificate, payload, signature, recovery))) == HexEncode(certificate)
    ensures HexEncode(Envelope(certificate, payload, signature, recovery)) != ""
  {
    hide HexEncode;
    var rest := payload + signature + [recovery % 256];
    EnvelopeParts(certificate, payload, signature, recovery);
    HexAppend([3], certificate + rest);
    HexAppend(certificate, rest);
    MiddleSlice(HexEncode([3]), HexEncode(certificate), HexEncode(rest));
  }

  lemma EnvelopeParts(certificate: Buffer, payload: Buffer, signature: Buffer, recovery: int)
    ensures Envelope(certificate, payload, signature, recovery)
      == [3] + (certificate + (payload + signature + [recovery % 256]))
  {
  }

  lemma MiddleSlice(a: string, b: string, c: string)
    requires |a| == 2 && |b| == 278
    ensures CertificateSlice(a + (b + c)) == b
  {
  }

  lemma HexInjective(a: Buffer, b: Buffer)
    requires HexEncode(a) == HexEncode(b)
    ensures a == b
  {
    HexBack(a);
    HexBack(b);
  }

  // The certificate, under the root and not expired, covers the payload's chain
  // and outlives the bundle.
  ghost predicate Covers(crypto: Crypto, bundle: Bundle, compiled: Buffer, certificate: Buffer, now: int) {
    var cert := CertificateBody.InspectCertificate(certificate, now / 1000, crypto.keccak, crypto.rootSigned);
    && cert.Ok? && bundle.expiresAt <= cert.value.notAfter * 1000
    && if bundle.chain == Solana then cert.value.scope == 501
       else |compiled| >= 5 && cert.value.scope == ReadU32(compiled, 1)
  }

  // The certificate's delegate signed the payload, with the recovery value given
  // or, for Solana, with either of the two there are.
  ghost predicate SignedByDelegate(crypto: Crypto, bundle: Bundle, compiled: Buffer, certificate: Buffer,
      signature: Buffer,
      recovery: Option<int>, now: int) {
    var cert := CertificateBody.InspectCertificate(certificate, now / 1000, crypto.keccak, crypto.rootSigned);
    && cert.Ok?
    && match recovery
       case Some(v) =>
         v in {0, 1, 27, 28}
           && SignedWith(crypto, compiled, signature, cert.value.delegateKey, if v in {0, 27} then 27 else 28)
       case None =>
         && bundle.chain == Solana
         && (SignedWith(crypto, compiled, signature, cert.value.delegateKey, 27)
             || SignedWith(crypto, compiled, signature, cert.value.delegateKey, 28))
  }

  ghost predicate SignedWith(crypto: Crypto, payload: Buffer, signature: Buffer, key: Buffer, v: int) {
    crypto.recover(crypto.sha256(payload), signature, v) == Some(key)
  }

  // An imported EVM artifact carries exactly the compiled payload; its envelope
  // holds, where the resolver looks, a certificate under the root for the chain
  // the payload names, valid at import and outliving the artifact, whose
  // delegate's signature over the payload the envelope also carries.
  lemma ImportedIsBound(crypto: Crypto, bundle: Bundle, compiledHash: string, compiled: Buffer,
      ceremony: Ceremony, now: int)
    returns (certificate: Buffer, signature: Buffer, recovery: int)
    requires bundle.chain == Ethereum && Import(crypto, bundle, compiledHash, compiled, ceremony, now).Ok?
    ensures |certificate| == 139 && |signature| == 64
    ensures Covers(crypto, bundle, compiled, certificate, now)
    ensures SignedByDelegate(crypto, bundle, compiled, certificate, signature, Some(recovery), now)
    ensures var a := Import(crypto, bundle, compiledHash, compiled, ceremony, now).value;
      && a.chain == Ethereum && a.expiresAt == bundle.expiresAt && a.identityHash == bundle.identityHash
      && a.revokedAt == 0 && a.bundleHash == compiledHash == Lower(WithoutPrefix(ceremony.bundleHash))
      && HexDecode(a.payloadHex) == compiled
      && a.envelopeHex != "" && HasParts(HexDecode(a.envelopeHex), certificate, compiled, signature, recovery)
      && CertificateSlice(a.envelopeHex) == HexEncode(certificate)
  {
    hide HexEncode, HexDecode, IsHex, WithoutPrefix, Lower, Envelope, CertificateSlice, CertificateBody.Inspect,
      Recovers, ExactHex, CertificateBody.InspectCertificate, MatchRecovery, Covers, SignedByDelegate;
    certificate := ExactHex(ceremony.certificateHex, CERTIFICATE_BYTES).value;
    signature := ExactHex(ceremony.signatureHex, 64).value;
    ExactHexSize(ceremony.certificateHex, CERTIFICATE_BYTES);
    ExactHexSize(ceremony.signatureHex, 64);
    recovery := ceremony.recovery.value;
    HexInjective(AnyHex(ceremony.payloadHex).value, compiled);
    HexBack(compiled);
    SliceOfEnvelope(certificate, compiled, signature, recovery);
    AcceptIff(crypto, bundle, compiled, certificate, signature, ceremony.recovery, now);
    MatchGives(crypto, compiled, signature, ceremony.recovery);
    HexBack(Envelope(certificate, compiled, signature, recovery));
    EnvelopeHas(certificate, compiled, signature, recovery);
  }

  lemma MatchGives(crypto: Crypto, payload: Buffer, signature: Buffer, recovery: Option<int>)
    requires recovery.Some?
    ensures forall key ::
      MatchRecovery(crypto, payload, signature, key, recovery).Ok?
      ==> MatchRecovery(crypto, payload, signature, key, recovery) == Ok(recovery.value)
  {
    hide Recovers;
  }

  // Version 3, the certificate, the payload, the signature and its recovery byte.
  ghost predicate HasParts(b: Buffer, certificate: Buffer, payload: Buffer, signature: Buffer, recovery: int) {
    var (m, n) := (1 + |certificate|, 1 + |certificate| + |payload|);
    && |b| == n + |signature| + 1 && b[0] == 3 && b[1..m] == certificate && b[m..n] == payload
    && b[n..n + |signature|] == signature && b[n + |signature|] == recovery % 256
  }

  lemma EnvelopeHas(certificate: Buffer, payload: Buffer, signature: Buffer, recovery: int)
    ensures HasParts(Envelope(certificate, payload, signature, recovery), certificate, payload, signature, recovery)
  {
  }

  // An artifact is imported exactly when the ceremony names the bundle, repeats
  // the compiled payload, and has a certificate that covers it and a signature by
  // the certificate's delegate.
  lemma ImportIff(crypto: Crypto, bundle: Bundle, compiledHash: string, compiled: Buffer, ceremony: Ceremony, now: int)
    ensures Import(crypto, bundle, compiledHash, compiled, ceremony, now).Ok? <==>
      && Lower(WithoutPrefix(ceremony.bundleHash)) == compiledHash
      && compiled != [] && SpellsHex(ceremony.payloadHex, compiled, |compiled|)
      && exists signature, certificate ::
           && SpellsHex(ceremony.signatureHex, signature, 64) && SpellsHex(ceremony.certificateHex, certificate, 139)
           && Covers(crypto, bundle, compiled, certificate, now)
           && SignedByDelegate(crypto, bundle, compiled, certificate, signature, ceremony.recovery, now)
  {
    hide SpellsHex, ExactHex, AnyHex, Lower, WithoutPrefix, HexEncode, CertificateBody.InspectCertificate, Recovers;
    hide Covers, SignedByDelegate, MatchRecovery, Envelope, Scope;
    PayloadIff(ceremony.payloadHex, compiled);
    var signature, certificate := ExactHex(ceremony.signatureHex, 64), ExactHex(ceremony.certificateHex, 139);
    forall b ensures signature == Some(b) <==> SpellsHex(ceremony.signatureHex, b, 64) {
      ExactHexIff(ceremony.signatureHex, b, 64);
    }
    forall b ensures certificate == Some(b) <==> SpellsHex(ceremony.certificateHex, b, 139) {
      ExactHexIff(ceremony.certificateHex, b, 139);
    }
    if signature.Some? && certificate.Some? {
      AcceptIff(crypto, bundle, compiled, certificate.value, signature.value, ceremony.recovery, now);
    }
  }

  lemma PayloadIff(payloadHex: string, compiled: Buffer)
    ensures AnyHex(payloadHex).Some? && HexEncode(AnyHex(payloadHex).value) == HexEncode(compiled)
      <==> compiled != [] && SpellsHex(payloadHex, compiled, |compiled|)
    ensures AnyHex(payloadHex).Some? && HexEncode(AnyHex(payloadHex).value) == HexEncode(compiled)
      ==> AnyHex(payloadHex).value == compiled
  {
    var clean := WithoutPrefix(payloadHex);
    hide IsHex, WithoutPrefix, HexEncode, HexDecode, Lower;
    HexEncodeSize(compiled);
    HexBack(compiled);
    if IsHex(clean) && |clean| % 2 == 0 {
      HexDecodes(clean);
      HexBack(HexDecode(clean));
      HexEncodeSize(HexDecode(clean));
    }
    if SpellsHex(payloadHex, compiled, |compiled|) {
      SameHexText(compiled, clean);
    }
  }

  lemma AcceptIff(crypto: Crypto, bundle: Bundle, compiled: Buffer, certificate: Buffer, signature: Buffer,
      recovery: Option<int>, now: int)
    ensures var cert := CertificateBody.InspectCertificate(certificate, now / 1000, crypto.keccak, crypto.rootSigned);
      Covers(crypto, bundle, compiled, certificate, now)
      && SignedByDelegate(crypto, bundle, compiled, certificate, signature, recovery, now)
      <==>
      && cert.Ok? && Scope(bundle.chain, compiled) == Some(cert.value.scope)
      && bundle.expiresAt <= cert.value.notAfter * 1000
      && MatchRecovery(crypto, compiled, signature, cert.value.delegateKey, recovery).Ok?
      && (bundle.chain == Ethereum ==> recovery.Some?)
  {
    var cert := CertificateBody.InspectCertificate(certificate, now / 1000, crypto.keccak, crypto.rootSigned);
    hide CertificateBody.InspectCertificate, MatchRecovery, SignedWith;
    if cert.Ok? {
      MatchOk(crypto, compiled, signature, cert.value.delegateKey, recovery);
    }
  }

  lemma MatchOk(crypto: Crypto, payload: Buffer, signature: Buffer, key: Buffer, recovery: Option<int>)
    ensures MatchRecovery(crypto, payload, signature, key, recovery).Ok? <==>
      match recovery
      case Some(v) => v in {0, 1, 27, 28}
        && SignedWith(crypto, payload, signature, key, if v in {0, 27} then 27 else 28)
      case None => SignedWith(crypto, payload, signature, key, 27) || SignedWith(crypto, payload, signature, key, 28)
  {
    assert 27 in [27, 28] && 28 in [27, 28];
    if recovery.Some? {
      assert recovery.value in [recovery.value];
    }
  }

  // ---- Resolving ----

  datatype JobStatus = EvidenceReady | Covered | IdentityChangedJob | OtherStatus
  datatype Evidence = Evidence(identity: string, auditedAt: int)
  datatype Job = Job(status: JobStatus, evidence: Option<Evidence>)
  datatype Snapshot = Snapshot(artifact: Artifact, job: Option<Job>)

  datatype ResolveRefusal =
    | InvalidRequest | NoArtifact | ShapeMismatch | Revoked | Expired
    | IdentityUnavailable | IdentityChanged | IdentityMismatch | IdentityStale

  datatype Selection = Selection(bundleHash: string, title: string, signedPayload: string, expectedCalldataLength: int,
      expiresAt: int)
  datatype Resolution = Selected(selection: Selection) | Refused(why: ResolveRefusal)

  datatype Header = Header(chainId: nat, contract: string, selector: string, title: string, expectedCalldataLength: int)

  // The resolver's own reading of a payload, which stops at the argument count.
  function ReadHeader(payload: Buffer): Option<Header> {
    if payload == [] || payload[0] != 2 || |payload| < 39 then None
    else
      var numArgsOffset := 31 + ReadU16(payload, 29);
      if numArgsOffset >= |payload| then None
      else
        var numArgs: int := payload[numArgsOffset];
        Some(Header(ReadU32(payload, 1), "0x" + HexEncode(payload[5..25]), "0x" + HexEncode(payload[25..29]),
          Text(payload[31..numArgsOffset]), 4 + numArgs * 32))
  }

  function IdentityRefusal(job: Option<Job>, identityHash: string, now: int): Option<ResolveRefusal> {
    if job.None? || job.value.evidence.None? then Some(IdentityUnavailable)
    else
      var evidence := job.value.evidence.value;
      if job.value.status == IdentityChangedJob then Some(IdentityChanged)
      else if evidence.identity != identityHash then Some(IdentityMismatch)
      else if evidence.auditedAt < now - MAX_IDENTITY_AGE_MS then Some(IdentityStale)
      else if job.value.status != EvidenceReady && job.value.status != Covered then Some(IdentityUnavailable)
      else None
  }

  datatype Request = Request(chainId: int, to: string, calldata: string)

  predicate Names(header: Header, q: Request)
    requires |q.calldata| >= 8
  {
    header.chainId == q.chainId && Lower(header.contract) == Lower(q.to)
      && header.selector == "0x" + Lower(q.calldata[..8])
  }

  predicate Applies(s: Snapshot, q: Request, trusted: string -> bool)
    requires |q.calldata| >= 8
  {
    && s.artifact.chain == Ethereum && s.artifact.envelopeHex != ""
    && var header := ReadHeader(HexDecode(s.artifact.payloadHex));
    && header.Some? && Names(header.value, q)
    && trusted(CertificateSlice(s.artifact.envelopeHex))
  }

  function Verdict(s: Snapshot, header: Header, q: Request, now: int): Resolution {
    var a := s.artifact;
    if |q.calldata| / 2 != header.expectedCalldataLength then Refused(ShapeMismatch)
    else if a.revokedAt != 0 then Refused(Revoked)
    else if a.expiresAt <= now then Refused(Expired)
    else
      var refusal := IdentityRefusal(s.job, a.identityHash, now);
      if refusal.Some? then Refused(refusal.value)
      else Selected(Selection(a.bundleHash, header.title, "0x" + a.envelopeHex, header.expectedCalldataLength,
           a.expiresAt))
  }

  function Scan(snapshots: seq<Snapshot>, q: Request, trusted: string -> bool, now: int): Resolution
    requires |q.calldata| >= 8
  {
    if snapshots == [] then Refused(NoArtifact)
    else if Applies(snapshots[0], q, trusted) then
      Verdict(snapshots[0], ReadHeader(HexDecode(snapshots[0].artifact.payloadHex)).value, q, now)
    else Scan(snapshots[1..], q, trusted, now)
  }

  // A zero chain or an empty string stands for an absent argument.
  function ParseRequest(chainId: int, to: string, data: string): (r: Result<Request, ResolveRefusal>)
    ensures r.Ok? ==> |r.value.calldata| >= 8
  {
    var calldata := WithoutPrefix(data);
    if chainId == 0 || to == "" || data == "" then Err(InvalidRequest)
    else if calldata == "" then Err(NoArtifact)
    else if !IsHex(calldata) || |calldata| < 8 || |calldata| % 2 != 0 then Err(InvalidRequest)
    else Ok(Request(chainId, to, calldata))
  }

  function Resolve(chainId: int, to: string, data: string, snapshots: seq<Snapshot>, trusted: string -> bool,
      now: int): Resolution {
    match ParseRequest(chainId, to, data)
    case Err(why) => Refused(why)
    case Ok(q) => Scan(snapshots, q, trusted, now)
  }

  // The source's loop: skip what does not apply, and answer at the first that does.
  method ResolvePromoted(chainId: int, to: string, data: string, snapshots: seq<Snapshot>, trusted: string -> bool,
      now: int) returns (r: Resolution)
    ensures r == Resolve(chainId, to, data, snapshots, trusted, now)
  {
    hide Lower, ReadHeader, HexDecode, CertificateSlice, IdentityRefusal, IsHex, WithoutPrefix;
    var request := ParseRequest(chainId, to, data);
    if request.Err? {
      return Refused(request.error);
    }
    var q := request.value;
    for i := 0 to |snapshots|
      invariant Scan(snapshots[i..], q, trusted, now) == Scan(snapshots, q, trusted, now)
    {
      assert snapshots[i..][0] == snapshots[i] && snapshots[i..][1..] == snapshots[i + 1..];
      var a := snapshots[i].artifact;
      if a.chain != Ethereum || a.envelopeHex == "" {
        continue;
      }
      var header := ReadHeader(HexDecode(a.payloadHex));
      if header.None? {
        continue;
      }
      var h := header.value;
      if h.chainId != q.chainId || Lower(h.contract) != Lower(q.to) || h.selector != "0x" + Lower(q.calldata[..8]) {
        continue;
      }
      if !trusted(CertificateSlice(a.envelopeHex)) {
        continue;
      }
      if |q.calldata| / 2 != h.expectedCalldataLength {
        return Refused(ShapeMismatch);
      }
      if a.revokedAt != 0 {
        return Refused(Revoked);
      }
      if a.expiresAt <= now {
        return Refused(Expired);
      }
      var refusal := IdentityRefusal(snapshots[i].job, a.identityHash, now);
      if refusal.Some? {
        return Refused(refusal.value);
      }
      return Selected(Selection(a.bundleHash, h.title, "0x" + a.envelopeHex, h.expectedCalldataLength, a.expiresAt));
    }
    return Refused(NoArtifact);
  }

  // ---- What a selection means ----

  ghost predicate IdentityFresh(job: Option<Job>, identityHash: string, now: int) {
    && job.Some? && job.value.evidence.Some?
    && (job.value.status == EvidenceReady || job.value.status == Covered)
    && job.value.evidence.value.identity == identityHash
    && now - 300_000 <= job.value.evidence.value.auditedAt
  }

  ghost predicate FirstApplies(snapshots: seq<Snapshot>, i: nat, q: Request, trusted: string -> bool)
    requires |q.calldata| >= 8
  {
    && i < |snapshots| && Applies(snapshots[i], q, trusted)
    && forall k :: 0 <= k < i ==> !Applies(snapshots[k], q, trusted)
  }

  // The snapshot may be used for this request now.
  ghost predicate Usable(s: Snapshot, header: Header, q: Request, now: int) {
    && |q.calldata| / 2 == header.expectedCalldataLength
    && s.artifact.revokedAt == 0
    && now < s.artifact.expiresAt
    && IdentityFresh(s.job, s.artifact.identityHash, now)
  }

  lemma VerdictIff(s: Snapshot, header: Header, q: Request, now: int)
    ensures Verdict(s, header, q, now).Selected? <==> Usable(s, header, q, now)
  {
  }

  // What a request must be: a chain, a contract and calldata of whole bytes that
  // has a selector. A plain transfer has no artifact.
  lemma RequestIff(chainId: int, to: string, data: string, q: Request)
    ensures ParseRequest(chainId, to, data) == Ok(q) <==>
      && chainId != 0 && to != "" && q == Request(chainId, to, WithoutPrefix(data))
      && IsHex(q.calldata) && |q.calldata| >= 8 && |q.calldata| % 2 == 0
    ensures ParseRequest(chainId, to, data) == Err(NoArtifact)
      <==> chainId != 0 && to != "" && data != "" && WithoutPrefix(data) == ""
    ensures ParseRequest(chainId, to, data).Err?
      ==> ParseRequest(chainId, to, data).error in {NoArtifact, InvalidRequest}
  {
    assert data == "" ==> WithoutPrefix(data) == "";
    hide IsHex, WithoutPrefix;
  }

  // Why an artifact that applies is not used: the first of these that holds.
  lemma RefusedBecause(s: Snapshot, header: Header, q: Request, now: int)
    ensures var (r, a) := (Verdict(s, header, q, now), s.artifact);
      var fits := |q.calldata| / 2 == header.expectedCalldataLength;
      var lives := fits && a.revokedAt == 0 && now < a.expiresAt;
      var audited := lives && s.job.Some? && s.job.value.evidence.Some?;
      && (r == Refused(ShapeMismatch) <==> !fits)
      && (r == Refused(Revoked) <==> fits && a.revokedAt != 0)
      && (r == Refused(Expired) <==> fits && a.revokedAt == 0 && a.expiresAt <= now)
      && (r == Refused(IdentityChanged) <==> audited && s.job.value.status == IdentityChangedJob)
      && (r == Refused(IdentityMismatch) <==>
            && audited && s.job.value.status != IdentityChangedJob
            && s.job.value.evidence.value.identity != a.identityHash)
      && (r == Refused(IdentityStale) <==>
            && audited && s.job.value.status != IdentityChangedJob
            && s.job.value.evidence.value.identity == a.identityHash
            && s.job.value.evidence.value.auditedAt < now - 300_000)
      && (r == Refused(IdentityUnavailable) <==>
            && lives && !IdentityFresh(s.job, a.identityHash, now)
            && r != Refused(IdentityChanged) && r != Refused(IdentityMismatch) && r != Refused(IdentityStale))
  {
  }

  // The answer is that of the first snapshot that applies, or that there is none.
  lemma {:induction false} ScanIsFirst(snapshots: seq<Snapshot>, q: Request, trusted: string -> bool, now: int)
      returns (i: nat)
    requires |q.calldata| >= 8
    ensures i < |snapshots| ==>
      && FirstApplies(snapshots, i, q, trusted)
      && Scan(snapshots, q, trusted, now)
        == Verdict(snapshots[i], ReadHeader(HexDecode(snapshots[i].artifact.payloadHex)).value, q, now)
    ensures i >= |snapshots| ==>
      && (forall k :: 0 <= k < |snapshots| ==> !Applies(snapshots[k], q, trusted))
      && Scan(snapshots, q, trusted, now) == Refused(NoArtifact)
  {
    hide Names, ReadHeader, HexDecode, CertificateSlice, Verdict;
    if snapshots == [] || Applies(snapshots[0], q, trusted) {
      return 0;
    }
    var k := ScanIsFirst(snapshots[1..], q, trusted, now);
    i := k + 1;
    forall j | 0 <= j < |snapshots| && j < i ensures !Applies(snapshots[j], q, trusted) {
      assert j > 0 ==> snapshots[j] == snapshots[1..][j - 1];
    }
  }

  // A selection is made exactly when the first snapshot that applies is usable:
  // exact length, not revoked, not expired, and a fresh identity that matches.
  // An unusable one is never passed over for a later one.
  lemma SelectedIff(chainId: int, to: string, data: string, snapshots: seq<Snapshot>, trusted: string -> bool, now: int)
    ensures Resolve(chainId, to, data, snapshots, trusted, now).Selected? <==>
      var q := ParseRequest(chainId, to, data);
      && q.Ok?
      && exists i: nat ::
        && FirstApplies(snapshots, i, q.value, trusted)
        && Usable(snapshots[i], ReadHeader(HexDecode(snapshots[i].artifact.payloadHex)).value, q.value, now)
  {
    hide Applies, ReadHeader, HexDecode, Verdict, Usable, IsHex, WithoutPrefix;
    var q := ParseRequest(chainId, to, data);
    if q.Ok? {
      var i := ScanIsFirst(snapshots, q.value, trusted, now);
      if i < |snapshots| {
        VerdictIff(snapshots[i], FirstHeader(snapshots[i], q.value, trusted), q.value, now);
        forall k: nat | FirstApplies(snapshots, k, q.value, trusted) ensures k == i {
        }
      }
    }
  }

  function FirstHeader(s: Snapshot, q: Request, trusted: string -> bool): (h: Header)
    requires |q.calldata| >= 8 && Applies(s, q, trusted)
    ensures ReadHeader(HexDecode(s.artifact.payloadHex)) == Some(h) && Names(h, q)
  {
    ReadHeader(HexDecode(s.artifact.payloadHex)).value
  }

  // Production trust: the certificate is the root's and has not expired.
  function UnderRoot(crypto: Crypto, now: int): string -> bool {
    (certificateHex: string) =>
      var certificate := ExactHex(certificateHex, CERTIFICATE_BYTES);
      certificate.Some?
        && CertificateBody.InspectCertificate(certificate.value, now / 1000, crypto.keccak, crypto.rootSigned).Ok?
  }

  // What is selected under production trust carries a certificate the root
  // signed that is still valid.
  lemma SelectedCertificate(crypto: Crypto, chainId: int, to: string, data: string, snapshots: seq<Snapshot>, now: int)
    returns (certificate: Buffer)
    requires Resolve(chainId, to, data, snapshots, UnderRoot(crypto, now), now).Selected?
    ensures var envelope :=
      WithoutPrefix(Resolve(chainId, to, data, snapshots, UnderRoot(crypto, now), now).selection.signedPayload);
      && ExactHex(CertificateSlice(envelope), CERTIFICATE_BYTES) == Some(certificate)
      && var cert := CertificateBody.InspectCertificate(certificate, now / 1000, crypto.keccak, crypto.rootSigned);
      && cert.Ok? && now < cert.value.notAfter * 1000
      && crypto.rootSigned(certificate[..75], certificate[75..])
  {
    hide Names, ReadHeader, HexDecode, CertificateSlice, ExactHex, IdentityRefusal,
      CertificateBody.InspectCertificate, Lower;
    var trusted := UnderRoot(crypto, now);
    var q := ParseRequest(chainId, to, data).value;
    var i := ScanIsFirst(snapshots, q, trusted, now);
    var a := snapshots[i].artifact;
    certificate := ExactHex(CertificateSlice(a.envelopeHex), CERTIFICATE_BYTES).value;
    assert WithoutPrefix("0x" + a.envelopeHex) == a.envelopeHex;
    CertificateLives(crypto, certificate, now);
  }

  lemma CertificateLives(crypto: Crypto, certificate: Buffer, now: int)
    requires CertificateBody.InspectCertificate(certificate, now / 1000, crypto.keccak, crypto.rootSigned).Ok?
    ensures |certificate| == CERTIFICATE_BYTES && crypto.rootSigned(certificate[..75], certificate[75..])
    ensures now < CertificateBody.InspectCertificate(certificate, now / 1000, crypto.keccak,
      crypto.rootSigned).value.notAfter * 1000
  {
    hide CertificateBody.ReadAlias, ReadU32;
  }

  // ---- From compiler to resolver ----

  lemma HeaderReadsBack(s: Schema)
    requires SchemaShaped(s)
    ensures ReadHeader(SchemaBytes(s))
      == Some(Header(s.chainId, "0x" + HexEncode(s.contract), "0x" + HexEncode(s.selector), s.title, 4 + 32 * |s.args|))
  {
    hide IsPlain, SchemaBytes, Ascii, Text, HexEncode, ReadSchema, ReadHeader, ReadU16, ReadU32;
    SchemaReadsBack(s);
    TextBack(s.title, METHOD_MAX);
    HeaderFields(s);
    hide SchemaShaped;
    HeaderOf(SchemaBytes(s), |s.title|);
  }

  lemma HeaderOf(b: Buffer, n: nat)
    requires |b| >= 39 && b[0] == 2 && ReadU16(b, 29) == n && 31 + n < |b|
    ensures var count: int := b[31 + n];
      ReadHeader(b)
        == Some(Header(ReadU32(b, 1), "0x" + HexEncode(b[5..25]), "0x" + HexEncode(b[25..29]),
                       Text(b[31..31 + n]), 4 + count * 32))
  {
    hide HexEncode, Text, ReadU16, ReadU32;
  }

  lemma HeaderFields(s: Schema)
    requires SchemaShaped(s)
    ensures |s.title| <= METHOD_MAX
    ensures var b, off := SchemaBytes(s), 31 + |s.title|;
      && |b| > off && b[0] == 2 && ReadU32(b, 1) == s.chainId && b[5..25] == s.contract && b[25..29] == s.selector
      && ReadU16(b, 29) == |s.title| && b[31..off] == Ascii(s.title) && b[off] == |s.args|
  {
    TextBack(s.title, METHOD_MAX);
    hide IsPlain, SchemaHead, EncodeArg, Ascii, ReadU16, ReadU32;
    var tail := EncodeAll(EncodeArg, s.args) + TRAILER;
    var title := Ascii(s.title);
    HeadFields(s.chainId, s.contract, s.selector, s.title, title + ([|s.args|] + tail));
    AfterTitle(SchemaBytes(s), title, |s.args|, tail);
  }

  lemma AfterTitle(b: Buffer, title: Buffer, count: Byte, tail: Buffer)
    requires |b| >= 31 && b[31..] == title + ([count] + tail)
    ensures var off := 31 + |title|; off < |b| && b[31..off] == title && b[off] == count
  {
    var rest := b[31..];
    assert b[31..31 + |title|] == rest[..|title|] == title;
    assert b[31 + |title|] == rest[|title|] == count;
  }

  lemma TitleIs(c: Candidate, shape: Shape)
    requires CompileSchema(Ethereum, c, shape).Ok?
    ensures var s := CompileSchema(Ethereum, c, shape).value;
      && s.title == (if c.source == Sourcify then c.name else s.title)
      && (c.source == Erc7730Registry ==> c.display.Some? && s.title == c.display.value.intent)
      && HexEncode(s.contract) == Lower(WithoutPrefix(Lower(shape.contract)))
      && HexEncode(s.selector) == Lower(WithoutPrefix(c.selector))
  {
    var s := CompileSchema(Ethereum, c, shape).value;
    CompileIff(Ethereum, c, shape, s);
    hide CompileSchema, Shows, ArgIs, IsPlain, HexEncode, Lower, WithoutPrefix, IsHex;
  }

  // An artifact compiled from an observed shape and imported applies to exactly
  // the requests for that chain, contract and selector, if its certificate is
  // trusted; and such a request is answered with the compiled method, provided
  // its calldata has the observed length and the artifact is still good.
  lemma PromotedResolves(crypto: Crypto, bundle: Bundle, compiledHash: string, c: Candidate, shape: Shape,
      ceremony: Ceremony, importedAt: int, job: Option<Job>, later: seq<Snapshot>, q: Request,
      trusted: string -> bool, now: int)
    requires bundle.chain == Ethereum && |q.calldata| >= 8
    requires Compile(Ethereum, c, shape).Ok?
    requires Import(crypto, bundle, compiledHash, Compile(Ethereum, c, shape).value, ceremony, importedAt).Ok?
    ensures var body := Compile(Ethereum, c, shape).value;
      var s := Snapshot(Import(crypto, bundle, compiledHash, body, ceremony, importedAt).value, job);
      var schema := CompileSchema(Ethereum, c, shape).value;
      var applies := && q.chainId == shape.chainId
        && Lower(q.to) == Lower("0x" + Lower(WithoutPrefix(Lower(shape.contract))))
        && Lower(q.calldata[..8]) == Lower(WithoutPrefix(c.selector))
        && trusted(CertificateSlice(s.artifact.envelopeHex));
      && (Applies(s, q, trusted) <==> applies)
      && (applies ==>
        var r := Scan([s] + later, q, trusted, now);
        && (r.Selected?
          <==> |q.calldata| / 2 == shape.calldataLength && now < bundle.expiresAt
               && IdentityFresh(job, bundle.identityHash, now))
        && (r.Selected? ==>
              && r.selection.title == (if c.source == Sourcify then c.name else schema.title)
              && (c.source == Erc7730Registry ==> c.display.Some? && r.selection.title == c.display.value.intent)
              && r.selection.bundleHash == compiledHash && r.selection.expiresAt == bundle.expiresAt
              && r.selection.signedPayload == "0x" + s.artifact.envelopeHex
              && r.selection.expectedCalldataLength == shape.calldataLength))
  {
    hide Lower, HexEncode, HexDecode, CertificateSlice, IsHex, IdentityFresh, ReadHeader, SchemaBytes, Import, Prepare,
      CompileArgs, IsPlain, ExactHex, CertificateBody.InspectCertificate, Recovers, Envelope;
    var schema := CompileSchema(Ethereum, c, shape).value;
    TitleIs(c, shape);
    TextBack(schema.title, METHOD_MAX);
    var certificate, signature, recovery :=
      ImportedIsBound(crypto, bundle, compiledHash, SchemaBytes(schema), ceremony, importedAt);
    var s := Snapshot(Import(crypto, bundle, compiledHash, SchemaBytes(schema), ceremony, importedAt).value, job);
    HeaderReadsBack(schema);
    VerdictIff(s, ReadHeader(SchemaBytes(schema)).value, q, now);
    SamePrefix(HexEncode(schema.selector), Lower(q.calldata[..8]));
    assert ([s] + later)[0] == s;
  }

  lemma SamePrefix(a: string, b: string)
    ensures "0x" + a == "0x" + b <==> a == b
  {
    assert ("0x" + a)[2..] == a && ("0x" + b)[2..] == b;
  }
}
