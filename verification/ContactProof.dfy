// The proof that one contact belongs to a certified address book: building it,
// reading it back, and what a proof that checks can show.
module ContactProof {
  import opened Basics
  import opened Bytes
  import opened Strings
  import opened Hex
  import opened Codec
  import opened Contacts
  import opened MerkleTree
  import opened AddressBook

  datatype Proof = Proof(
    version: Byte, revision: nat, count: Byte, root: Buffer, publicKey: Buffer, signature: Buffer,
    contact: Contact, index: Byte, siblings: seq<Digest>)

  // The field widths of the payload.
  predicate WellSized(p: Proof) {
    && p.revision < U32_LIMIT && |p.root| == 32 && |p.publicKey| == 33 && |p.signature| == 64 && |p.siblings| < 256
  }

  function Raw(d: Digest): Buffer {
    d
  }

  function Head(p: Proof): (r: Buffer)
    requires WellSized(p)
    ensures |r| == 143
  {
    PROOF_MAGIC + [p.version] + U32(p.revision) + [p.count] + p.root + p.publicKey + p.signature
  }

  function ProofBytes(p: Proof): Buffer
    requires WellSized(p)
  {
    Head(p) + (EntryBytes(p.contact) + ([p.index, |p.siblings|] + EncodeAll(Raw, p.siblings)))
  }

  function FirstMatch(contacts: seq<Contact>, network: string, destinationType: int, destination: string): (n: nat)
    ensures n <= |contacts|
    ensures forall i :: 0 <= i < n ==> !Matches(contacts[i], network, destinationType, destination)
    ensures n < |contacts| ==> Matches(contacts[n], network, destinationType, destination)
  {
    if contacts == [] || Matches(contacts[0], network, destinationType, destination) then 0
    else 1 + FirstMatch(contacts[1..], network, destinationType, destination)
  }

  predicate Matches(c: Contact, network: string, destinationType: int, destination: string) {
    c.network == network && c.destinationType == destinationType && c.destination == destination
  }

  function MakeProof(h: Hash, cert: Certification, n: seq<Contact>, index: nat): (p: Proof)
    requires 1 <= |n| <= MAX_ENTRIES && index < |n| && 2 * 32 <= |cert.root|
    requires |HexDecode(cert.root)| == 32 && |HexDecode(cert.publicKey)| == 33 && |HexDecode(cert.signature)| == 64
    ensures WellSized(p)
  {
    SmallDepth(|n|);
    Proof(cert.version % 256, cert.revision % U32_LIMIT, |n|, HexDecode(cert.root), HexDecode(cert.publicKey),
      HexDecode(cert.signature),
      n[index], index, Path(HashPair(h), Padded(Leaves(h, n)), Depth(|n|), index))
  }

  // What the source's search, tree, root check and layout amount to.
  function ProofFor(h: Hash, cert: Certification, network: string, destinationType: int,
      destination: string): (r: Result<Option<Proof>, BookError>)
    ensures r.Ok? && r.value.Some? ==> WellSized(r.value.value)
  {
    var index := FirstMatch(cert.contacts, network, destinationType, StripHexPrefix(Lower(destination)));
    if index == |cert.contacts| then Ok(None)
    else
      var tree := TreeContacts(cert.contacts);
      if tree.Err? then Err(tree.error)
      else if HexEncode(TreeRoot(h, Leaves(h, tree.value))) != Lower(cert.root) then Err(RootMismatch)
      else if |HexDecode(cert.publicKey)| != 33 || |HexDecode(cert.signature)| != 64 then Err(BadAttestation)
      else
        SameHexText(TreeRoot(h, Leaves(h, tree.value)), cert.root);
        Ok(Some(MakeProof(h, cert, tree.value, index)))
  }

  function ContactProofText(h: Hash, cert: Certification, network: string, destinationType: int,
      destination: string): Result<Option<string>, BookError> {
    match ProofFor(h, cert, network, destinationType, destination)
    case Err(e) => Err(e)
    case Ok(None) => Ok(None)
    case Ok(Some(p)) => if |ProofBytes(p)| > PROOF_MAX then Err(ProofTooLong) else Ok(Some(HexEncode(ProofBytes(p))))
  }

  lemma TreeFits(h: Hash, n: seq<Contact>, index: nat)
    requires 1 <= |n| && index < |n|
    ensures var levels := Levels(HashPair(h), Padded(Leaves(h, n)), Depth(|n|));
      && |levels| - 1 == Depth(|n|) && levels != [] && Last(levels) != []
      && Last(levels)[0] == TreeRoot(h, Leaves(h, n))
      && index < |Padded(Leaves(h, n))|
  {
    TopIsRoot(h, Leaves(h, n));
  }

  lemma TreeContactAt(contacts: seq<Contact>, index: nat)
    requires index < |contacts| && TreeContacts(contacts).Ok?
    ensures Normalize(contacts[index]) == Ok(TreeContacts(contacts).value[index])
  {
    hide Normalize, NormalizeAll, AllCanonical;
    NormalizeAllMaps(contacts);
  }

  method BuildContactProof(h: Hash, cert: Certification, network: string, destinationType: int, destination: string)
    returns (r: Result<Option<string>, BookError>)
    ensures r == ContactProofText(h, cert, network, destinationType, destination)
  {
    hide Levels, Padded, Leaves, Path, Depth, HexDecode, HexEncode, EntryBytes, ProofBytes, Normalize, Matches, Lower,
      TreeContacts, TreeRoot, WellSized, StripHexPrefix, AllCanonical;
    var index := FirstMatch(cert.contacts, network, destinationType, StripHexPrefix(Lower(destination)));
    if index == |cert.contacts| {
      return Ok(None);
    }
    var tree := Tree(h, cert.contacts);
    if tree.Err? {
      return Err(tree.error);
    }
    var levels := tree.value;
    ghost var n := TreeContacts(cert.contacts).value;
    TreeFits(h, n, index);
    TreeContactAt(cert.contacts, index);
    var root := Last(levels)[0];
    if HexEncode(root) != Lower(cert.root) {
      return Err(RootMismatch);
    }
    var siblings := CollectSiblings(HashPair(h), Padded(Leaves(h, n)), levels, index);
    var publicKey, signature := HexDecode(cert.publicKey), HexDecode(cert.signature);
    if |publicKey| != 33 || |signature| != 64 {
      return Err(BadAttestation);
    }
    SameHexText(root, cert.root);
    var proof := Proof(cert.version % 256, cert.revision % U32_LIMIT, |cert.contacts|, HexDecode(cert.root),
      publicKey, signature,
      Normalize(cert.contacts[index]).value, index, siblings);
    assert ProofFor(h, cert, network, destinationType, destination) == Ok(Some(proof));
    var payload := ProofBytes(proof);
    if |payload| > PROOF_MAX {
      return Err(ProofTooLong);
    }
    return Ok(Some(HexEncode(payload)));
  }

  // ---- Size ----

  lemma {:induction false} RawLength(ds: seq<Digest>)
    ensures |EncodeAll(Raw, ds)| == 32 * |ds|
  {
    if ds != [] {
      RawLength(ds[1..]);
    }
  }

  lemma ProofLength(p: Proof)
    requires WellSized(p) && Canonical(p.contact)
    ensures |ProofBytes(p)| == 145 + |EntryBytes(p.contact)| + 32 * |p.siblings|
    ensures |p.siblings| <= 4 ==> |ProofBytes(p)| <= 428
  {
    hide Canonical, EntryBytes, Head;
    EntryLength(p.contact);
    RawLength(p.siblings);
  }

  // Every proof the source issues fits in 428 bytes, so it never refuses one
  // for its length.
  lemma ProofShort(h: Hash, cert: Certification, network: string, destinationType: int, destination: string)
    ensures ContactProofText(h, cert, network, destinationType, destination) != Err(ProofTooLong)
    ensures var r := ProofFor(h, cert, network, destinationType, destination);
      r.Ok? && r.value.Some? ==> |ProofBytes(r.value.value)| <= 428
  {
    hide Matches, Normalize, Canonical, ProofBytes, NormalizeAll, Path, Padded, Depth;
    var r := ProofFor(h, cert, network, destinationType, destination);
    if r.Ok? && r.value.Some? {
      var n := TreeContacts(cert.contacts).value;
      SmallDepth(|n|);
      ProofLength(r.value.value);
    } else if TreeContacts(cert.contacts).Err? {
      TreeErrors(cert.contacts);
    }
  }

  lemma TreeErrors(contacts: seq<Contact>)
    requires TreeContacts(contacts).Err?
    ensures TreeContacts(contacts).error != ProofTooLong
  {
    NormalizeErrors(contacts);
  }

  // ---- Reading a proof back ----

  function ReadDigest(b: Buffer): Read<Digest> {
    if |b| < 32 then Fail else Got(b[..32], b[32..])
  }

  function ReadTail(b: Buffer): Option<(Byte, seq<Digest>)> {
    if |b| < 2 then None
    else
      var siblings := ReadMany(ReadDigest, b[1], b[2..]);
      if siblings.Fail? || siblings.rest != [] then None else Some((b[0], siblings.value))
  }

  function ReadProof(b: Buffer): Option<Proof> {
    if |b| < 143 || b[..8] != PROOF_MAGIC then None
    else
      var contact := ReadEntry(b[143..]);
      if contact.Fail? then None
      else
        var tail := ReadTail(contact.rest);
        if tail.None? then None
        else Some(Proof(b[8], ReadU32(b, 9), b[13], b[14..46], b[46..79], b[79..143], contact.value, tail.value.0,
             tail.value.1))
  }

  lemma DigestUndone(d: Digest)
    ensures Undoes(ReadDigest, Raw, d)
  {
    forall rest ensures ReadDigest(Raw(d) + rest) == Got(d, rest) {
      ReadBytesBack(d, rest);
    }
  }

  lemma TailBack(index: Byte, siblings: seq<Digest>)
    requires |siblings| < 256
    ensures ReadTail([index, |siblings|] + EncodeAll(Raw, siblings)) == Some((index, siblings))
  {
    forall i | 0 <= i < |siblings| ensures Undoes(ReadDigest, Raw, siblings[i]) {
      DigestUndone(siblings[i]);
    }
    hide Undoes, ReadDigest, Raw;
    var all := EncodeAll(Raw, siblings);
    ReadManyBack(ReadDigest, Raw, siblings, []);
    assert all + [] == all;
    assert ([index, |siblings|] + all)[2..] == all;
  }

  lemma HeadBack(p: Proof, rest: Buffer)
    requires WellSized(p)
    ensures var b := Head(p) + rest;
      && b[..8] == PROOF_MAGIC && b[8] == p.version && ReadU32(b, 9) == p.revision && b[13] == p.count
      && b[14..46] == p.root && b[46..79] == p.publicKey && b[79..143] == p.signature && b[143..] == rest
  {
    var b := Head(p) + rest;
    assert b[9..13] == U32(p.revision);
    U32Read(p.revision, b, 9);
  }

  lemma ProofReadsBack(p: Proof)
    requires WellSized(p) && Canonical(p.contact)
    ensures ReadProof(ProofBytes(p)) == Some(p) && ProofBytes(p)[..8] == Ascii("KKABPRF1")
  {
    hide Canonical, Head, EntryBytes, ReadEntry, ReadTail;
    var tail := [p.index, |p.siblings|] + EncodeAll(Raw, p.siblings);
    HeadBack(p, EntryBytes(p.contact) + tail);
    EntryBack(p.contact, tail);
    TailBack(p.index, p.siblings);
  }

  // ---- Checking a proof ----

  ghost predicate Checks(h: Hash, p: Proof) {
    Fold(HashPair(h), h(Ascii("KKABLEAF") + EntryBytes(p.contact)), p.index, p.siblings) == p.root
  }

  lemma LeafPath(h: Hash, n: seq<Contact>, index: nat)
    requires n != [] && index < |n|
    ensures Fold(HashPair(h), Leaf(h, n[index]), index, Path(HashPair(h), Padded(Leaves(h, n)), Depth(|n|), index))
      == TreeRoot(h, Leaves(h, n))
  {
    var leaves := Leaves(h, n);
    var first := Padded(leaves);
    assert first[index] == leaves[index] == Leaf(h, n[index]);
    PathFolds(HashPair(h), first, Depth(|n|), index);
  }

  // c is the contact asked for, the destination in any case and with or without
  // one 0x.
  predicate Asked(c: Contact, network: string, destinationType: int, destination: string) {
    && c.network == network && c.destinationType == destinationType
    && (Lower(destination) == "0x" + c.destination
        || (Lower(destination) == c.destination && !("0x" <= c.destination)))
  }

  lemma AskedIff(c: Contact, network: string, destinationType: int, destination: string)
    ensures Matches(c, network, destinationType, StripHexPrefix(Lower(destination)))
      <==> Asked(c, network, destinationType, destination)
  {
    var s := Lower(destination);
    if "0x" <= s {
      assert s == "0x" + s[2..];
      assert ("0x" + c.destination)[2..] == c.destination;
    }
  }

  lemma FirstAsked(contacts: seq<Contact>, network: string, destinationType: int, destination: string)
    ensures var i := FirstMatch(contacts, network, destinationType, StripHexPrefix(Lower(destination)));
      && (forall k :: 0 <= k < i ==> !Asked(contacts[k], network, destinationType, destination))
      && (i < |contacts| ==> Asked(contacts[i], network, destinationType, destination))
  {
    var i := FirstMatch(contacts, network, destinationType, StripHexPrefix(Lower(destination)));
    hide StripHexPrefix, Lower, Matches, Asked;
    forall k | 0 <= k < |contacts|
      ensures Matches(contacts[k], network, destinationType, StripHexPrefix(Lower(destination)))
        <==> Asked(contacts[k], network, destinationType, destination)
    {
      AskedIff(contacts[k], network, destinationType, destination);
    }
  }

  // Whatever the source issues reads back as a proof of the first contact asked
  // for, spelled canonically, that checks against the stored root.
  lemma IssuedProofChecks(h: Hash, cert: Certification, network: string, destinationType: int, destination: string)
    requires var r := ContactProofText(h, cert, network, destinationType, destination); r.Ok? && r.value.Some?
    ensures var read :=
      ReadProof(HexDecode(ContactProofText(h, cert, network, destinationType, destination).value.value));
      && read.Some?
      && HexDecode(ContactProofText(h, cert, network, destinationType, destination).value.value)[..8]
        == Ascii("KKABPRF1")
      && var p := read.value;
      && p.version == cert.version % 256 && p.revision == cert.revision % 0x1_0000_0000 && p.count == |cert.contacts|
      && p.root == HexDecode(cert.root) && p.publicKey == HexDecode(cert.publicKey)
        && p.signature == HexDecode(cert.signature)
      && p.index < |cert.contacts| && Asked(cert.contacts[p.index], network, destinationType, destination)
      && (forall k :: 0 <= k < p.index ==> !Asked(cert.contacts[k], network, destinationType, destination))
      && Canonical(p.contact) && Spells(cert.contacts[p.index], p.contact)
      && Checks(h, p)
  {
    hide Matches, Normalize, Canonical, ProofBytes, NormalizeAll, Path, Padded, Depth, Fold, ReadProof, Leaf, Lower,
      StripHexPrefix, WellSized, Asked, Spells;
    var r := ProofFor(h, cert, network, destinationType, destination);
    var p, n := r.value.value, TreeContacts(cert.contacts).value;
    HexBack(ProofBytes(p));
    ProofReadsBack(p);
    LeafIs(h, p.contact);
    TreeContactAt(cert.contacts, p.index);
    LeafPath(h, n, p.index);
    SameHexText(TreeRoot(h, Leaves(h, n)), cert.root);
    FirstAsked(cert.contacts, network, destinationType, destination);
    NormalizeIff(cert.contacts[p.index], p.contact);
  }

  // The stored root is that of the book the stored contacts spell.
  ghost predicate RootAgrees(h: Hash, cert: Certification, n: seq<Contact>) {
    AllSpelled(cert.contacts, n) && 1 <= |n| <= 16 && HexEncode(TreeRoot(h, Leaves(h, n))) == Lower(cert.root)
  }

  // A proof is issued exactly when the contact is there, the stored root agrees
  // and the attestation has its widths; and none is when it is not there.
  lemma IssuedIff(h: Hash, cert: Certification, network: string, destinationType: int, destination: string)
    ensures var r := ContactProofText(h, cert, network, destinationType, destination);
      && (r == Ok(None)
        <==> forall k :: 0 <= k < |cert.contacts| ==> !Asked(cert.contacts[k], network, destinationType, destination))
      && (r.Ok? && r.value.Some? <==>
            && (exists k :: 0 <= k < |cert.contacts| && Asked(cert.contacts[k], network, destinationType, destination))
            && (exists n :: RootAgrees(h, cert, n))
            && |HexDecode(cert.publicKey)| == 33 && |HexDecode(cert.signature)| == 64)
  {
    FirstAsked(cert.contacts, network, destinationType, destination);
    ProofShort(h, cert, network, destinationType, destination);
    AgreesIff(h, cert);
    hide Matches, ProofBytes, HexEncode, HexDecode, StripHexPrefix, Lower, Asked, TreeContacts, TreeRoot, Leaves,
      RootAgrees, MakeProof;
  }

  lemma AgreesIff(h: Hash, cert: Certification)
    ensures (exists n :: RootAgrees(h, cert, n))
      <==> TreeContacts(cert.contacts).Ok?
           && HexEncode(TreeRoot(h, Leaves(h, TreeContacts(cert.contacts).value))) == Lower(cert.root)
  {
    hide NormalizeAll, AllSpelled, TreeRoot, HexEncode, Lower, Leaves;
    var t := NormalizeAll(cert.contacts);
    if t.Ok? {
      NormalizeAllIff(cert.contacts, t.value);
      if TreeContacts(cert.contacts).Ok? && HexEncode(TreeRoot(h, Leaves(h, t.value))) == Lower(cert.root) {
        assert RootAgrees(h, cert, t.value);
      }
    }
    if n :| RootAgrees(h, cert, n) {
      NormalizeAllIff(cert.contacts, n);
      SpelledSize(cert.contacts, n);
    }
  }

  lemma SpelledSize(contacts: seq<Contact>, n: seq<Contact>)
    requires AllSpelled(contacts, n)
    ensures |contacts| == |n|
  {
  }

  // cert stores what Certify produced for these contacts.
  ghost predicate Stores(h: Hash, contacts: seq<Contact>, revision: int, cert: Certification) {
    && Certify(h, contacts, revision).Ok?
    && AllSpelled(contacts, cert.contacts)
    && cert.root == HexEncode(Certify(h, contacts, revision).value.root)
    && |HexDecode(cert.publicKey)| == 33 && |HexDecode(cert.signature)| == 64
  }

  lemma StoredIs(h: Hash, contacts: seq<Contact>, revision: int, cert: Certification)
    requires Stores(h, contacts, revision, cert)
    ensures NormalizeAll(contacts) == Ok(cert.contacts) && AllCanonical(cert.contacts)
    ensures 1 <= |cert.contacts| <= MAX_ENTRIES
    ensures Certify(h, contacts, revision).value.root == TreeRoot(h, Leaves(h, cert.contacts))
  {
    NormalizeAllIff(contacts, cert.contacts);
    NormalizeAllMaps(contacts);
    hide NormalizeAll, AllSpelled, AllCanonical, TreeRoot, Leaves, RequestBytes, HexEncode, HexDecode;
  }

  lemma CertifiedTree(h: Hash, contacts: seq<Contact>, revision: int, cert: Certification)
    requires Stores(h, contacts, revision, cert)
    ensures TreeContacts(cert.contacts) == Ok(cert.contacts)
    ensures Certify(h, contacts, revision).value.root == TreeRoot(h, Leaves(h, cert.contacts)) == HexDecode(cert.root)
    ensures HexEncode(TreeRoot(h, Leaves(h, cert.contacts))) == Lower(cert.root)
  {
    StoredIs(h, contacts, revision, cert);
    NormalizeAllFixed(cert.contacts);
    hide NormalizeAll, TreeRoot, AllCanonical, AllSpelled, Lower, Certify;
    HexBack(Certify(h, contacts, revision).value.root);
    HexLower(Certify(h, contacts, revision).value.root);
  }

  lemma CertifiedFound(h: Hash, contacts: seq<Contact>, revision: int, cert: Certification, i: nat, destination: string)
    requires Stores(h, contacts, revision, cert) && i < |cert.contacts|
    requires StripHexPrefix(Lower(destination)) == cert.contacts[i].destination
    ensures var c := cert.contacts[i];
      var r := ContactProofText(h, cert, c.network, c.destinationType, destination);
      r.Ok? && r.value.Some?
  {
    hide Normalize, ProofBytes, NormalizeAll, Lower, StripHexPrefix, TreeRoot, HexEncode, HexDecode,
      TreeContacts, MakeProof, AllSpelled, Certify;
    var c := cert.contacts[i];
    CertifiedTree(h, contacts, revision, cert);
    ProofShort(h, cert, c.network, c.destinationType, destination);
  }

  lemma AskedSame(c: Contact, d: Contact, destination: string)
    requires Names(destination, c.destination) && IsLowerHex(c.destination)
    requires Asked(d, c.network, c.destinationType, destination)
    ensures d.destination == c.destination && d.network == c.network && d.destinationType == c.destinationType
  {
    StripIff(destination, c.destination);
    AskedIff(d, c.network, c.destinationType, destination);
    hide Lower, StripHexPrefix;
  }

  // After a successful certification, every certified contact has a proof, and
  // it checks against the root the device signed.
  lemma CertifiedContactsProvable(h: Hash, contacts: seq<Contact>, revision: int, cert: Certification, i: nat,
      destination: string)
    requires Stores(h, contacts, revision, cert) && i < |cert.contacts|
    requires Names(destination, cert.contacts[i].destination)
    ensures var c := cert.contacts[i];
      var r := ContactProofText(h, cert, c.network, c.destinationType, destination);
      && r.Ok? && r.value.Some?
      && var read := ReadProof(HexDecode(r.value.value));
      && read.Some? && Checks(h, read.value) && read.value.root == Certify(h, contacts, revision).value.root
      && read.value.contact.network == c.network && read.value.contact.destinationType == c.destinationType
      && read.value.contact.destination == c.destination && read.value.contact in cert.contacts
  {
    hide Stores, Normalize, ContactProofText, NormalizeAll, ReadProof, Lower, StripHexPrefix, Checks, HexDecode,
      TreeRoot, HexEncode, TreeContacts, Certify, Asked, Spells, Names;
    var c := cert.contacts[i];
    StoredIs(h, contacts, revision, cert);
    StripIff(destination, c.destination);
    CertifiedFound(h, contacts, revision, cert, i, destination);
    CertifiedTree(h, contacts, revision, cert);
    IssuedProofChecks(h, cert, c.network, c.destinationType, destination);
    var p := ReadProof(HexDecode(ContactProofText(h, cert, c.network, c.destinationType,
      destination).value.value)).value;
    AskedSame(c, cert.contacts[p.index], destination);
    NormalizeIff(cert.contacts[p.index], p.contact);
    FixedIffCanonical(cert.contacts[p.index]);
  }

  // ---- What a checked proof shows ----

  datatype Collision = Collision(a: Buffer, b: Buffer)

  ghost predicate IsCollision(h: Hash, c: Collision) {
    c.a != c.b && h(c.a) == h(c.b)
  }

  // A proof of the tree's depth that checks against the root of a certified book
  // carries exactly the contact the padded book has at that index, or else it
  // hands us two different buffers with one hash.
  lemma ProofBinds(h: Hash, n: seq<Contact>, p: Proof) returns (collision: Option<Collision>)
    requires n != [] && AllCanonical(n) && Canonical(p.contact)
    requires p.index < Pow2(Depth(|n|)) && |p.siblings| == Depth(|n|)
    requires Checks(h, p) && p.root == TreeRoot(h, Leaves(h, n))
    ensures collision.None? ==> p.contact == n[if p.index < |n| then p.index else |n| - 1]
    ensures collision.Some? ==> IsCollision(h, collision.value)
  {
    hide Canonical, Fold, Path, EntryBytes, Depth, Root;
    var first := Padded(Leaves(h, n));
    var clash := PathBinds(HashPair(h), first, Depth(|n|), p.index, Leaf(h, p.contact), p.siblings);
    if clash.Some? {
      var c := clash.value;
      var a: Buffer, b: Buffer, a': Buffer, b': Buffer := c.left, c.right, c.left', c.right';
      JoinsDiffer(a, b, a', b');
      collision := Some(Collision(a + b, a' + b'));
    } else {
      var at := n[if p.index < |n| then p.index else |n| - 1];
      collision := SameLeaf(h, p.contact, at);
    }
  }

  lemma JoinsDiffer(a: Buffer, b: Buffer, a': Buffer, b': Buffer)
    requires |a| == |a'| == 32 && (a != a' || b != b')
    ensures a + b != a' + b'
  {
    assert (a + b)[..32] == a && (a + b)[32..] == b && (a' + b')[..32] == a' && (a' + b')[32..] == b';
  }

  lemma SameLeaf(h: Hash, c: Contact, d: Contact) returns (collision: Option<Collision>)
    requires Canonical(c) && Canonical(d) && Leaf(h, c) == Leaf(h, d)
    ensures collision.None? ==> c == d
    ensures collision.Some? ==> IsCollision(h, collision.value)
  {
    hide Canonical, EntryBytes;
    var a, b := LEAF_MAGIC + EntryBytes(c), LEAF_MAGIC + EntryBytes(d);
    if a != b {
      return Some(Collision(a, b));
    }
    assert a[8..] == EntryBytes(c) && b[8..] == EntryBytes(d);
    EntriesPrefixFree(c, d);
    collision := None;
  }

  lemma RootBindsContact(h: Hash, n: seq<Contact>, m: seq<Contact>, i: nat) returns (collision: Option<Collision>)
    requires AllCanonical(n) && AllCanonical(m) && |n| == |m| <= MAX_ENTRIES && i < |n|
    requires TreeRoot(h, Leaves(h, n)) == TreeRoot(h, Leaves(h, m))
    ensures collision.None? ==> n[i] == m[i]
    ensures collision.Some? ==> IsCollision(h, collision.value)
  {
    hide Canonical, Leaf, Path, Fold, Depth;
    LeafPath(h, m, i);
    LeafIs(h, m[i]);
    var p := Proof(1, 1, |m|, TreeRoot(h, Leaves(h, m)), [], [], m[i], i,
      Path(HashPair(h), Padded(Leaves(h, m)), Depth(|m|), i));
    collision := ProofBinds(h, n, p);
  }

  lemma {:induction false} RootBindsFirst(h: Hash, n: seq<Contact>, m: seq<Contact>, k: nat)
      returns (collision: Option<Collision>)
    requires n != [] && AllCanonical(n) && AllCanonical(m) && |n| == |m| <= MAX_ENTRIES && k <= |n|
    requires TreeRoot(h, Leaves(h, n)) == TreeRoot(h, Leaves(h, m))
    ensures collision.None? ==> n[..k] == m[..k]
    ensures collision.Some? ==> IsCollision(h, collision.value)
  {
    hide AllCanonical, TreeRoot, Leaves, IsCollision;
    collision := None;
    if k > 0 {
      collision := RootBindsFirst(h, n, m, k - 1);
      if collision.None? {
        collision := RootBindsContact(h, n, m, k - 1);
        assert n[..k] == n[..k - 1] + [n[k - 1]] && m[..k] == m[..k - 1] + [m[k - 1]];
      }
    }
  }

  // Two books of one size with one root are one book, or exhibit a collision.
  lemma RootBindsBook(h: Hash, n: seq<Contact>, m: seq<Contact>) returns (collision: Option<Collision>)
    requires n != [] && AllCanonical(n) && AllCanonical(m) && |n| == |m| <= MAX_ENTRIES
    requires TreeRoot(h, Leaves(h, n)) == TreeRoot(h, Leaves(h, m))
    ensures collision.None? ==> n == m
    ensures collision.Some? ==> IsCollision(h, collision.value)
  {
    hide AllCanonical, TreeRoot, Leaves;
    collision := RootBindsFirst(h, n, m, |n|);
    assert n[..|n|] == n && m[..|m|] == m;
  }

  // ---- The manifest ----

  function ManifestBytes(version: int, revision: int, count: nat, root: string): Result<Buffer, BookError> {
    if version != 1 || |HexDecode(root)| != 32 then Err(BadManifest)
    else Ok(ROOT_MAGIC + [version] + U32(revision % U32_LIMIT) + [count % 256] + HexDecode(root))
  }

  lemma ManifestParts(version: int, revision: nat, count: nat, root: string)
    requires revision < U32_LIMIT && count < 256 && ManifestBytes(version, revision, count, root).Ok?
    ensures var b := ManifestBytes(version, revision, count, root).value;
      && |b| == 46 && b[..8] == Ascii("KKABRT01") && version == 1 && b[8] == 1
      && ReadU32(b, 9) == revision && b[13] == count && b[14..] == HexDecode(root)
  {
    hide HexDecode;
    var b := ManifestBytes(version, revision, count, root).value;
    assert b[9..13] == U32(revision);
    U32Read(revision, b, 9);
  }

  // A manifest fixes the revision, the number of contacts and the root.
  lemma ManifestInjective(version: int, revision: nat, count: nat, root: string, version': int, revision': nat,
      count': nat, root': string)
    requires revision < U32_LIMIT && revision' < U32_LIMIT && count < 256 && count' < 256
    requires ManifestBytes(version, revision, count, root).Ok?
    requires ManifestBytes(version, revision, count, root) == ManifestBytes(version', revision', count', root')
    ensures version == version' && revision == revision' && count == count' && HexDecode(root) == HexDecode(root')
  {
    hide ManifestBytes, HexDecode;
    ManifestParts(version, revision, count, root);
    ManifestParts(version', revision', count', root');
  }

  function Manifest(cert: Certification): Result<Buffer, BookError> {
    ManifestBytes(cert.version, cert.revision, |cert.contacts|, cert.root)
  }

  // What is stored once the device has signed a request.
  ghost predicate Signed(h: Hash, contacts: seq<Contact>, revision: int, cert: Certification) {
    Stores(h, contacts, revision, cert) && cert.version == 1 && cert.revision == revision
  }

  lemma SignedFacts(h: Hash, contacts: seq<Contact>, revision: int, cert: Certification)
    requires Signed(h, contacts, revision, cert)
    ensures Manifest(cert).Ok? && 0 < cert.revision < U32_LIMIT
    ensures 1 <= |cert.contacts| <= MAX_ENTRIES && AllCanonical(cert.contacts)
    ensures HexDecode(cert.root) == TreeRoot(h, Leaves(h, cert.contacts))
  {
    hide AllCanonical, TreeRoot, HexDecode, HexEncode, NormalizeAll, Leaves;
    CertifiedTree(h, contacts, revision, cert);
    CertifiedContacts(h, contacts, revision);
  }

  // The manifest a device signs stands for one revision of one book: two
  // certifications with the same manifest have the same revision and contacts, or
  // exhibit a collision. The count is what tells a book from one whose last
  // contact is repeated as the tree repeats it.
  lemma ManifestBindsBook(
    h: Hash, contacts: seq<Contact>, revision: int, cert: Certification,
    contacts': seq<Contact>, revision': int, cert': Certification) returns (collision: Option<Collision>)
    requires Signed(h, contacts, revision, cert) && Signed(h, contacts', revision', cert')
    requires Manifest(cert) == Manifest(cert')
    ensures collision.None? ==> revision == revision' && cert.contacts == cert'.contacts
    ensures collision.Some? ==> IsCollision(h, collision.value)
  {
    hide Stores, AllCanonical, TreeRoot, Leaves, HexDecode, ManifestBytes, IsCollision;
    SignedFacts(h, contacts, revision, cert);
    SignedFacts(h, contacts', revision', cert');
    ManifestInjective(cert.version, cert.revision, |cert.contacts|, cert.root, cert'.version, cert'.revision,
      |cert'.contacts|, cert'.root);
    collision := RootBindsBook(h, cert.contacts, cert'.contacts);
  }
}
