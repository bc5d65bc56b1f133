// Certifying an address book: the request a device signs, the manifest it
// signs, and the proof that one contact is in a certified book.
module AddressBook {
  import opened Basics
  import opened Bytes
  import opened Strings
  import opened Hex
  import opened Codec
  import opened Contacts
  import opened MerkleTree

  type Digest = b: Buffer | |b| == 32 witness Zeros(32)
  type Hash = Buffer -> Digest

  const MAX_ENTRIES: nat := 16
  const PROOF_MAX: nat := 1024
  const REQUEST_MAGIC: Buffer := Ascii("KKABREQ1")
  const ROOT_MAGIC: Buffer := Ascii("KKABRT01")
  const PROOF_MAGIC: Buffer := Ascii("KKABPRF1")
  const LEAF_MAGIC: Buffer := Ascii("KKABLEAF")

  datatype BookError =
    | BadContact(why: ContactError) | BadRevision | BadCount | BadManifest
    | RootMismatch | BadAttestation | ProofTooLong

  datatype Request = Request(payload: Buffer, root: Digest)

  // A stored certification; version is 1 in a well-formed one.
  datatype Certification = Certification(
    version: int, revision: int, contacts: seq<Contact>, root: string, signature: string, publicKey: string)

  // ---- Normalizing a list ----

  function NormalizeAll(contacts: seq<Contact>): Result<seq<Contact>, BookError> {
    if contacts == [] then Ok([])
    else
      var first := Normalize(contacts[0]);
      if first.Err? then Err(BadContact(first.error))
      else
        var others := NormalizeAll(contacts[1..]);
        if others.Err? then others else Ok([first.value] + others.value)
  }

  ghost predicate AllCanonical(contacts: seq<Contact>) {
    forall i :: 0 <= i < |contacts| ==> Canonical(contacts[i])
  }

  lemma {:induction false} NormalizeAllMaps(contacts: seq<Contact>)
    ensures NormalizeAll(contacts).Ok? <==> forall i :: 0 <= i < |contacts| ==> Normalize(contacts[i]).Ok?
    ensures NormalizeAll(contacts).Ok? ==>
      var n := NormalizeAll(contacts).value;
      |n| == |contacts| && AllCanonical(n) && forall i :: 0 <= i < |n| ==> Normalize(contacts[i]) == Ok(n[i])
  {
    hide Normalize, Canonical;
    if contacts != [] {
      NormalizeAllMaps(contacts[1..]);
      if forall i :: 0 <= i < |contacts| ==> Normalize(contacts[i]).Ok? {
        assert forall i :: 0 <= i < |contacts[1..]| ==> contacts[1..][i] == contacts[i + 1];
      } else {
        var i :| 0 <= i < |contacts| && !Normalize(contacts[i]).Ok?;
        assert i > 0 ==> contacts[i] == contacts[1..][i - 1];
      }
      if NormalizeAll(contacts).Ok? {
        NormalizeIsCanonical(contacts[0]);
      }
    }
  }

  lemma {:induction false} NormalizeAllFixed(contacts: seq<Contact>)
    requires AllCanonical(contacts)
    ensures NormalizeAll(contacts) == Ok(contacts)
  {
    hide Normalize, Canonical;
    if contacts != [] {
      NormalizeAllFixed(contacts[1..]);
      FixedIffCanonical(contacts[0]);
      assert contacts == [contacts[0]] + contacts[1..];
    }
  }

  // ---- The tree over contacts ----

  function HashPair(h: Hash): (join: (Digest, Digest) -> Digest)
    ensures forall a: Digest, b: Digest :: join(a, b) == h(a + b)
  {
    (a: Digest, b: Digest) => h(a + b)
  }

  function Leaf(h: Hash, c: Contact): Digest {
    h(LEAF_MAGIC + EntryBytes(c))
  }

  lemma LeafIs(h: Hash, c: Contact)
    ensures Leaf(h, c) == h(Ascii("KKABLEAF") + EntryBytes(c))
  {
  }

  function Leaves(h: Hash, contacts: seq<Contact>): (r: seq<Digest>)
    ensures |r| == |contacts| && forall i :: 0 <= i < |r| ==> r[i] == Leaf(h, contacts[i])
  {
    seq(|contacts|, i requires 0 <= i < |contacts| => Leaf(h, contacts[i]))
  }

  function TreeRoot(h: Hash, leaves: seq<Digest>): Digest
    requires leaves != []
  {
    Root(HashPair(h), Padded(leaves), Depth(|leaves|))
  }

  function TreeContacts(contacts: seq<Contact>): (r: Result<seq<Contact>, BookError>)
    ensures r.Ok? ==> 1 <= |r.value| == |contacts| <= MAX_ENTRIES && AllCanonical(r.value)
  {
    NormalizeAllMaps(contacts);
    if 1 <= |contacts| <= MAX_ENTRIES then NormalizeAll(contacts) else Err(BadCount)
  }

  method Tree(h: Hash, contacts: seq<Contact>) returns (r: Result<seq<seq<Digest>>, BookError>)
    ensures r == match TreeContacts(contacts)
      case Err(e) => Err(e)
      case Ok(n) => Ok(Levels(HashPair(h), Padded(Leaves(h, n)), Depth(|n|)))
  {
    hide NormalizeAll, Levels, Padded, Depth, Leaf;
    if |contacts| == 0 || |contacts| > MAX_ENTRIES {
      return Err(BadCount);
    }
    var normalized := TreeContacts(contacts);
    if normalized.Err? {
      return Err(normalized.error);
    }
    var levels := BuildTree(HashPair(h), Leaves(h, normalized.value));
    return Ok(levels);
  }

  // ---- The certification request ----

  function RequestBytes(contacts: seq<Contact>, revision: nat): Buffer
    requires |contacts| < 256 && revision < U32_LIMIT
  {
    REQUEST_MAGIC + [1] + U32(revision) + [|contacts|] + EncodeAll(EntryBytes, contacts)
  }

  function Certify(h: Hash, contacts: seq<Contact>, revision: int): Result<Request, BookError> {
    if !(0 < revision < U32_LIMIT) then Err(BadRevision)
    else
      var normalized := NormalizeAll(contacts);
      if normalized.Err? then Err(normalized.error)
      else if !(1 <= |normalized.value| <= MAX_ENTRIES) then Err(BadCount)
      else Ok(Request(RequestBytes(normalized.value, revision), TreeRoot(h, Leaves(h, normalized.value))))
  }

  method BuildCertificationRequest(h: Hash, contacts: seq<Contact>, revision: int)
      returns (r: Result<Request, BookError>)
    ensures r == Certify(h, contacts, revision)
  {
    if revision <= 0 || revision >= U32_LIMIT {
      return Err(BadRevision);
    }
    var all := NormalizeAll(contacts);
    if all.Err? {
      return Err(all.error);
    }
    var normalized := all.value;
    NormalizeAllMaps(contacts);
    NormalizeAllFixed(normalized);
    hide NormalizeAll, AllCanonical, Levels, Padded, Leaves, RequestBytes;
    var levels := Tree(h, normalized);
    if levels.Err? {
      return Err(levels.error);
    }
    TopIsRoot(h, Leaves(h, normalized));
    return Ok(Request(RequestBytes(normalized, revision), Last(levels.value)[0]));
  }

  lemma TopIsRoot(h: Hash, leaves: seq<Digest>)
    requires leaves != []
    ensures Last(Levels(HashPair(h), Padded(leaves), Depth(|leaves|)))[0] == TreeRoot(h, leaves)
  {
    hide Padded, Depth, LevelAt, Root;
    RootIsTop(HashPair(h), Padded(leaves), Depth(|leaves|));
  }

  // A reader of requests, and the contacts it recovers.
  function ReadRequest(b: Buffer): Option<(nat, seq<Contact>)> {
    if |b| < 14 || b[..8] != REQUEST_MAGIC || b[8] != 1 then None
    else
      var contacts := ReadMany(ReadEntry, b[13], b[14..]);
      if contacts.Fail? || contacts.rest != [] then None else Some((ReadU32(b, 9), contacts.value))
  }

  lemma RequestReadsBack(contacts: seq<Contact>, revision: nat)
    requires AllCanonical(contacts) && |contacts| < 256 && revision < U32_LIMIT
    ensures ReadRequest(RequestBytes(contacts, revision)) == Some((revision, contacts))
    ensures RequestBytes(contacts, revision)[..8] == Ascii("KKABREQ1")
  {
    hide Canonical, EntryBytes, ReadEntry;
    forall i | 0 <= i < |contacts| ensures Undoes(ReadEntry, EntryBytes, contacts[i]) {
      EntryUndone(contacts[i]);
    }
    hide Undoes;
    var b, entries := RequestBytes(contacts, revision), EncodeAll(EntryBytes, contacts);
    ReadManyBack(ReadEntry, EntryBytes, contacts, []);
    assert entries + [] == entries;
    assert b[14..] == entries;
    assert b[..8] == REQUEST_MAGIC && b[8] == 1 && b[13] == |contacts|;
    assert b[9..13] == U32(revision);
    U32Read(revision, b, 9);
  }

  // The contacts given spell those of n, one by one.
  ghost predicate AllSpelled(contacts: seq<Contact>, n: seq<Contact>) {
    |contacts| == |n| && forall i :: 0 <= i < |n| ==> Canonical(n[i]) && Spells(contacts[i], n[i])
  }

  lemma {:induction false} NormalizeAllIff(contacts: seq<Contact>, n: seq<Contact>)
    ensures NormalizeAll(contacts) == Ok(n) <==> AllSpelled(contacts, n)
  {
    if contacts != [] && n != [] {
      NormalizeAllIff(contacts[1..], n[1..]);
      NormalizeIff(contacts[0], n[0]);
      SpelledCons(contacts, n);
      hide Normalize, Canonical, Spells, AllSpelled;
      assert n == [n[0]] + n[1..];
    }
  }

  lemma SpelledCons(contacts: seq<Contact>, n: seq<Contact>)
    requires contacts != [] && n != []
    ensures AllSpelled(contacts, n)
      <==> Canonical(n[0]) && Spells(contacts[0], n[0]) && AllSpelled(contacts[1..], n[1..])
  {
    hide Canonical, Spells;
    assert forall i :: 0 < i < |n| ==> n[i] == n[1..][i - 1];
    assert forall i :: 0 < i < |contacts| ==> contacts[i] == contacts[1..][i - 1];
  }

  // A request is built exactly for a positive 32-bit revision and 1 to 16
  // contacts that each spell a canonical one, and it spells that revision and
  // those canonical contacts.
  lemma CertifyReadsBack(h: Hash, contacts: seq<Contact>, revision: int)
    ensures Certify(h, contacts, revision).Ok?
      <==> 0 < revision < 0x1_0000_0000 && 1 <= |contacts| <= 16 && exists n :: AllSpelled(contacts, n)
    ensures Certify(h, contacts, revision).Ok? ==>
      var r := ReadRequest(Certify(h, contacts, revision).value.payload);
      && r.Some? && r.value.0 == revision && AllSpelled(contacts, r.value.1)
      && Certify(h, contacts, revision).value.payload[..8] == Ascii("KKABREQ1")
  {
    NormalizeAllMaps(contacts);
    hide Normalize, NormalizeAll, AllCanonical, ReadRequest, RequestBytes, TreeRoot, AllSpelled, Leaves;
    if n :| AllSpelled(contacts, n) {
      NormalizeAllIff(contacts, n);
    }
    if NormalizeAll(contacts).Ok? {
      NormalizeAllIff(contacts, NormalizeAll(contacts).value);
    }
    if Certify(h, contacts, revision).Ok? {
      RequestReadsBack(NormalizeAll(contacts).value, revision);
    }
  }

  // Why a request is refused, in the order of the checks: its revision, one of its
  // contacts, their number.
  lemma CertifyRefuses(h: Hash, contacts: seq<Contact>, revision: int)
    ensures var r := Certify(h, contacts, revision);
      var ranged := 0 < revision < 0x1_0000_0000;
      && (r == Err(BadRevision) <==> !ranged)
      && (r.Err? && r.error.BadContact? <==> ranged && forall n :: !AllSpelled(contacts, n))
      && (r == Err(BadCount) <==> ranged && (exists n :: AllSpelled(contacts, n)) && !(1 <= |contacts| <= 16))
  {
    NormalizeAllMaps(contacts);
    NormalizeErrors(contacts);
    hide Normalize, NormalizeAll, AllCanonical, RequestBytes, TreeRoot, AllSpelled, Leaves;
    if n :| AllSpelled(contacts, n) {
      NormalizeAllIff(contacts, n);
    }
    if NormalizeAll(contacts).Ok? {
      NormalizeAllIff(contacts, NormalizeAll(contacts).value);
    }
  }

  lemma {:induction false} NormalizeErrors(contacts: seq<Contact>)
    ensures NormalizeAll(contacts).Err? ==> NormalizeAll(contacts).error.BadContact?
  {
    hide Normalize;
    if contacts != [] {
      NormalizeErrors(contacts[1..]);
    }
  }

  lemma CertifiedContacts(h: Hash, contacts: seq<Contact>, revision: int)
    requires Certify(h, contacts, revision).Ok?
    ensures NormalizeAll(contacts).Ok? && 0 < revision < U32_LIMIT && 1 <= |contacts| <= MAX_ENTRIES
    ensures |NormalizeAll(contacts).value| == |contacts| && AllCanonical(NormalizeAll(contacts).value)
  {
    NormalizeAllMaps(contacts);
    hide NormalizeAll, AllCanonical, RequestBytes, TreeRoot, Leaves;
  }
}
