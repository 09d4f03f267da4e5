/**
 TUF metadata as the ceremony scripts see it through python-tuf: payloads,
 signed envelopes, file contents, and the three library checks that every
 verifier in the repository is built from (threshold, binding, expiry).
 */
module Tuf {
  import opened Wrappers

  type KeyId = string
  type Key = string
  type Sig = string
  type Digest = string
  /** Whole seconds since a fixed origin, in UTC. */
  type Time = int
  type Version = v: int | 1 <= v witness 1

  const HOUR: Time := 3600
  const SNAPSHOT_EXPIRY: Time := 72 * HOUR
  const TIMESTAMP_EXPIRY: Time := 48 * HOUR

  datatype Json =
    | Null
    | Bool(b: bool)
    | Number(n: int)
    | Text(s: string)
    | List(items: seq<Json>)
    | Object(fields: map<string, Json>)

  /** Fields that python-tuf does not interpret but carries along. */
  type Fields = map<string, Json>

  /** A metadata file as Snapshot lists it; names are compared, never taken apart. */
  datatype MetaName = TargetsJson | OtherMeta(name: string)

  datatype Algorithm = Sha256 | OtherAlgorithm(name: string)

  type Hashes = map<Algorithm, Digest>

  ghost predicate Distinct<T>(s: seq<T>) {
    forall i, j :: 0 <= i < j < |s| ==> s[i] != s[j]
  }

  datatype RoleName = RootRole | TargetsRole | SnapshotRole | TimestampRole

  datatype RoleData = RoleData(keyids: seq<KeyId>, threshold: int, extra: Fields)

  /** The library refuses a role with a threshold below 1 or a repeated keyid. */
  type Role = r: RoleData | 1 <= r.threshold && Distinct(r.keyids) witness RoleData([], 1, map[])

  /** The role of one key. */
  function Solo(k: KeyId): Role {
    RoleData([k], 1, map[])
  }

  datatype Roles = Roles(root: Role, targets: Role, snapshot: Role, timestamp: Role) {
    function At(name: RoleName): Role {
      match name
      case RootRole => root
      case TargetsRole => targets
      case SnapshotRole => snapshot
      case TimestampRole => timestamp
    }
  }

  datatype Root = Root(
    version: Version, expires: Time, specVersion: string,
    keys: map<KeyId, Key>, roles: Roles, extra: Fields)

  /** A reference from one metadata file to another. */
  datatype MetaFile = MetaFile(
    version: Version, length: Option<nat>, hashes: Option<Hashes>, extra: Fields)

  /** The provenance_status, signing_status and authenticode_policy texts the ceremony knows by heart. */
  datatype Provenance = ExactSourceProvenanceRequired | OtherProvenance(text: string)
  datatype SigningStatus = UnsignedNoTrustClaimed | OtherSigning(text: string)
  datatype Policy = RequireValid | AllowUnsigned | OtherPolicy(text: string)

  /** The custom block of a target: the nine fields a ceremony writes, or anything else. */
  datatype Custom =
    | ReleaseCustom(
        policy: Policy, channel: string, payloadUrl: string, provenance: Provenance, publicVersion: string,
        releaseNotes: string, signing: SigningStatus, sourceSha: string, withdrawn: bool)
    | OtherCustom(value: Json)

  datatype TargetFile = TargetFile(length: nat, hashes: Hashes, custom: Option<Custom>, extra: Fields)

  datatype Targets = Targets(
    version: Version, expires: Time, specVersion: string,
    targets: map<string, TargetFile>, extra: Fields)

  datatype Snapshot = Snapshot(
    version: Version, expires: Time, specVersion: string,
    meta: map<MetaName, MetaFile>, extra: Fields)

  datatype Timestamp = Timestamp(
    version: Version, expires: Time, specVersion: string,
    snapshotMeta: MetaFile, extra: Fields)

  /** The part of a metadata file that signatures cover. */
  datatype Payload =
    | RootPayload(root: Root)
    | TargetsPayload(targets: Targets)
    | SnapshotPayload(snapshot: Snapshot)
    | TimestampPayload(timestamp: Timestamp)

  type Signatures = map<KeyId, Sig>

  datatype Metadata<T> = Metadata(signed: T, signatures: Signatures, extra: Fields)

  datatype Document =
    | RootFile(root: Metadata<Root>)
    | TargetsFile(targets: Metadata<Targets>)
    | SnapshotFile(snapshot: Metadata<Snapshot>)
    | TimestampFile(timestamp: Metadata<Timestamp>)

  /**
   A byte string, seen as what `Metadata.from_bytes` reads from it (None when it
   refuses the bytes) together with whatever else tells it from other byte strings
   that read the same, such as white space and key order.
   */
  datatype Bytes = Bytes(reading: Option<Document>, layout: seq<bv8>)

  /** `Metadata.to_bytes` plus a newline: one fixed layout for every document. */
  function Serialize(d: Document): Bytes {
    Bytes(Some(d), [])
  }

  /** A private key that has been unlocked, named by its public half. */
  datatype Signer = Signer(keyid: KeyId, key: Key)

  /**
   Everything the ceremony takes from outside: lengths and digests of byte strings, canonical
   JSON, the signature scheme, the scan for private-material markers, and the verdicts of the
   two library checks. `Sound` says what those verdicts are; results that do not ask for it
   hold whatever the library answers.
   */
  datatype World = World(
    length: Bytes -> nat,
    sha256: Bytes -> Digest,
    otherHash: (string, Bytes) -> Option<Digest>,
    canonical: Payload -> string,
    sign: (Key, string) -> Sig,
    verify: (Key, Sig, string) -> bool,
    marked: Bytes -> bool,
    delegates: (Root, RoleName, Payload, Signatures) -> bool,
    binds: (MetaFile, Bytes) -> bool)
  {
    function Hash(algorithm: Algorithm, data: Bytes): Option<Digest> {
      match algorithm
      case Sha256 => Some(sha256(data))
      case OtherAlgorithm(name) => otherHash(name, data)
    }

    /**
     A signature verifies under the public half of its own key and no other; a role is
     satisfied by threshold valid signatures; a reference binds what it measures.
     */
    ghost predicate Sound() {
      && (forall key, other, message :: verify(key, sign(other, message), message) <==> key == other)
      && (forall root, name, payload, signatures ::
            delegates(root, name, payload, signatures) <==> ReachesThreshold(this, root, name, payload, signatures))
      && (forall reference, data :: binds(reference, data) <==> Measures(this, reference, data))
    }
  }

  /** What `MetaFile.verify_length_and_hashes` computes. */
  predicate Measures(w: World, reference: MetaFile, data: Bytes) {
    && (reference.length.Some? ==> reference.length.value == w.length(data))
    && (reference.hashes.Some? ==>
          forall a | a in reference.hashes.value :: w.Hash(a, data) == Some(reference.hashes.value[a]))
  }

  predicate Binds(w: World, reference: MetaFile, data: Bytes) {
    w.binds(reference, data)
  }

  /** The reference the builders write: exact version, length and SHA-256. */
  function ExactReference(w: World, data: Bytes, version: Version): MetaFile {
    MetaFile(version, Some(w.length(data)), Some(map[Sha256 := w.sha256(data)]), map[])
  }

  /** Root's table has a key for this keyid, and that key verifies the envelope's signature under the same keyid. */
  predicate ValidFor(w: World, root: Root, k: KeyId, message: string, signatures: Signatures) {
    k in root.keys && k in signatures && w.verify(root.keys[k], signatures[k], message)
  }

  /** How many of the role's first `n` keyids have signed `message`. */
  function CountValid(w: World, root: Root, keyids: seq<KeyId>, n: nat, message: string, signatures: Signatures): nat
    requires n <= |keyids|
  {
    if n == 0 then 0
    else
      CountValid(w, root, keyids, n - 1, message, signatures)
      + (if ValidFor(w, root, keyids[n - 1], message, signatures) then 1 else 0)
  }

  /** What `Root.verify_delegate` computes. */
  predicate ReachesThreshold(w: World, root: Root, name: RoleName, payload: Payload, signatures: Signatures) {
    var role := root.roles.At(name);
    CountValid(w, root, role.keyids, |role.keyids|, w.canonical(payload), signatures) >= role.threshold
  }

  predicate VerifyDelegate(w: World, root: Root, name: RoleName, payload: Payload, signatures: Signatures) {
    w.delegates(root, name, payload, signatures)
  }

  /** The keyids of a role whose signature over `message` verifies under Root's key table. */
  function ValidSigners(w: World, root: Root, name: RoleName, message: string, signatures: Signatures): set<KeyId> {
    set k | k in root.roles.At(name).keyids && ValidFor(w, root, k, message, signatures)
  }

  function ValidAmong(w: World, root: Root, keyids: seq<KeyId>, message: string, signatures: Signatures): set<KeyId> {
    set k | k in keyids && ValidFor(w, root, k, message, signatures)
  }

  lemma ValidAmongOneMore(
    w: World, root: Root, keyids: seq<KeyId>, k: KeyId, message: string, signatures: Signatures)
    ensures ValidAmong(w, root, keyids + [k], message, signatures)
         == ValidAmong(w, root, keyids, message, signatures)
            + if ValidFor(w, root, k, message, signatures) then {k} else {}
  {
  }

  lemma {:induction false} CountValidIs(
    w: World, root: Root, keyids: seq<KeyId>, n: nat, message: string, signatures: Signatures)
    requires Distinct(keyids) && n <= |keyids|
    ensures CountValid(w, root, keyids, n, message, signatures)
         == |ValidAmong(w, root, keyids[..n], message, signatures)|
  {
    if n == 0 {
    } else {
      var k := keyids[n - 1];
      CountValidIs(w, root, keyids, n - 1, message, signatures);
      ValidAmongOneMore(w, root, keyids[..n - 1], k, message, signatures);
      assert keyids[..n] == keyids[..n - 1] + [k];
      assert k !in ValidAmong(w, root, keyids[..n - 1], message, signatures);
    }
  }

  /** The library counts distinct keyids, because a role never repeats one. */
  lemma VerifyDelegateCounts(w: World, root: Root, name: RoleName, payload: Payload, signatures: Signatures)
    requires w.Sound()
    ensures VerifyDelegate(w, root, name, payload, signatures)
       <==> |ValidSigners(w, root, name, w.canonical(payload), signatures)| >= root.roles.At(name).threshold
  {
    var keyids := root.roles.At(name).keyids;
    CountValidIs(w, root, keyids, |keyids|, w.canonical(payload), signatures);
    assert keyids[..|keyids|] == keyids;
    assert ValidSigners(w, root, name, w.canonical(payload), signatures)
        == ValidAmong(w, root, keyids, w.canonical(payload), signatures);
  }

  /** The library's own checks, over any hash and any signature scheme, as a world. */
  function Library(
    length: Bytes -> nat, sha256: Bytes -> Digest, otherHash: (string, Bytes) -> Option<Digest>,
    canonical: Payload -> string, sign: (Key, string) -> Sig, verify: (Key, Sig, string) -> bool, marked: Bytes -> bool)
    : World
  {
    var w := World(length, sha256, otherHash, canonical, sign, verify, marked,
                   (r, n, p, s) => false, (r, d) => false);
    w.(delegates := (r, n, p, s) => ReachesThreshold(w, r, n, p, s), binds := (r, d) => Measures(w, r, d))
  }

  lemma {:induction false} CountsAlike(
    v: World, w: World, root: Root, keyids: seq<KeyId>, n: nat, message: string, signatures: Signatures)
    requires n <= |keyids| && v.verify == w.verify
    ensures CountValid(v, root, keyids, n, message, signatures) == CountValid(w, root, keyids, n, message, signatures)
  {
    if n == 0 {
    } else {
      CountsAlike(v, w, root, keyids, n - 1, message, signatures);
    }
  }

  /** Sound worlds are exactly what the library makes of a signature scheme whose keys do not verify for each other. */
  lemma LibraryIsSound(
    length: Bytes -> nat, sha256: Bytes -> Digest, otherHash: (string, Bytes) -> Option<Digest>,
    canonical: Payload -> string, sign: (Key, string) -> Sig, verify: (Key, Sig, string) -> bool, marked: Bytes -> bool)
    requires forall key, other, message :: verify(key, sign(other, message), message) <==> key == other
    ensures Library(length, sha256, otherHash, canonical, sign, verify, marked).Sound()
  {
    var bare := World(length, sha256, otherHash, canonical, sign, verify, marked,
                      (r, n, p, s) => false, (r, d) => false);
    var w := Library(length, sha256, otherHash, canonical, sign, verify, marked);
    forall root, name, payload, signatures
      ensures w.delegates(root, name, payload, signatures) <==> ReachesThreshold(w, root, name, payload, signatures)
    {
      var keyids := root.roles.At(name).keyids;
      CountsAlike(bare, w, root, keyids, |keyids|, canonical(payload), signatures);
    }
  }

  /** The signer's key is one that Root lists for the role, under the signer's own keyid. */
  predicate Recognises(root: Root, name: RoleName, s: Signer) {
    && s.keyid in root.roles.At(name).keyids
    && s.keyid in root.keys
    && root.keys[s.keyid] == s.key
  }

  /** The signatures that signing with the first `n` signers in turn leaves in a fresh envelope. */
  function SignFirst(w: World, message: string, signers: seq<Signer>, n: nat): Signatures
    requires n <= |signers|
  {
    if n == 0 then map[]
    else
      var s := signers[n - 1];
      SignFirst(w, message, signers, n - 1)[s.keyid := w.sign(s.key, message)]
  }

  function SignAll(w: World, message: string, signers: seq<Signer>): Signatures {
    SignFirst(w, message, signers, |signers|)
  }

  function Sealed(payload: Payload, signatures: Signatures): Document {
    match payload
    case RootPayload(r) => RootFile(Metadata(r, signatures, map[]))
    case TargetsPayload(t) => TargetsFile(Metadata(t, signatures, map[]))
    case SnapshotPayload(s) => SnapshotFile(Metadata(s, signatures, map[]))
    case TimestampPayload(t) => TimestampFile(Metadata(t, signatures, map[]))
  }

  /** What `_new_signed_metadata` produces. */
  function NewSigned(w: World, payload: Payload, signers: seq<Signer>): Bytes {
    Serialize(Sealed(payload, SignAll(w, w.canonical(payload), signers)))
  }

  /**
   The signing loop: the first signer clears what was in the envelope, each later
   one appends.
   */
  method NewSignedMetadata(w: World, payload: Payload, signers: seq<Signer>) returns (data: Bytes)
    ensures data == NewSigned(w, payload, signers)
  {
    var message := w.canonical(payload);
    var signatures: Signatures := map[];
    for index := 0 to |signers|
      invariant signatures == SignFirst(w, message, signers, index)
    {
      if index == 0 {
        signatures := map[];
      }
      signatures := signatures[signers[index].keyid := w.sign(signers[index].key, message)];
    }
    data := Serialize(Sealed(payload, signatures));
  }

  function KeyIds(signers: seq<Signer>): set<KeyId> {
    set s | s in signers :: s.keyid
  }

  ghost predicate DistinctKeyIds(signers: seq<Signer>) {
    forall i, j :: 0 <= i < j < |signers| ==> signers[i].keyid != signers[j].keyid
  }

  lemma {:induction false} SignFirstKeys(w: World, message: string, signers: seq<Signer>, n: nat)
    requires n <= |signers|
    ensures SignFirst(w, message, signers, n).Keys == KeyIds(signers[..n])
  {
    if n == 0 {
    } else {
      SignFirstKeys(w, message, signers, n - 1);
      assert signers[..n] == signers[..n - 1] + [signers[n - 1]];
    }
  }

  lemma {:induction false} SignFirstAt(w: World, message: string, signers: seq<Signer>, n: nat, i: nat)
    requires DistinctKeyIds(signers) && i < n <= |signers|
    ensures var signed := SignFirst(w, message, signers, n);
            signers[i].keyid in signed && signed[signers[i].keyid] == w.sign(signers[i].key, message)
  {
    if i == n - 1 {
    } else {
      SignFirstAt(w, message, signers, n - 1, i);
    }
  }

  lemma SignFirstHolds(w: World, message: string, signers: seq<Signer>, n: nat)
    requires DistinctKeyIds(signers) && n <= |signers|
    ensures var signed := SignFirst(w, message, signers, n);
            && signed.Keys == KeyIds(signers[..n])
            && forall i | 0 <= i < n ::
                 signers[i].keyid in signed && signed[signers[i].keyid] == w.sign(signers[i].key, message)
  {
    hide SignFirst;
    SignFirstKeys(w, message, signers, n);
    forall i | 0 <= i < n
      ensures signers[i].keyid in SignFirst(w, message, signers, n)
      ensures SignFirst(w, message, signers, n)[signers[i].keyid] == w.sign(signers[i].key, message)
    {
      SignFirstAt(w, message, signers, n, i);
    }
  }

  lemma {:induction false} DistinctCount(signers: seq<Signer>)
    requires DistinctKeyIds(signers)
    ensures |KeyIds(signers)| == |signers|
  {
    if signers == [] {
      assert KeyIds(signers) == {};
    } else {
      var front, last := signers[..|signers| - 1], signers[|signers| - 1];
      DistinctCount(front);
      assert signers == front + [last];
      assert last.keyid !in KeyIds(front);
      assert KeyIds(signers) == KeyIds(front) + {last.keyid};
    }
  }

  /** The keyids of the signers that Root recognises for a role. */
  function RecognisedIds(root: Root, name: RoleName, signers: seq<Signer>): set<KeyId> {
    set s | s in signers && Recognises(root, name, s) :: s.keyid
  }

  /** Signing with distinct signers gives exactly the recognised ones as valid signers. */
  lemma SignedValidSigners(w: World, root: Root, name: RoleName, payload: Payload, signers: seq<Signer>)
    requires w.Sound() && DistinctKeyIds(signers)
    ensures ValidSigners(w, root, name, w.canonical(payload), SignAll(w, w.canonical(payload), signers))
         == RecognisedIds(root, name, signers)
  {
    var message := w.canonical(payload);
    var signatures := SignAll(w, message, signers);
    SignFirstHolds(w, message, signers, |signers|);
    assert signers[..|signers|] == signers;
    var valid := ValidSigners(w, root, name, message, signatures);
    forall k | k in valid
      ensures exists s :: s in signers && Recognises(root, name, s) && s.keyid == k
    {
      assert k in KeyIds(signers);
      var s :| s in signers && s.keyid == k;
      assert Recognises(root, name, s);
    }
  }

  lemma AllRecognisedIff(root: Root, name: RoleName, signers: seq<Signer>)
    requires DistinctKeyIds(signers)
    ensures |RecognisedIds(root, name, signers)| >= |signers| <==> forall s | s in signers :: Recognises(root, name, s)
  {
    DistinctCount(signers);
    var recognised, all := RecognisedIds(root, name, signers), KeyIds(signers);
    if s :| s in signers && !Recognises(root, name, s) {
      OutsiderNotRecognised(root, name, signers, s);
      Subset(recognised, all - {s.keyid});
    } else {
      assert recognised == all;
    }
  }

  lemma OutsiderNotRecognised(root: Root, name: RoleName, signers: seq<Signer>, s: Signer)
    requires DistinctKeyIds(signers) && s in signers && !Recognises(root, name, s)
    ensures RecognisedIds(root, name, signers) <= KeyIds(signers) - {s.keyid}
    ensures s.keyid in KeyIds(signers)
  {
    assert forall t | t in signers && t.keyid == s.keyid :: t == s;
  }

  /**
   A quorum of exactly threshold distinct signers reaches the threshold
   if and only if Root recognises every one of them.
   */
  lemma QuorumVerifiesIff(w: World, root: Root, name: RoleName, payload: Payload, signers: seq<Signer>)
    requires w.Sound() && DistinctKeyIds(signers)
    requires |signers| == root.roles.At(name).threshold
    ensures VerifyDelegate(w, root, name, payload, SignAll(w, w.canonical(payload), signers))
       <==> forall s | s in signers :: Recognises(root, name, s)
  {
    VerifyDelegateCounts(w, root, name, payload, SignAll(w, w.canonical(payload), signers));
    SignedValidSigners(w, root, name, payload, signers);
    AllRecognisedIff(root, name, signers);
  }

  lemma {:induction false} Subset<T>(a: set<T>, b: set<T>)
    requires a <= b
    ensures |a| <= |b|
  {
    if a == {} {
    } else {
      var x :| x in a;
      Subset(a - {x}, b - {x});
    }
  }

  /** One signer reaches a role's threshold exactly when the threshold is 1 and Root recognises it. */
  lemma SingleSignerVerifiesIff(w: World, root: Root, name: RoleName, payload: Payload, s: Signer)
    requires w.Sound()
    ensures VerifyDelegate(w, root, name, payload, SignAll(w, w.canonical(payload), [s]))
       <==> root.roles.At(name).threshold == 1 && Recognises(root, name, s)
  {
    VerifyDelegateCounts(w, root, name, payload, SignAll(w, w.canonical(payload), [s]));
    SignedValidSigners(w, root, name, payload, [s]);
    var valid := RecognisedIds(root, name, [s]);
    if Recognises(root, name, s) {
      assert s in [s];
      assert valid == {s.keyid};
    } else {
      assert valid == {};
    }
  }
}
