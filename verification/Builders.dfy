/**
 The builders of a new generation: `_build_targets`, the base `_build_online_pair`,
 and the hardened `_build_online_pair_preserving_snapshot_meta` that replaces it.
 */
module Builders {
  import opened Wrappers
  import opened Tuf
  import opened CurrentState

  /** One release target, as the command line and the measured asset describe it. */
  datatype Release = Release(
    publicVersion: string, sourceSha: string, filename: string,
    size: nat, digest: Digest, channel: string, platform: string,
    payloadUrl: string, releaseNotes: string, policy: Policy)
  {
    function Path(): string {
      "channels/" + channel + "/" + platform + "/" + publicVersion + "/" + sourceSha + "/" + filename
    }

    function Custom(): Custom {
      ReleaseCustom(
        policy, channel, payloadUrl, ExactSourceProvenanceRequired, publicVersion,
        releaseNotes, UnsignedNoTrustClaimed, sourceSha, false)
    }

    /** The exact record the release must have in Targets. */
    function Record(): TargetFile {
      TargetFile(size, map[Sha256 := digest], Some(Custom()), map[])
    }

    predicate PolicyKnown() {
      !policy.OtherPolicy?
    }
  }

  /** A record says of a release what it must say, field by field. */
  ghost predicate Records(record: TargetFile, release: Release) {
    && record.length == release.size
    && record.hashes == map[Sha256 := release.digest]
    && record.extra == map[]
    && record.custom.Some? && record.custom.value.ReleaseCustom?
    && var custom := record.custom.value;
    && custom.policy == release.policy
    && custom.channel == release.channel
    && custom.payloadUrl == release.payloadUrl
    && custom.provenance == ExactSourceProvenanceRequired
    && custom.publicVersion == release.publicVersion
    && custom.releaseNotes == release.releaseNotes
    && custom.signing == UnsignedNoTrustClaimed
    && custom.sourceSha == release.sourceSha
    && !custom.withdrawn
  }

  /** Section 5.7 of The Update Framework specification: what a client accepts as the target file. */
  predicate Downloads(w: World, record: TargetFile, data: Bytes) {
    && w.length(data) == record.length
    && forall a | a in record.hashes :: w.Hash(a, data) == Some(record.hashes[a])
  }

  /** A file can be installed under a release's record exactly when it has the release's size and SHA-256. */
  lemma DownloadsIff(w: World, record: TargetFile, release: Release, data: Bytes)
    requires Records(record, release)
    ensures Downloads(w, record, data) <==> w.length(data) == release.size && w.sha256(data) == release.digest
  {
    assert Sha256 in record.hashes;
  }

  datatype TargetsBuild = TargetsBuild(data: Bytes, changed: bool)

  /** Current Targets with one more record and the next version number. */
  function WithRelease(current: Targets, release: Release): Targets {
    current.(version := current.version + 1, targets := current.targets[release.Path() := release.Record()])
  }

  /**
   What a returned build is worth. Unchanged: the current file, already holding the exact record.
   Changed: every earlier record as it was, exactly one more, the next version number, the same
   authority expiry, and signatures that reach the Targets threshold.
   */
  ghost predicate TargetsFollow(
    w: World, root: Root, current: Metadata<Targets>, release: Release, build: TargetsBuild)
  {
    var path := "channels/" + release.channel + "/" + release.platform + "/" + release.publicVersion + "/"
                + release.sourceSha + "/" + release.filename;
    if build.changed then
      && path !in current.signed.targets
      && ParseTargets(build.data).Success?
      && var next := ParseTargets(build.data).value;
      && build.data == Serialize(TargetsFile(next))
      && next.signed.targets.Keys == current.signed.targets.Keys + {path}
      && (forall p | p in current.signed.targets :: next.signed.targets[p] == current.signed.targets[p])
      && Records(next.signed.targets[path], release)
      && next.signed == current.signed.(version := current.signed.version + 1, targets := next.signed.targets)
      && VerifyDelegate(w, root, TargetsRole, TargetsPayload(next.signed), next.signatures)
    else
      && path in current.signed.targets
      && Records(current.signed.targets[path], release)
      && build.data == Serialize(TargetsFile(current))
  }

  /** `_build_targets`. An authorised target is confirmed, or refused because its record differs; never rewritten. */
  function BuildTargets(
    w: World, current: Metadata<Targets>, root: Root, signers: seq<Signer>, release: Release)
    : (r: Result<TargetsBuild, Code>)
    ensures r.Success? ==> TargetsFollow(w, root, current, release, r.value)
    ensures r == Failure(InvalidAuthenticodePolicy)
       <==> release.policy != RequireValid && release.policy != AllowUnsigned
    ensures (release.policy == RequireValid || release.policy == AllowUnsigned)
            && release.Path() in current.signed.targets ==>
              if Records(current.signed.targets[release.Path()], release) then r.Success?
              else r == Failure(TargetAlreadyExistsDifferent)
  {
    var path := release.Path();
    :- Need(release.PolicyKnown(), InvalidAuthenticodePolicy);
    if path in current.signed.targets then
      :- Need(current.signed.targets[path] == release.Record(), TargetAlreadyExistsDifferent);
      Success(TargetsBuild(Serialize(TargetsFile(current)), false))
    else
      var payload := WithRelease(current.signed, release);
      var data := NewSigned(w, TargetsPayload(payload), signers);
      var next := ParseTargets(data).value; // what was just serialized always parses
      :- VerifyRole(w, root, TargetsRole, TargetsPayload(next.signed), next.signatures);
      var before, after := current.signed.targets.Keys, next.signed.targets.Keys;
      :- Need(before <= after && after - before == {path}, TargetPreservationFailure);
      Success(TargetsBuild(data, true))
  }

  /** The same as it runs: it edits a copy of the current payload in place, then signs and verifies it. */
  method AuthorizeTarget(w: World, current: Metadata<Targets>, root: Root, signers: seq<Signer>, release: Release)
    returns (r: Result<TargetsBuild, Code>)
    ensures r == BuildTargets(w, current, root, signers, release)
  {
    if !release.PolicyKnown() {
      return Failure(InvalidAuthenticodePolicy);
    }
    var path := release.Path();
    if path in current.signed.targets {
      if current.signed.targets[path] != release.Record() {
        return Failure(TargetAlreadyExistsDifferent);
      }
      return Success(TargetsBuild(Serialize(TargetsFile(current)), false));
    }
    var payload := current.signed;
    var rawTargets := payload.targets;
    var before := rawTargets.Keys;
    rawTargets := rawTargets[path := release.Record()];
    payload := payload.(targets := rawTargets);
    payload := payload.(version := current.signed.version + 1);
    assert payload == WithRelease(current.signed, release);
    var data := NewSignedMetadata(w, TargetsPayload(payload), signers);
    var next := ParseTargets(data).value;
    if !VerifyDelegate(w, root, TargetsRole, TargetsPayload(next.signed), next.signatures) {
      return Failure(SignatureThresholdFailure(TargetsRole));
    }
    var after := next.signed.targets.Keys;
    if !(before <= after && after - before == {path}) {
      return Failure(TargetPreservationFailure);
    }
    return Success(TargetsBuild(data, true));
  }

  /** For a new target, a quorum of threshold signers suffices exactly when Root holds each signer's own key. */
  lemma BuildTargetsIff(w: World, current: Metadata<Targets>, root: Root, signers: seq<Signer>, release: Release)
    requires w.Sound() && DistinctKeyIds(signers) && |signers| == root.roles.targets.threshold
    requires release.Path() !in current.signed.targets
    ensures BuildTargets(w, current, root, signers, release).Success?
       <==> && (release.policy == RequireValid || release.policy == AllowUnsigned)
            && forall s | s in signers :: Recognises(root, TargetsRole, s)
  {
    var payload := WithRelease(current.signed, release);
    assert payload.targets.Keys == current.signed.targets.Keys + {release.Path()};
    QuorumVerifiesIff(w, root, TargetsRole, TargetsPayload(payload), signers);
  }

  /** A Snapshot and a Timestamp built to be published together. */
  datatype OnlinePair = OnlinePair(snapshot: Bytes, timestamp: Bytes)

  datatype Builder = Base | Hardened

  function Earlier(a: Time, b: Time): Time {
    if a <= b then a else b
  }

  predicate ExceedsAuthority(root: Root, targets: Targets, now: Time) {
    var authority := Earlier(root.expires, targets.expires);
    now + SNAPSHOT_EXPIRY >= authority || now + TIMESTAMP_EXPIRY >= authority
  }

  /** `_build_online_pair`: both payloads are written from scratch. */
  function BaseSnapshot(w: World, current: Snapshot, targetsData: Bytes, targets: Targets, now: Time): Snapshot {
    Snapshot(
      current.version + 1, now + SNAPSHOT_EXPIRY, current.specVersion,
      map[TargetsJson := ExactReference(w, targetsData, targets.version)], map[])
  }

  function BaseTimestamp(w: World, current: Timestamp, snapshotData: Bytes, snapshot: Snapshot, now: Time): Timestamp {
    Timestamp(
      current.version + 1, now + TIMESTAMP_EXPIRY, current.specVersion,
      ExactReference(w, snapshotData, snapshot.version), map[])
  }

  /** The hardened builder edits copies of the current payloads. */
  function HardenedSnapshot(w: World, current: Snapshot, targetsData: Bytes, targets: Targets, now: Time): Snapshot {
    current.(
      version := current.version + 1,
      expires := now + SNAPSHOT_EXPIRY,
      meta := current.meta[TargetsJson := ExactReference(w, targetsData, targets.version)])
  }

  function HardenedTimestamp(
    w: World, current: Timestamp, snapshotData: Bytes, snapshot: Snapshot, now: Time): Timestamp
  {
    current.(
      version := current.version + 1,
      expires := now + TIMESTAMP_EXPIRY,
      snapshotMeta := ExactReference(w, snapshotData, snapshot.version))
  }

  function NextSnapshot(
    w: World, builder: Builder, current: Snapshot, targetsData: Bytes, targets: Targets, now: Time): Snapshot
  {
    match builder
    case Base => BaseSnapshot(w, current, targetsData, targets, now)
    case Hardened => HardenedSnapshot(w, current, targetsData, targets, now)
  }

  function NextTimestamp(
    w: World, builder: Builder, current: Timestamp, snapshotData: Bytes, snapshot: Snapshot, now: Time): Timestamp
  {
    match builder
    case Base => BaseTimestamp(w, current, snapshotData, snapshot, now)
    case Hardened => HardenedTimestamp(w, current, snapshotData, snapshot, now)
  }

  /**
   What a freshly built pair is worth: the next payloads, each signed by its role, each bound to its predecessor file.
   */
  predicate PairFollows(
    w: World, builder: Builder, root: Root, snapshot: Snapshot, timestamp: Timestamp,
    targetsData: Bytes, targets: Targets, now: Time, pair: OnlinePair)
  {
    && !ExceedsAuthority(root, targets, now)
    && var s, t := ParseSnapshot(pair.snapshot), ParseTimestamp(pair.timestamp);
    && s.Success? && t.Success?
    && s.value.signed == NextSnapshot(w, builder, snapshot, targetsData, targets, now)
    && t.value.signed == NextTimestamp(w, builder, timestamp, pair.snapshot, s.value.signed, now)
    && VerifyDelegate(w, root, SnapshotRole, SnapshotPayload(s.value.signed), s.value.signatures)
    && VerifyDelegate(w, root, TimestampRole, TimestampPayload(t.value.signed), t.value.signatures)
    && Binds(w, s.value.signed.meta[TargetsJson], targetsData)
    && Binds(w, t.value.signed.snapshotMeta, pair.snapshot)
  }

  /** A reference names exactly these bytes: their version, length and SHA-256, and nothing else. */
  predicate Names(w: World, reference: MetaFile, version: Version, data: Bytes) {
    && reference.version == version
    && reference.length == Some(w.length(data))
    && reference.hashes == Some(map[Sha256 := w.sha256(data)])
    && reference.extra == map[]
  }

  /** Such a reference binds exactly the byte strings of the same length and SHA-256. */
  lemma NamesBindsIff(w: World, reference: MetaFile, version: Version, data: Bytes, other: Bytes)
    requires w.Sound() && Names(w, reference, version, data)
    ensures Binds(w, reference, other) <==> w.length(other) == w.length(data) && w.sha256(other) == w.sha256(data)
  {
    assert Sha256 in reference.hashes.value;
  }

  /**
   What the new Snapshot and Timestamp say, field by field: versions up by one, lifetimes of 72 and 48 hours,
   the exact references, and of the rest nothing (base) or everything that was there (hardened).
   */
  ghost predicate PairSays(
    w: World, builder: Builder, oldSnapshot: Snapshot, oldTimestamp: Timestamp,
    targetsData: Bytes, targetsVersion: Version, now: Time, snapshotData: Bytes, s: Snapshot, t: Timestamp)
  {
    && s.version == oldSnapshot.version + 1 && t.version == oldTimestamp.version + 1
    && s.expires == now + 259200 && t.expires == now + 172800
    && s.specVersion == oldSnapshot.specVersion && t.specVersion == oldTimestamp.specVersion
    && TargetsJson in s.meta && Names(w, s.meta[TargetsJson], targetsVersion, targetsData)
    && Names(w, t.snapshotMeta, s.version, snapshotData)
    && (builder == Base ==> s.meta.Keys == {TargetsJson} && s.extra == map[] && t.extra == map[])
    && (builder == Hardened ==>
          && s.meta.Keys == oldSnapshot.meta.Keys + {TargetsJson}
          && (forall name | name in oldSnapshot.meta && name != TargetsJson :: s.meta[name] == oldSnapshot.meta[name])
          && s.extra == oldSnapshot.extra && t.extra == oldTimestamp.extra)
  }

  /** The next payloads say it. */
  lemma NextSays(
    w: World, builder: Builder, snapshot: Snapshot, timestamp: Timestamp,
    targetsData: Bytes, targets: Targets, snapshotData: Bytes, now: Time)
    ensures var s := NextSnapshot(w, builder, snapshot, targetsData, targets, now);
            PairSays(w, builder, snapshot, timestamp, targetsData, targets.version, now, snapshotData, s,
                     NextTimestamp(w, builder, timestamp, snapshotData, s, now))
  {
  }

  /** Both pair builders; they differ only in the payloads and in the hardened preservation check. */
  function BuildOnlinePair(
    w: World, builder: Builder, root: Root, snapshot: Snapshot, timestamp: Timestamp,
    targetsData: Bytes, targets: Targets, snapshotSigner: Signer, timestampSigner: Signer, now: Time)
    : (r: Result<OnlinePair, Code>)
    ensures r.Success? ==> PairFollows(w, builder, root, snapshot, timestamp, targetsData, targets, now, r.value)
    ensures r.Success? ==>
              && ParseSnapshot(r.value.snapshot).Success? && ParseTimestamp(r.value.timestamp).Success?
              && PairSays(w, builder, snapshot, timestamp, targetsData, targets.version, now, r.value.snapshot,
                          ParseSnapshot(r.value.snapshot).value.signed, ParseTimestamp(r.value.timestamp).value.signed)
  {
    var payload := NextSnapshot(w, builder, snapshot, targetsData, targets, now);
    :- Need(!ExceedsAuthority(root, targets, now), OnlineExpiryExceedsAuthority);
    var snapshotData := NewSigned(w, SnapshotPayload(payload), [snapshotSigner]);
    var newSnapshot :- ParseSnapshot(snapshotData);
    :- VerifyRole(w, root, SnapshotRole, SnapshotPayload(newSnapshot.signed), newSnapshot.signatures);
    :- VerifyReference(w, newSnapshot.signed.meta[TargetsJson], targetsData);
    :- Need(builder == Hardened ==> snapshot.meta.Keys <= newSnapshot.signed.meta.Keys,
            SnapshotMetaPreservationFailure);
    var nextTimestamp := NextTimestamp(w, builder, timestamp, snapshotData, newSnapshot.signed, now);
    var timestampData := NewSigned(w, TimestampPayload(nextTimestamp), [timestampSigner]);
    var newTimestamp :- ParseTimestamp(timestampData);
    :- VerifyRole(w, root, TimestampRole, TimestampPayload(newTimestamp.signed), newTimestamp.signatures);
    :- VerifyReference(w, newTimestamp.signed.snapshotMeta, snapshotData);
    NextSays(w, builder, snapshot, timestamp, targetsData, targets, snapshotData, now);
    Success(OnlinePair(snapshotData, timestampData))
  }

  /** The role's one required signature can be made with this signer. */
  predicate SoleSigner(root: Root, name: RoleName, s: Signer) {
    root.roles.At(name).threshold == 1 && Recognises(root, name, s)
  }

  /** A reference written by the builders binds what it was written for. */
  lemma ExactBinds(w: World, data: Bytes, version: Version)
    requires w.Sound()
    ensures Binds(w, ExactReference(w, data, version), data)
  {
  }

  lemma NextReferences(
    w: World, builder: Builder, snapshot: Snapshot, timestamp: Timestamp,
    targetsData: Bytes, targets: Targets, snapshotData: Bytes, now: Time)
    ensures var next := NextSnapshot(w, builder, snapshot, targetsData, targets, now);
            && TargetsJson in next.meta && next.meta[TargetsJson] == ExactReference(w, targetsData, targets.version)
            && (builder == Hardened ==> snapshot.meta.Keys <= next.meta.Keys)
            && NextTimestamp(w, builder, timestamp, snapshotData, next, now).snapshotMeta
               == ExactReference(w, snapshotData, next.version)
  {
  }

  /**
   Building the pair succeeds exactly when both lifetimes end before Root's and Targets'
   and each signer alone can sign its role. The reference and preservation checks never fail.
   */
  lemma BuildOnlinePairIff(
    w: World, builder: Builder, root: Root, snapshot: Snapshot, timestamp: Timestamp,
    targetsData: Bytes, targets: Targets, snapshotSigner: Signer, timestampSigner: Signer, now: Time)
    requires w.Sound()
    ensures BuildOnlinePair(
              w, builder, root, snapshot, timestamp,
              targetsData, targets, snapshotSigner, timestampSigner, now).Success?
       <==> && now + SNAPSHOT_EXPIRY < root.expires && now + SNAPSHOT_EXPIRY < targets.expires
            && SoleSigner(root, SnapshotRole, snapshotSigner)
            && SoleSigner(root, TimestampRole, timestampSigner)
    // The error codes, in the order in which they come up.
    ensures var r := BuildOnlinePair(
                       w, builder, root, snapshot, timestamp,
                       targetsData, targets, snapshotSigner, timestampSigner, now);
            if now + 259200 >= root.expires || now + 259200 >= targets.expires then
              r == Failure(OnlineExpiryExceedsAuthority)
            else if !SoleSigner(root, SnapshotRole, snapshotSigner) then
              r == Failure(SignatureThresholdFailure(SnapshotRole))
            else if !SoleSigner(root, TimestampRole, timestampSigner) then
              r == Failure(SignatureThresholdFailure(TimestampRole))
            else r.Success?
  {
    var next := NextSnapshot(w, builder, snapshot, targetsData, targets, now);
    var snapshotData := NewSigned(w, SnapshotPayload(next), [snapshotSigner]);
    var nextTimestamp := NextTimestamp(w, builder, timestamp, snapshotData, next, now);
    NextReferences(w, builder, snapshot, timestamp, targetsData, targets, snapshotData, now);
    ExactBinds(w, targetsData, targets.version);
    ExactBinds(w, snapshotData, next.version);
    SingleSignerVerifiesIff(w, root, SnapshotRole, SnapshotPayload(next), snapshotSigner);
    SingleSignerVerifiesIff(w, root, TimestampRole, TimestampPayload(nextTimestamp), timestampSigner);
    hide NextSnapshot, NextTimestamp, VerifyDelegate, Binds, SignAll, ExactReference, Recognises;
  }

  /**
   The hardened pair method: it edits copies of the current Snapshot and Timestamp
   payloads in place, as the override does. What it has just serialized always parses.
   */
  method BuildOnlinePairPreservingSnapshotMeta(
    w: World, root: Root, snapshot: Snapshot, timestamp: Timestamp,
    targetsData: Bytes, targets: Targets, snapshotSigner: Signer, timestampSigner: Signer, now: Time)
    returns (r: Result<OnlinePair, Code>)
    ensures r == BuildOnlinePair(
                   w, Hardened, root, snapshot, timestamp,
                   targetsData, targets, snapshotSigner, timestampSigner, now)
    // Every other Snapshot entry survives unchanged.
    ensures r.Success? ==>
              && ParseSnapshot(r.value.snapshot).Success?
              && var meta := ParseSnapshot(r.value.snapshot).value.signed.meta;
              && meta.Keys == snapshot.meta.Keys + {TargetsJson}
              && (forall name | name in snapshot.meta && name != TargetsJson :: meta[name] == snapshot.meta[name])
  {
    if ExceedsAuthority(root, targets, now) {
      return Failure(OnlineExpiryExceedsAuthority);
    }
    var payload := snapshot;
    var meta := payload.meta;
    var preserved := meta.Keys;
    meta := meta[TargetsJson := ExactReference(w, targetsData, targets.version)];
    payload := payload.(meta := meta);
    payload := payload.(expires := now + SNAPSHOT_EXPIRY);
    payload := payload.(version := snapshot.version + 1);
    assert payload == NextSnapshot(w, Hardened, snapshot, targetsData, targets, now);
    var snapshotData := NewSignedMetadata(w, SnapshotPayload(payload), [snapshotSigner]);
    var newSnapshot := ParseSnapshot(snapshotData).value;
    var signed := newSnapshot.signed;
    if !VerifyDelegate(w, root, SnapshotRole, SnapshotPayload(signed), newSnapshot.signatures) {
      return Failure(SignatureThresholdFailure(SnapshotRole));
    }
    if !Binds(w, signed.meta[TargetsJson], targetsData) {
      return Failure(MetadataBindingFailure);
    }
    if !(preserved <= signed.meta.Keys) {
      return Failure(SnapshotMetaPreservationFailure);
    }
    var timestampPayload := timestamp;
    timestampPayload := timestampPayload.(snapshotMeta := ExactReference(w, snapshotData, signed.version));
    timestampPayload := timestampPayload.(expires := now + TIMESTAMP_EXPIRY);
    timestampPayload := timestampPayload.(version := timestamp.version + 1);
    assert timestampPayload == NextTimestamp(w, Hardened, timestamp, snapshotData, signed, now);
    var timestampData := NewSignedMetadata(w, TimestampPayload(timestampPayload), [timestampSigner]);
    var newTimestamp := ParseTimestamp(timestampData).value;
    if !VerifyDelegate(w, root, TimestampRole, TimestampPayload(newTimestamp.signed), newTimestamp.signatures) {
      return Failure(SignatureThresholdFailure(TimestampRole));
    }
    if !Binds(w, newTimestamp.signed.snapshotMeta, snapshotData) {
      return Failure(MetadataBindingFailure);
    }
    return Success(OnlinePair(snapshotData, timestampData));
  }

  /** Nothing in the current online pair that the base builder would drop. */
  predicate Bare(snapshot: Snapshot, timestamp: Timestamp) {
    snapshot.meta.Keys <= {TargetsJson} && snapshot.extra == map[] && timestamp.extra == map[]
  }

  /** Same version, expiry and targets.json entry; the hardened Snapshot also keeps every other entry. */
  predicate AgreeOnTargets(base: Snapshot, hard: Snapshot, current: Snapshot) {
    && base.version == hard.version && base.expires == hard.expires
    && base.meta.Keys == {TargetsJson}
    && hard.meta.Keys == current.meta.Keys + {TargetsJson}
    && base.meta[TargetsJson] == hard.meta[TargetsJson]
    && forall name | name in current.meta && name != TargetsJson :: hard.meta[name] == current.meta[name]
  }

  /** The payloads of the two builders, compared. */
  lemma SnapshotsCompare(w: World, current: Snapshot, targetsData: Bytes, targets: Targets, now: Time)
    ensures var base := BaseSnapshot(w, current, targetsData, targets, now);
            var hard := HardenedSnapshot(w, current, targetsData, targets, now);
            && AgreeOnTargets(base, hard, current)
            && (base == hard <==> current.meta.Keys <= {TargetsJson} && current.extra == map[])
  {
  }

  lemma TimestampsCompare(w: World, current: Timestamp, snapshotData: Bytes, snapshot: Snapshot, now: Time)
    ensures BaseTimestamp(w, current, snapshotData, snapshot, now)
            == HardenedTimestamp(w, current, snapshotData, snapshot, now)
       <==> current.extra == map[]
  {
  }

  /**
   The hardened builder refines the base one. The two succeed together and agree on what Snapshot says of
   targets.json. On a Snapshot that lists only that, with no extra fields in either file, they return the
   same bytes; and only then.
   */
  lemma HardenedRefinesBase(
    w: World, root: Root, snapshot: Snapshot, timestamp: Timestamp,
    targetsData: Bytes, targets: Targets, snapshotSigner: Signer, timestampSigner: Signer, now: Time)
    requires w.Sound()
    ensures var base := BuildOnlinePair(
                          w, Base, root, snapshot, timestamp,
                          targetsData, targets, snapshotSigner, timestampSigner, now);
            var hard := BuildOnlinePair(
                          w, Hardened, root, snapshot, timestamp,
                          targetsData, targets, snapshotSigner, timestampSigner, now);
            && (base.Success? <==> hard.Success?)
            && (base.Success? ==>
                  && (base == hard <==> Bare(snapshot, timestamp))
                  && ParseSnapshot(base.value.snapshot).Success? && ParseSnapshot(hard.value.snapshot).Success?
                  && AgreeOnTargets(ParseSnapshot(base.value.snapshot).value.signed,
                                    ParseSnapshot(hard.value.snapshot).value.signed, snapshot))
  {
    BuildOnlinePairIff(
      w, Base, root, snapshot, timestamp, targetsData, targets, snapshotSigner, timestampSigner, now);
    BuildOnlinePairIff(
      w, Hardened, root, snapshot, timestamp, targetsData, targets, snapshotSigner, timestampSigner, now);
    SnapshotsCompare(w, snapshot, targetsData, targets, now);
    var base := BaseSnapshot(w, snapshot, targetsData, targets, now);
    TimestampsCompare(w, timestamp, NewSigned(w, SnapshotPayload(base), [snapshotSigner]), base, now);
    hide BaseSnapshot, HardenedSnapshot, BaseTimestamp, HardenedTimestamp, AgreeOnTargets;
    hide VerifyDelegate, Binds, SignAll, SoleSigner;
  }
}
