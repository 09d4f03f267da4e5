/** The steps of `main`: from the current four files to the three files to publish. */
module Ceremony {
  import opened Wrappers
  import opened Tuf
  import opened CurrentState
  import opened Custody
  import opened Builders

  datatype Asset = Asset(size: nat, digest: Digest)

  datatype OnlineSigners = OnlineSigners(snapshot: Signer, timestamp: Signer)

  /** One invocation: the command line, and what its surroundings answer. */
  datatype Inputs = Inputs(
    source: Outcome<Code>,              // _verify_source_identity, which asks Git
    expectedRoot: Option<Digest>,
    asset: Option<Asset>,               // None when the installer is not a file
    expectedSize: Option<nat>,
    expectedDigest: Option<Digest>,
    request: Release,                   // size and digest are filled in from the asset
    passphraseGiven: bool,
    custody: KeyDir,                    // as the given passphrase unlocks it
    online: Result<OnlineSigners, Code>) // manifest and secret resolution
  {
    function Release(): Release {
      if asset.Some? then request.(size := asset.value.size, digest := asset.value.digest) else request
    }
  }

  /** `_asset_identity`. */
  function AssetIdentity(inputs: Inputs): Outcome<Code> {
    if inputs.asset.None? then Fail(AssetMissing)
    else
      var asset := inputs.asset.value;
      if inputs.expectedSize.Some? && asset.size != inputs.expectedSize.value then Fail(AssetSizeMismatch)
      else if inputs.expectedDigest.Some? && asset.digest != inputs.expectedDigest.value then Fail(AssetSha256Mismatch)
      else Pass
  }

  predicate RootPinned(w: World, repo: Repo, inputs: Inputs) {
    inputs.expectedRoot.Some? ==> w.sha256(repo.root) == inputs.expectedRoot.value
  }

  /**
   What the ceremony demands before it signs anything: the source identified, Root the pinned one if one is
   pinned, the installer there with the expected size and SHA-256 if they are given, and a known policy.
   */
  ghost predicate GatesOpen(w: World, repo: Repo, inputs: Inputs) {
    && inputs.source.Pass?
    && (inputs.expectedRoot.Some? ==> w.sha256(repo.root) == inputs.expectedRoot.value)
    && inputs.asset.Some?
    && (inputs.expectedSize.Some? ==> inputs.asset.value.size == inputs.expectedSize.value)
    && (inputs.expectedDigest.Some? ==> inputs.asset.value.digest == inputs.expectedDigest.value)
    && (inputs.request.policy == RequireValid || inputs.request.policy == AllowUnsigned)
  }

  /** No custody key is asked for when the target is already authorised. */
  function TargetsSigners(inputs: Inputs, root: Root, targets: Targets): (r: Result<seq<Signer>, Code>)
    // An empty list of signers is passed on only when nothing will be signed.
    ensures r.Success? ==> (r.value == [] <==> inputs.Release().Path() in targets.targets)
    ensures inputs.Release().Path() !in targets.targets ==>
              r == if inputs.passphraseGiven then PemSigners(inputs.custody, root, TargetsRole)
                   else Failure(EmptyCustodyPassphrase)
  {
    if inputs.Release().Path() in targets.targets then Success([])
    else if !inputs.passphraseGiven then Failure(EmptyCustodyPassphrase)
    else PemSigners(inputs.custody, root, TargetsRole)
  }

  datatype SignedTargets = SignedTargets(chain: Chain, build: TargetsBuild)

  /** The part of `main` that both the offline and the full ceremony run. */
  function SignTargets(w: World, repo: Repo, now: Time, inputs: Inputs): (r: Result<SignedTargets, Code>)
    ensures r.Success? ==>
              && inputs.source.Pass?
              && (inputs.expectedRoot.Some? ==> w.sha256(repo.root) == inputs.expectedRoot.value)
              && inputs.asset.Some?
              && (inputs.expectedSize.Some? ==> inputs.asset.value.size == inputs.expectedSize.value)
              && (inputs.expectedDigest.Some? ==> inputs.asset.value.digest == inputs.expectedDigest.value)
              && VerifyCurrentState(w, repo, now) == Success(r.value.chain)
              && TargetsFollow(w, r.value.chain.root.signed, r.value.chain.targets, inputs.Release(), r.value.build)
  {
    var release := inputs.Release();
    :- inputs.source;
    var c :- VerifyCurrentState(w, repo, now);
    :- Need(RootPinned(w, repo, inputs), RootDrift);
    :- AssetIdentity(inputs);
    var signers :- TargetsSigners(inputs, c.root.signed, c.targets.signed);
    var build :- BuildTargets(w, c.targets, c.root.signed, signers, release);
    Success(SignedTargets(c, build))
  }

  /** `--offline-targets-only`: Targets alone, to be staged. */
  function PrepareOffline(w: World, repo: Repo, now: Time, inputs: Inputs): Result<Bytes, Code> {
    var s :- SignTargets(w, repo, now, inputs);
    var targets :- ParseTargets(s.build.data);
    :- VerifyRole(w, s.chain.root.signed, TargetsRole, TargetsPayload(targets.signed), targets.signatures);
    Success(s.build.data)
  }

  /** The offline half stages exactly the signed Targets; its own signature test never fails. */
  lemma OfflineStagesSigned(w: World, repo: Repo, now: Time, inputs: Inputs)
    ensures var r, s := PrepareOffline(w, repo, now, inputs), SignTargets(w, repo, now, inputs);
            if s.Success? then r == Success(s.value.build.data) else r == Failure(s.error)
  {
  }

  /** The authorisation checks at the end of `_resolve_online_signers`. */
  function ResolveOnlineSigners(online: Result<OnlineSigners, Code>, root: Root): (r: Result<OnlineSigners, Code>)
    ensures if online.Failure? then r == online
            else if online.value.snapshot.keyid !in root.roles.snapshot.keyids then
              r == Failure(SnapshotSignerUnauthorized)
            else if online.value.timestamp.keyid !in root.roles.timestamp.keyids then
              r == Failure(TimestampSignerUnauthorized)
            else r == online
  {
    var s :- online;
    :- Need(s.snapshot.keyid in root.roles.snapshot.keyids, SnapshotSignerUnauthorized);
    :- Need(s.timestamp.keyid in root.roles.timestamp.keyids, TimestampSignerUnauthorized);
    Success(s)
  }

  function OnlineTransition(
    w: World, builder: Builder, c: Chain, targetsData: Bytes, targets: Targets,
    online: Result<OnlineSigners, Code>, now: Time)
    : (r: Result<OnlinePair, Code>)
    ensures r.Success? ==>
              PairFollows(w, builder, c.root.signed, c.snapshot.signed, c.timestamp.signed,
                          targetsData, targets, now, r.value)
    ensures r.Success? ==>
              && ParseSnapshot(r.value.snapshot).Success? && ParseTimestamp(r.value.timestamp).Success?
              && PairSays(w, builder, c.snapshot.signed, c.timestamp.signed, targetsData, targets.version, now,
                          r.value.snapshot, ParseSnapshot(r.value.snapshot).value.signed,
                          ParseTimestamp(r.value.timestamp).value.signed)
  {
    var s :- ResolveOnlineSigners(online, c.root.signed);
    BuildOnlinePair(w, builder, c.root.signed, c.snapshot.signed, c.timestamp.signed,
                    targetsData, targets, s.snapshot, s.timestamp, now)
  }

  /** The verification block that precedes staging. */
  function FinalCheck(w: World, root: Root, after: Repo): Outcome<Code> {
    var t, s, ts := ParseTargets(after.targets), ParseSnapshot(after.snapshot), ParseTimestamp(after.timestamp);
    if t.Failure? then Fail(t.error)
    else if s.Failure? then Fail(s.error)
    else if ts.Failure? then Fail(ts.error)
    else if !VerifyDelegate(w, root, TargetsRole, TargetsPayload(t.value.signed), t.value.signatures) then
      Fail(SignatureThresholdFailure(TargetsRole))
    else if !VerifyDelegate(w, root, SnapshotRole, SnapshotPayload(s.value.signed), s.value.signatures) then
      Fail(SignatureThresholdFailure(SnapshotRole))
    else if !VerifyDelegate(w, root, TimestampRole, TimestampPayload(ts.value.signed), ts.value.signatures) then
      Fail(SignatureThresholdFailure(TimestampRole))
    else if TargetsJson !in s.value.signed.meta then Fail(UnexpectedCeremonyError)
    else if !Binds(w, s.value.signed.meta[TargetsJson], after.targets) then Fail(MetadataBindingFailure)
    else if !Binds(w, ts.value.signed.snapshotMeta, after.snapshot) then Fail(MetadataBindingFailure)
    else Pass
  }

  datatype Prepared = Prepared(after: Repo, changed: bool)

  /** The second half of `main`: build the online pair if Targets changed, then verify everything again. */
  function CompleteGeneration(
    w: World, builder: Builder, repo: Repo, now: Time, online: Result<OnlineSigners, Code>, s: SignedTargets)
    : (r: Result<Prepared, Code>)
    ensures r.Success? ==> r.value.after.root == repo.root && r.value.changed == s.build.changed
  {
    var targets :- ParseTargets(s.build.data);
    var pair :-
      if s.build.changed
      then OnlineTransition(w, builder, s.chain, s.build.data, targets.signed, online, now)
      else Success(OnlinePair(repo.snapshot, repo.timestamp));
    var after := Repo(repo.root, s.build.data, pair.snapshot, pair.timestamp);
    :- FinalCheck(w, s.chain.root.signed, after);
    Success(Prepared(after, s.build.changed))
  }

  /** Everything up to staging: the generation to publish, or the error that blocks it. */
  function Prepare(w: World, builder: Builder, repo: Repo, now: Time, inputs: Inputs): Result<Prepared, Code> {
    var s :- SignTargets(w, repo, now, inputs);
    CompleteGeneration(w, builder, repo, now, inputs.online, s)
  }

  /** Targets stays byte for byte the same, or moves to a higher version that keeps every record. */
  ghost predicate TargetsKept(c: Chain, before: Bytes, d: Chain, after: Bytes) {
    && d.targets.signed.expires == c.targets.signed.expires
    && c.targets.signed.version <= d.targets.signed.version
    && (c.targets.signed.version == d.targets.signed.version ==> before == after)
    && forall p | p in c.targets.signed.targets ::
         p in d.targets.signed.targets && d.targets.signed.targets[p] == c.targets.signed.targets[p]
  }

  /**
   `after` is a coherent generation whose Snapshot and Timestamp were built at `now` on top of
   `before`: what a ceremony and a scheduled refresh have in common.
   */
  ghost predicate NextPair(w: World, builder: Builder, before: Repo, after: Repo, now: Time) {
    && Coherent(w, before) && Coherent(w, after)
    && after.root == before.root
    && var c, d := ChainOf(before), ChainOf(after);
    && TargetsKept(c, before.targets, d, after.targets)
    && d.snapshot.signed == NextSnapshot(w, builder, c.snapshot.signed, after.targets, d.targets.signed, now)
    && d.timestamp.signed == NextTimestamp(w, builder, c.timestamp.signed, after.snapshot, d.snapshot.signed, now)
    && now + SNAPSHOT_EXPIRY < AuthorityExpiry(c)
  }

  /** The generation a ceremony adds: such a pair around exactly one more target. */
  ghost predicate NextGeneration(
    w: World, builder: Builder, before: Repo, after: Repo, release: Release, now: Time)
  {
    && NextPair(w, builder, before, after, now)
    && release.Path() !in ChainOf(before).targets.signed.targets
    && ChainOf(after).targets.signed == WithRelease(ChainOf(before).targets.signed, release)
    && after.targets == Serialize(TargetsFile(ChainOf(after).targets))
  }

  /** What such a pair says, and that it names exactly the Targets and Snapshot bytes published with it. */
  lemma NextPairSays(w: World, builder: Builder, before: Repo, after: Repo, now: Time)
    requires NextPair(w, builder, before, after, now)
    ensures var c, d := ChainOf(before), ChainOf(after);
            && PairSays(w, builder, c.snapshot.signed, c.timestamp.signed, after.targets, d.targets.signed.version, now,
                        after.snapshot, d.snapshot.signed, d.timestamp.signed)
            && d.snapshot.signed.expires < d.root.signed.expires && d.snapshot.signed.expires < d.targets.signed.expires
            && d.timestamp.signed.expires < d.snapshot.signed.expires
  {
    var c, d := ChainOf(before), ChainOf(after);
    NextSays(w, builder, c.snapshot.signed, c.timestamp.signed, after.targets, d.targets.signed, after.snapshot, now);
  }

  /** Bytes that the references do not bind are refused in place of Targets or Snapshot. */
  lemma UnboundIsRefused(w: World, repo: Repo, other: Bytes, t: Time)
    requires ReadChain(repo).Success?
    ensures var c := ChainOf(repo);
            && (TargetsJson in c.snapshot.signed.meta && !Binds(w, c.snapshot.signed.meta[TargetsJson], other) ==>
                  VerifyCurrentState(w, repo.(targets := other), t).Failure?)
            && (!Binds(w, c.timestamp.signed.snapshotMeta, other) ==>
                  VerifyCurrentState(w, repo.(snapshot := other), t).Failure?)
  {
  }

  /**
   The references of a published pair bind exactly the byte strings that have the length and SHA-256 of the
   published Targets and Snapshot, so the current-state check refuses the generation at every time once
   either file is replaced by bytes of another length or SHA-256.
   */
  lemma PairBindsExactly(
    w: World, builder: Builder, before: Repo, after: Repo, now: Time, other: Bytes, t: Time)
    requires w.Sound() && NextPair(w, builder, before, after, now)
    ensures var d := ChainOf(after);
            && TargetsJson in d.snapshot.signed.meta
            && (Binds(w, d.snapshot.signed.meta[TargetsJson], other)
                <==> w.length(other) == w.length(after.targets) && w.sha256(other) == w.sha256(after.targets))
            && (Binds(w, d.timestamp.signed.snapshotMeta, other)
                <==> w.length(other) == w.length(after.snapshot) && w.sha256(other) == w.sha256(after.snapshot))
    ensures w.length(other) != w.length(after.targets) || w.sha256(other) != w.sha256(after.targets) ==>
              VerifyCurrentState(w, after.(targets := other), t).Failure?
    ensures w.length(other) != w.length(after.snapshot) || w.sha256(other) != w.sha256(after.snapshot) ==>
              VerifyCurrentState(w, after.(snapshot := other), t).Failure?
  {
    var d := ChainOf(after);
    NextPairSays(w, builder, before, after, now);
    NamesBindsIff(w, d.snapshot.signed.meta[TargetsJson], d.targets.signed.version, after.targets, other);
    NamesBindsIff(w, d.timestamp.signed.snapshotMeta, d.snapshot.signed.version, after.snapshot, other);
    hide NextPair, Binds, VerifyDelegate, PairSays, VerifyCurrentState, AllSigned, VersionsLinked, Names;
    UnboundIsRefused(w, after, other, t);
  }

  /** A coherent chain, a verified successor of its Targets and a pair built on both make the next generation. */
  lemma NextFromParts(
    w: World, builder: Builder, before: Repo, after: Repo, release: Release, now: Time, t: Metadata<Targets>)
    requires Coherent(w, before) && after.root == before.root
    requires TargetsFollow(
               w, ChainOf(before).root.signed, ChainOf(before).targets, release, TargetsBuild(after.targets, true))
    requires ParseTargets(after.targets) == Success(t)
    requires var c := ChainOf(before);
             PairFollows(w, builder, c.root.signed, c.snapshot.signed, c.timestamp.signed, after.targets, t.signed, now,
                         OnlinePair(after.snapshot, after.timestamp))
    ensures NextGeneration(w, builder, before, after, release, now)
  {
    var c, d := ChainOf(before), ReadChain(after).value;
    assert d.root == c.root && d.targets == t;
    assert AllSigned(w, d);
    assert VersionsLinked(d);
    assert t.signed.targets == c.targets.signed.targets[release.Path() := release.Record()];
  }

  lemma CompletedIsNext(
    w: World, builder: Builder, repo: Repo, now: Time, online: Result<OnlineSigners, Code>,
    release: Release, s: SignedTargets, p: Prepared)
    requires Coherent(w, repo) && s.chain == ChainOf(repo)
    requires TargetsFollow(w, s.chain.root.signed, s.chain.targets, release, s.build)
    requires CompleteGeneration(w, builder, repo, now, online, s) == Success(p) && p.changed
    ensures NextGeneration(w, builder, repo, p.after, release, now)
  {
    NextFromParts(w, builder, repo, p.after, release, now, ParseTargets(s.build.data).value);
  }

  /** A prepared generation that changes Targets is the next generation of a coherent state. */
  lemma PreparedIsNext(w: World, builder: Builder, repo: Repo, now: Time, inputs: Inputs, p: Prepared)
    requires Prepare(w, builder, repo, now, inputs) == Success(p) && p.changed
    ensures NextGeneration(w, builder, repo, p.after, inputs.Release(), now)
  {
    var s := SignTargets(w, repo, now, inputs).value;
    CompletedIsNext(w, builder, repo, now, inputs.online, inputs.Release(), s, p);
  }

  /**
   What a prepared change authorises: one more target, at the path of the requested release, whose record has
   the size and SHA-256 of the installer that was measured and says of it what was requested. A file can be
   installed under that record exactly when it has that size and SHA-256.
   */
  lemma PreparedAuthorises(
    w: World, builder: Builder, repo: Repo, now: Time, inputs: Inputs, p: Prepared, data: Bytes)
    requires Prepare(w, builder, repo, now, inputs) == Success(p) && p.changed
    ensures inputs.asset.Some? && ReadChain(repo).Success? && ReadChain(p.after).Success?
    ensures var asset, q := inputs.asset.value, inputs.request;
            var path := "channels/" + q.channel + "/" + q.platform + "/" + q.publicVersion + "/"
                        + q.sourceSha + "/" + q.filename;
            var before, after := ChainOf(repo).targets.signed.targets, ChainOf(p.after).targets.signed.targets;
            && path !in before && after.Keys == before.Keys + {path}
            && (forall known | known in before :: after[known] == before[known])
            && after[path].length == asset.size
            && after[path].hashes == map[Sha256 := asset.digest]
            && after[path].custom == Some(
                 ReleaseCustom(q.policy, q.channel, q.payloadUrl, ExactSourceProvenanceRequired, q.publicVersion,
                               q.releaseNotes, UnsignedNoTrustClaimed, q.sourceSha, false))
            && (Downloads(w, after[path], data) <==> w.length(data) == asset.size && w.sha256(data) == asset.digest)
  {
    hide CompleteGeneration, VerifyDelegate, BuildTargets;
    var s := SignTargets(w, repo, now, inputs).value;
    PreparedIsNext(w, builder, repo, now, inputs, p);
    var record := ChainOf(p.after).targets.signed.targets[inputs.Release().Path()];
    assert s.chain == ChainOf(repo);
    DownloadsIff(w, record, inputs.Release(), data);
  }

  /** One that does not is the current generation, re-serialized, with the exact record already in it. */
  lemma UnchangedIsCurrent(w: World, builder: Builder, repo: Repo, now: Time, inputs: Inputs, p: Prepared)
    requires Prepare(w, builder, repo, now, inputs) == Success(p) && !p.changed
    ensures Coherent(w, repo)
    ensures var t := ChainOf(repo).targets;
            && inputs.Release().Path() in t.signed.targets
            && Records(t.signed.targets[inputs.Release().Path()], inputs.Release())
            && p.after == repo.(targets := Serialize(TargetsFile(t)))
  {
    var s := SignTargets(w, repo, now, inputs).value;
    assert s.chain == ChainOf(repo);
  }

  /**
   What a caller can check before running the ceremony on a new target: the gates pass, the
   state is accepted, the first keys that unlock are enough and are Root's own, each online
   signer alone can sign its role, and 72 hours end before Root's and Targets' authority.
   */
  ghost predicate ReadyForNewTarget(w: World, repo: Repo, now: Time, inputs: Inputs) {
    && GatesOpen(w, repo, inputs)
    && VerifyCurrentState(w, repo, now).Success?
    && inputs.passphraseGiven
    && var root := ChainOf(repo).root.signed;
    && TargetsKeysReady(inputs.custody, root)
    && OnlineReady(inputs.online, root)
    && now + SNAPSHOT_EXPIRY < AuthorityExpiry(ChainOf(repo))
  }

  ghost predicate TargetsKeysReady(custody: KeyDir, root: Root) {
    && custody.Files?
    && |UnlockedIds(Authorized(root, TargetsRole), custody.paths)| >= root.roles.targets.threshold
    && forall s | s in PemSigners(custody, root, TargetsRole).value :: Recognises(root, TargetsRole, s)
  }

  predicate OnlineReady(online: Result<OnlineSigners, Code>, root: Root) {
    && online.Success?
    && SoleSigner(root, SnapshotRole, online.value.snapshot)
    && SoleSigner(root, TimestampRole, online.value.timestamp)
  }

  /** The online pair comes about exactly when the signers are ready and the authorities outlast it. */
  lemma OnlineTransitionIff(
    w: World, builder: Builder, c: Chain, targetsData: Bytes, targets: Targets,
    online: Result<OnlineSigners, Code>, now: Time)
    requires w.Sound()
    ensures OnlineTransition(w, builder, c, targetsData, targets, online, now).Success?
       <==> && OnlineReady(online, c.root.signed)
            && now + 259200 < c.root.signed.expires && now + 259200 < targets.expires
  {
    hide BuildOnlinePair, PairFollows;
    if online.Success? {
      BuildOnlinePairIff(w, builder, c.root.signed, c.snapshot.signed, c.timestamp.signed,
                         targetsData, targets, online.value.snapshot, online.value.timestamp, now);
    }
  }

  /** The final verification block has nothing left to find. */
  lemma FinalCheckPasses(
    w: World, builder: Builder, c: Chain, after: Repo, t: Metadata<Targets>, now: Time)
    requires ParseTargets(after.targets) == Success(t)
    requires VerifyDelegate(w, c.root.signed, TargetsRole, TargetsPayload(t.signed), t.signatures)
    requires PairFollows(w, builder, c.root.signed, c.snapshot.signed, c.timestamp.signed, after.targets, t.signed, now,
                         OnlinePair(after.snapshot, after.timestamp))
    ensures FinalCheck(w, c.root.signed, after).Pass?
  {
  }

  /** Once Targets has changed, only the online signers and the lifetimes can still stop the ceremony. */
  lemma CompleteIff(
    w: World, builder: Builder, repo: Repo, now: Time, online: Result<OnlineSigners, Code>,
    release: Release, s: SignedTargets)
    requires w.Sound() && Coherent(w, repo) && s.chain == ChainOf(repo) && s.build.changed
    requires TargetsFollow(w, s.chain.root.signed, s.chain.targets, release, s.build)
    ensures CompleteGeneration(w, builder, repo, now, online, s).Success?
       <==> OnlineReady(online, s.chain.root.signed) && now + SNAPSHOT_EXPIRY < AuthorityExpiry(s.chain)
  {
    hide BuildOnlinePair, VerifyDelegate, Binds, NextSnapshot, NextTimestamp, FinalCheck;
    var c, t := s.chain, ParseTargets(s.build.data).value;
    OnlineTransitionIff(w, builder, c, s.build.data, t.signed, online, now);
    hide OnlineTransition, OnlineReady;
    var pair := OnlineTransition(w, builder, c, s.build.data, t.signed, online, now);
    if pair.Success? {
      FinalCheckPasses(w, builder, c, Repo(repo.root, s.build.data, pair.value.snapshot, pair.value.timestamp), t, now);
    }
  }

  /** The Targets half on its own. */
  lemma SignsTargetsIff(w: World, repo: Repo, now: Time, inputs: Inputs)
    requires w.Sound() && VerifyCurrentState(w, repo, now).Success?
    requires inputs.Release().Path() !in ChainOf(repo).targets.signed.targets
    ensures SignTargets(w, repo, now, inputs).Success?
       <==> && GatesOpen(w, repo, inputs) && inputs.passphraseGiven
            && TargetsKeysReady(inputs.custody, ChainOf(repo).root.signed)
  {
    hide Coherent, PemSigners, VerifyDelegate, TargetsFollow;
    var c := ChainOf(repo);
    var signers := PemSigners(inputs.custody, c.root.signed, TargetsRole);
    if signers.Success? {
      BuildTargetsIff(w, c.targets, c.root.signed, signers.value, inputs.Release());
    }
  }

  /**
   On a new target, preparing a generation succeeds if and only if the caller's checks hold:
   in particular the final verification block then never fails.
   */
  lemma PreparesIff(w: World, builder: Builder, repo: Repo, now: Time, inputs: Inputs)
    requires w.Sound()
    requires Coherent(w, repo) ==> inputs.Release().Path() !in ChainOf(repo).targets.signed.targets
    ensures Prepare(w, builder, repo, now, inputs).Success? <==> ReadyForNewTarget(w, repo, now, inputs)
  {
    if VerifyCurrentState(w, repo, now).Success? {
      SignsTargetsIff(w, repo, now, inputs);
      var s := SignTargets(w, repo, now, inputs);
      if s.Success? {
        CompleteIff(w, builder, repo, now, inputs.online, inputs.Release(), s.value);
      }
    }
  }

  /** Source, state, pinned Root and installer have all passed. */
  ghost predicate GatesReached(w: World, repo: Repo, now: Time, inputs: Inputs) {
    && inputs.source.Pass? && VerifyCurrentState(w, repo, now).Success?
    && (inputs.expectedRoot.Some? ==> w.sha256(repo.root) == inputs.expectedRoot.value)
    && inputs.asset.Some?
    && (inputs.expectedSize.Some? ==> inputs.asset.value.size == inputs.expectedSize.value)
    && (inputs.expectedDigest.Some? ==> inputs.asset.value.digest == inputs.expectedDigest.value)
  }

  /** How signing then ends. */
  ghost predicate SigningEnds(r: Result<SignedTargets, Code>, c: Chain, inputs: Inputs) {
    var q, root, targets := inputs.request, c.root.signed, c.targets.signed.targets;
    var path := "channels/" + q.channel + "/" + q.platform + "/" + q.publicVersion + "/"
                + q.sourceSha + "/" + q.filename;
    if path !in targets && !inputs.passphraseGiven then r == Failure(EmptyCustodyPassphrase)
    else if path !in targets && inputs.custody.Missing? then r == Failure(OfflineKeyDirMissing)
    else if path !in targets
            && |UnlockedIds(Authorized(root, TargetsRole), inputs.custody.paths)| < root.roles.targets.threshold then
      r == Failure(TargetsSignerUnavailable)
    else if q.policy != RequireValid && q.policy != AllowUnsigned then r == Failure(InvalidAuthenticodePolicy)
    else if path in targets then
      if Records(targets[path], inputs.Release()) then r.Success? && !r.value.build.changed
      else r == Failure(TargetAlreadyExistsDifferent)
    else if exists s | s in PemSigners(inputs.custody, root, TargetsRole).value ::
              !Recognises(root, TargetsRole, s) then
      r == Failure(SignatureThresholdFailure(TargetsRole))
    else r.Success? && r.value.build.changed
  }

  /** Building for a new target under a known policy can fail at the threshold only. */
  lemma BuildFailsAtThreshold(
    w: World, current: Metadata<Targets>, root: Root, signers: seq<Signer>, release: Release)
    requires release.Path() !in current.signed.targets
    requires release.policy == RequireValid || release.policy == AllowUnsigned
    ensures var r := BuildTargets(w, current, root, signers, release);
            r == Failure(SignatureThresholdFailure(TargetsRole)) || (r.Success? && r.value.changed)
  {
    assert WithRelease(current.signed, release).targets.Keys == current.signed.targets.Keys + {release.Path()};
  }

  lemma SigningEndsSo(w: World, repo: Repo, now: Time, inputs: Inputs)
    requires w.Sound() && GatesReached(w, repo, now, inputs)
    ensures SigningEnds(SignTargets(w, repo, now, inputs), VerifyCurrentState(w, repo, now).value, inputs)
  {
    var c, release := VerifyCurrentState(w, repo, now).value, inputs.Release();
    var signers := TargetsSigners(inputs, c.root.signed, c.targets.signed);
    hide VerifyCurrentState, PemSigners, VerifyDelegate, TargetsFollow, Records, Recognises, BuildTargets, UnlockedIds;
    if release.Path() !in c.targets.signed.targets && signers.Success? && release.PolicyKnown() {
      BuildTargetsIff(w, c.targets, c.root.signed, signers.value, release);
      BuildFailsAtThreshold(w, c.targets, c.root.signed, signers.value, release);
    }
  }

  /** Every way the Targets half can end, in the order in which the tests come. */
  lemma SignTargetsOutcome(w: World, repo: Repo, now: Time, inputs: Inputs)
    requires w.Sound()
    ensures var r := SignTargets(w, repo, now, inputs);
            var state, asset := VerifyCurrentState(w, repo, now), inputs.asset;
            if inputs.source.Fail? then r == Failure(inputs.source.error)
            else if state.Failure? then r.Failure? && r.error == state.error
            else if inputs.expectedRoot.Some? && w.sha256(repo.root) != inputs.expectedRoot.value then
              r == Failure(RootDrift)
            else if asset.None? then r == Failure(AssetMissing)
            else if inputs.expectedSize.Some? && asset.value.size != inputs.expectedSize.value then
              r == Failure(AssetSizeMismatch)
            else if inputs.expectedDigest.Some? && asset.value.digest != inputs.expectedDigest.value then
              r == Failure(AssetSha256Mismatch)
            else SigningEnds(r, state.value, inputs)
  {
    hide VerifyCurrentState, SigningEnds, TargetsSigners, BuildTargets, TargetsFollow;
    if GatesReached(w, repo, now, inputs) {
      SigningEndsSo(w, repo, now, inputs);
    }
  }

  /** The ways the preparation of a new target can end once Targets has been signed. */
  lemma PrepareOutcome(w: World, builder: Builder, repo: Repo, now: Time, inputs: Inputs)
    requires w.Sound() && SignTargets(w, repo, now, inputs).Success?
    requires SignTargets(w, repo, now, inputs).value.build.changed
    ensures var r, online, c := Prepare(w, builder, repo, now, inputs), inputs.online, ChainOf(repo);
            var root := c.root.signed;
            if online.Failure? then r == Failure(online.error)
            else if online.value.snapshot.keyid !in root.roles.snapshot.keyids then
              r == Failure(SnapshotSignerUnauthorized)
            else if online.value.timestamp.keyid !in root.roles.timestamp.keyids then
              r == Failure(TimestampSignerUnauthorized)
            else if now + 259200 >= root.expires || now + 259200 >= c.targets.signed.expires then
              r == Failure(OnlineExpiryExceedsAuthority)
            else if !SoleSigner(root, SnapshotRole, online.value.snapshot) then
              r == Failure(SignatureThresholdFailure(SnapshotRole))
            else if !SoleSigner(root, TimestampRole, online.value.timestamp) then
              r == Failure(SignatureThresholdFailure(TimestampRole))
            else r.Success? && r.value.changed
  {
    var s := SignTargets(w, repo, now, inputs).value;
    var c, t := s.chain, ParseTargets(s.build.data).value;
    hide SignTargets, BuildOnlinePair, VerifyDelegate, Binds, FinalCheck, SoleSigner, VerifyCurrentState, PairSays;
    if inputs.online.Success? {
      BuildOnlinePairIff(w, builder, c.root.signed, c.snapshot.signed, c.timestamp.signed, s.build.data, t.signed,
                         inputs.online.value.snapshot, inputs.online.value.timestamp, now);
    }
    var pair := OnlineTransition(w, builder, c, s.build.data, t.signed, inputs.online, now);
    if pair.Success? {
      FinalCheckPasses(w, builder, c, Repo(repo.root, s.build.data, pair.value.snapshot, pair.value.timestamp), t, now);
    }
  }
}
