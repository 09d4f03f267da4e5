/** `_verify_current_state`: the coherence check that opens and guards every ceremony. */
module CurrentState {
  import opened Wrappers
  import opened Tuf

  /** Every error code the ceremony can stop with. */
  datatype Code =
    | MissingMetadata
    | InvalidMetadata
    | WrongMetadataRole
    | SignatureThresholdFailure(role: RoleName)
    | RootExpired
    | TargetsExpired
    | SnapshotTargetsVersionMismatch
    | TimestampSnapshotVersionMismatch
    | MetadataBindingFailure
    | RootDrift
    | AssetMissing
    | AssetSizeMismatch
    | AssetSha256Mismatch
    | EmptyCustodyPassphrase
    | OfflineKeyDirMissing
    | TargetsSignerUnavailable
    | InvalidAuthenticodePolicy
    | TargetAlreadyExistsDifferent
    | TargetPreservationFailure
    | OnlineSignersUnavailable
    | SnapshotSignerUnauthorized
    | TimestampSignerUnauthorized
    | OnlineExpiryExceedsAuthority
    | SnapshotMetaPreservationFailure
    | PrivateMaterialOutput
    | CurrentMetadataMissing
    | MetadataApplyRolledBack
    | MetadataApplyRollbackFailed
    | UnexpectedCeremonyError
    | SourceIdentity(detail: string)

  /** The four metadata files as one generation of bytes. */
  datatype Repo = Repo(root: Bytes, targets: Bytes, snapshot: Bytes, timestamp: Bytes)

  /** The same four files, parsed. */
  datatype Chain = Chain(
    root: Metadata<Root>, targets: Metadata<Targets>,
    snapshot: Metadata<Snapshot>, timestamp: Metadata<Timestamp>)

  function ParseRoot(data: Bytes): Result<Metadata<Root>, Code> {
    match data.reading
    case None => Failure(InvalidMetadata)
    case Some(d) => if d.RootFile? then Success(d.root) else Failure(WrongMetadataRole)
  }

  function ParseTargets(data: Bytes): Result<Metadata<Targets>, Code> {
    match data.reading
    case None => Failure(InvalidMetadata)
    case Some(d) => if d.TargetsFile? then Success(d.targets) else Failure(WrongMetadataRole)
  }

  function ParseSnapshot(data: Bytes): Result<Metadata<Snapshot>, Code> {
    match data.reading
    case None => Failure(InvalidMetadata)
    case Some(d) => if d.SnapshotFile? then Success(d.snapshot) else Failure(WrongMetadataRole)
  }

  function ParseTimestamp(data: Bytes): Result<Metadata<Timestamp>, Code> {
    match data.reading
    case None => Failure(InvalidMetadata)
    case Some(d) => if d.TimestampFile? then Success(d.timestamp) else Failure(WrongMetadataRole)
  }

  function ReadChain(repo: Repo): Result<Chain, Code> {
    var root :- ParseRoot(repo.root);
    var targets :- ParseTargets(repo.targets);
    var snapshot :- ParseSnapshot(repo.snapshot);
    var timestamp :- ParseTimestamp(repo.timestamp);
    Success(Chain(root, targets, snapshot, timestamp))
  }

  function VerifyRole(w: World, root: Root, name: RoleName, payload: Payload, signatures: Signatures): Outcome<Code> {
    Need(VerifyDelegate(w, root, name, payload, signatures), SignatureThresholdFailure(name))
  }

  function VerifyReference(w: World, reference: MetaFile, data: Bytes): Outcome<Code> {
    Need(Binds(w, reference, data), MetadataBindingFailure)
  }

  predicate Expired(expires: Time, now: Time) {
    now >= expires
  }

  predicate AllSigned(w: World, c: Chain) {
    var root := c.root.signed;
    && VerifyDelegate(w, root, RootRole, RootPayload(root), c.root.signatures)
    && VerifyDelegate(w, root, TargetsRole, TargetsPayload(c.targets.signed), c.targets.signatures)
    && VerifyDelegate(w, root, SnapshotRole, SnapshotPayload(c.snapshot.signed), c.snapshot.signatures)
    && VerifyDelegate(w, root, TimestampRole, TimestampPayload(c.timestamp.signed), c.timestamp.signatures)
  }

  /** The version links alone: Snapshot names this Targets, Timestamp names this Snapshot. */
  predicate VersionsLinked(c: Chain) {
    && TargetsJson in c.snapshot.signed.meta
    && c.snapshot.signed.meta[TargetsJson].version == c.targets.signed.version
    && c.timestamp.signed.snapshotMeta.version == c.snapshot.signed.version
  }

  /** The conditions of `_verify_current_state` that do not depend on the clock. */
  predicate Coherent(w: World, repo: Repo) {
    var r := ReadChain(repo);
    && r.Success?
    && AllSigned(w, r.value)
    && VersionsLinked(r.value)
    && Binds(w, r.value.snapshot.signed.meta[TargetsJson], repo.targets)
    && Binds(w, r.value.timestamp.signed.snapshotMeta, repo.snapshot)
  }

  function ChainOf(repo: Repo): Chain
    requires ReadChain(repo).Success?
  {
    ReadChain(repo).value
  }

  /** The moment at which Root or Targets, whichever lapses first, stops granting authority. */
  function AuthorityExpiry(c: Chain): Time {
    if c.root.signed.expires <= c.targets.signed.expires then c.root.signed.expires else c.targets.signed.expires
  }

  function VerifyCurrentState(w: World, repo: Repo, now: Time): (r: Result<Chain, Code>)
    // Accepted exactly when coherent and both authorities are unexpired; what is returned is what was read.
    ensures r.Success? <==> Coherent(w, repo) && now < AuthorityExpiry(ChainOf(repo))
    ensures r.Success? ==> r == ReadChain(repo)
  {
    var c :- ReadChain(repo);
    var root := c.root.signed;
    :- VerifyRole(w, root, RootRole, RootPayload(root), c.root.signatures);
    :- VerifyRole(w, root, TargetsRole, TargetsPayload(c.targets.signed), c.targets.signatures);
    :- VerifyRole(w, root, SnapshotRole, SnapshotPayload(c.snapshot.signed), c.snapshot.signatures);
    :- VerifyRole(w, root, TimestampRole, TimestampPayload(c.timestamp.signed), c.timestamp.signatures);
    :- Need(!Expired(root.expires, now), RootExpired);
    :- Need(!Expired(c.targets.signed.expires, now), TargetsExpired);
    var meta := c.snapshot.signed.meta;
    :- Need(TargetsJson in meta && meta[TargetsJson].version == c.targets.signed.version,
            SnapshotTargetsVersionMismatch);
    :- VerifyReference(w, meta[TargetsJson], repo.targets);
    :- Need(c.timestamp.signed.snapshotMeta.version == c.snapshot.signed.version,
            TimestampSnapshotVersionMismatch);
    :- VerifyReference(w, c.timestamp.signed.snapshotMeta, repo.snapshot);
    Success(c)
  }

  /** The error codes of the check, in the order in which they come up. */
  lemma RefusalCodes(w: World, repo: Repo, now: Time)
    requires ReadChain(repo).Success?
    ensures var r, c := VerifyCurrentState(w, repo, now), ChainOf(repo);
            var root, targets, snapshot, timestamp := c.root, c.targets, c.snapshot, c.timestamp;
            if !VerifyDelegate(w, root.signed, RootRole, RootPayload(root.signed), root.signatures) then
              r == Failure(SignatureThresholdFailure(RootRole))
            else if !VerifyDelegate(w, root.signed, TargetsRole, TargetsPayload(targets.signed), targets.signatures)
            then r == Failure(SignatureThresholdFailure(TargetsRole))
            else if !VerifyDelegate(w, root.signed, SnapshotRole, SnapshotPayload(snapshot.signed), snapshot.signatures)
            then r == Failure(SignatureThresholdFailure(SnapshotRole))
            else if !VerifyDelegate(
                       w, root.signed, TimestampRole, TimestampPayload(timestamp.signed), timestamp.signatures)
            then r == Failure(SignatureThresholdFailure(TimestampRole))
            else if now >= root.signed.expires then r == Failure(RootExpired)
            else if now >= targets.signed.expires then r == Failure(TargetsExpired)
            else if TargetsJson !in snapshot.signed.meta
                    || snapshot.signed.meta[TargetsJson].version != targets.signed.version then
              r == Failure(SnapshotTargetsVersionMismatch)
            else if !Binds(w, snapshot.signed.meta[TargetsJson], repo.targets) then r == Failure(MetadataBindingFailure)
            else if timestamp.signed.snapshotMeta.version != snapshot.signed.version then
              r == Failure(TimestampSnapshotVersionMismatch)
            else if !Binds(w, timestamp.signed.snapshotMeta, repo.snapshot) then r == Failure(MetadataBindingFailure)
            else r == Success(c)
  {
  }

  function UnreadableCode(data: Bytes): Code {
    if data.reading.None? then InvalidMetadata else WrongMetadataRole
  }

  /** The first of the four files that does not parse, or parses as another role, stops it. */
  lemma UnreadableCodes(w: World, repo: Repo, now: Time)
    ensures var r := VerifyCurrentState(w, repo, now);
            if !(repo.root.reading.Some? && repo.root.reading.value.RootFile?) then
              r == Failure(UnreadableCode(repo.root))
            else if !(repo.targets.reading.Some? && repo.targets.reading.value.TargetsFile?) then
              r == Failure(UnreadableCode(repo.targets))
            else if !(repo.snapshot.reading.Some? && repo.snapshot.reading.value.SnapshotFile?) then
              r == Failure(UnreadableCode(repo.snapshot))
            else if !(repo.timestamp.reading.Some? && repo.timestamp.reading.value.TimestampFile?) then
              r == Failure(UnreadableCode(repo.timestamp))
            else ReadChain(repo).Success?
  {
  }

  /** All four files read, but the version links are broken. */
  predicate Torn(repo: Repo) {
    var r := ReadChain(repo);
    r.Success? && !VersionsLinked(r.value)
  }

  /** A torn state is refused at every time, whatever its digests are. */
  lemma TornIsRefused(w: World, repo: Repo, now: Time)
    requires Torn(repo)
    ensures VerifyCurrentState(w, repo, now).Failure?
    ensures !Coherent(w, repo)
  {
  }

  /** Which of the three replaceable files come from the new generation. */
  datatype Mix = Mix(targets: bool, snapshot: bool, timestamp: bool)

  function Mixed(before: Repo, after: Repo, m: Mix): Repo {
    Repo(before.root,
         if m.targets then after.targets else before.targets,
         if m.snapshot then after.snapshot else before.snapshot,
         if m.timestamp then after.timestamp else before.timestamp)
  }
}
