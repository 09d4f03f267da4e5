/**
 The ceremony in two halves: Targets signed offline, then Snapshot and Timestamp built online
 around the staged file. Digests, versions, path and record that the online script pins are
 parameters here.
 */
module Split {
  import opened Wrappers
  import opened Tuf
  import opened CurrentState
  import opened Custody
  import opened Builders
  import opened Ceremony

  datatype Pins = Pins(
    currentTargets: Version, currentDigest: Digest, stagedTargets: Version, stagedDigest: Digest,
    currentSnapshot: Version, stagedSnapshot: Version, currentTimestamp: Version, stagedTimestamp: Version,
    path: string, record: TargetFile)

  datatype StagedError =
    | CurrentTargetsVersionMismatch
    | CurrentTargetsDigestMismatch
    | StagedTargetsDigestMismatch
    | StagedTargetsVersionMismatch
    | TargetsAuthorityExpiryDrift
    | TargetsHistoryDrift
    | PriorTargetDrift
    | StableTargetIdentityMismatch
    | UnexpectedVersion(role: RoleName)
    | CeremonyStopped(code: Code)

  function Lift<T>(r: Result<T, Code>): Result<T, StagedError> {
    match r
    case Success(v) => Success(v)
    case Failure(code) => Failure(CeremonyStopped(code))
  }

  /**
   `validate_staged_targets`. It passes exactly the signed file with the pinned digest and version that
   differs from the pinned current Targets by the pinned target alone.
   */
  function ValidateStagedTargets(
    w: World, root: Root, current: Targets, currentData: Bytes, stagedData: Bytes, pins: Pins)
    : (r: Result<Targets, StagedError>)
    ensures r.Success? <==>
              && ParseTargets(stagedData).Success?
              && var staged := ParseTargets(stagedData).value;
              && VerifyDelegate(w, root, TargetsRole, TargetsPayload(staged.signed), staged.signatures)
              && w.sha256(currentData) == pins.currentDigest && w.sha256(stagedData) == pins.stagedDigest
              && current.version == pins.currentTargets && staged.signed.version == pins.stagedTargets
              && staged.signed.expires == current.expires
              && staged.signed.targets == current.targets[pins.path := pins.record]
              && pins.path !in current.targets
    ensures r.Success? ==> r.value == ParseTargets(stagedData).value.signed
  {
    var before := current.targets.Keys;
    :- Need(current.version == pins.currentTargets, CurrentTargetsVersionMismatch);
    :- Need(w.sha256(currentData) == pins.currentDigest, CurrentTargetsDigestMismatch);
    :- Need(w.sha256(stagedData) == pins.stagedDigest, StagedTargetsDigestMismatch);
    var staged :- Lift(ParseTargets(stagedData));
    var _ :- Lift(Signed(w, root, staged));
    :- Need(staged.signed.version == pins.stagedTargets, StagedTargetsVersionMismatch);
    :- Need(staged.signed.expires == current.expires, TargetsAuthorityExpiryDrift);
    var after := staged.signed.targets.Keys;
    :- Need(before <= after && after - before == {pins.path}, TargetsHistoryDrift);
    :- Need(forall p | p in before :: staged.signed.targets[p] == current.targets[p], PriorTargetDrift);
    :- Need(staged.signed.targets[pins.path] == pins.record, StableTargetIdentityMismatch);
    assert staged.signed.targets.Keys == current.targets.Keys + {pins.path};
    Success(staged.signed)
  }

  function Signed(w: World, root: Root, targets: Metadata<Targets>): Result<(), Code> {
    var ok := VerifyDelegate(w, root, TargetsRole, TargetsPayload(targets.signed), targets.signatures);
    if ok then Success(()) else Failure(SignatureThresholdFailure(TargetsRole))
  }

  /** The online half: `main` of the transition script, up to the three files it writes out. */
  function OnlineHalf(
    w: World, repo: Repo, now: Time, stagedData: Bytes, online: Result<OnlineSigners, Code>, pins: Pins)
    : Result<Repo, StagedError>
  {
    var c :- Lift(VerifyCurrentState(w, repo, now));
    :- Need(c.snapshot.signed.version == pins.currentSnapshot, UnexpectedVersion(SnapshotRole));
    :- Need(c.timestamp.signed.version == pins.currentTimestamp, UnexpectedVersion(TimestampRole));
    var staged :- ValidateStagedTargets(w, c.root.signed, c.targets.signed, repo.targets, stagedData, pins);
    var pair :- Lift(OnlineTransition(w, Base, c, stagedData, staged, online, now));
    var snapshot :- Lift(ParseSnapshot(pair.snapshot));
    var timestamp :- Lift(ParseTimestamp(pair.timestamp));
    :- Need(snapshot.signed.version == pins.stagedSnapshot, UnexpectedVersion(SnapshotRole));
    :- Need(timestamp.signed.version == pins.stagedTimestamp, UnexpectedVersion(TimestampRole));
    Success(Repo(repo.root, stagedData, pair.snapshot, pair.timestamp))
  }

  /**
   The online half succeeds exactly when the state is accepted, current and new versions are the pinned ones, the
   staged file passes, each online signer alone can sign its role, and 72 hours end before Root's and Targets'
   authority.
   */
  lemma OnlineHalfIff(
    w: World, repo: Repo, now: Time, stagedData: Bytes, online: Result<OnlineSigners, Code>, pins: Pins)
    requires w.Sound() && VerifyCurrentState(w, repo, now).Success?
    ensures var r, c := OnlineHalf(w, repo, now, stagedData, online, pins), ChainOf(repo);
            var root := c.root.signed;
            && (r.Success? <==>
                  && c.snapshot.signed.version == pins.currentSnapshot
                  && c.timestamp.signed.version == pins.currentTimestamp
                  && c.snapshot.signed.version + 1 == pins.stagedSnapshot
                  && c.timestamp.signed.version + 1 == pins.stagedTimestamp
                  && ValidateStagedTargets(w, root, c.targets.signed, repo.targets, stagedData, pins).Success?
                  && OnlineReady(online, root)
                  && now + 259200 < root.expires && now + 259200 < c.targets.signed.expires)
  {
    var c := ChainOf(repo);
    var staged := ValidateStagedTargets(w, c.root.signed, c.targets.signed, repo.targets, stagedData, pins);
    if staged.Success? {
      OnlineTransitionIff(w, Base, c, stagedData, staged.value, online, now);
    }
    hide OnlineTransition, OnlineReady, PairFollows, Names, ValidateStagedTargets;
  }

  /** Its files are the staged Targets and a base pair around them. */
  lemma OnlineHalfSays(
    w: World, repo: Repo, now: Time, stagedData: Bytes, online: Result<OnlineSigners, Code>, pins: Pins)
    requires OnlineHalf(w, repo, now, stagedData, online, pins).Success?
    ensures ReadChain(repo).Success?
    ensures var after, c := OnlineHalf(w, repo, now, stagedData, online, pins).value, ChainOf(repo);
            && after.root == repo.root && after.targets == stagedData
            && ParseSnapshot(after.snapshot).Success? && ParseTimestamp(after.timestamp).Success?
            && PairSays(w, Base, c.snapshot.signed, c.timestamp.signed, stagedData, pins.stagedTargets, now,
                        after.snapshot, ParseSnapshot(after.snapshot).value.signed,
                        ParseTimestamp(after.timestamp).value.signed)
  {
    hide OnlineTransition, PairFollows, Names, PairSays;
  }

  /** The pins an operator reads off a state and the release that was signed on top of it. */
  function PinsOf(w: World, repo: Repo, stagedData: Bytes, release: Release): Pins
    requires ReadChain(repo).Success?
  {
    var c := ChainOf(repo);
    Pins(c.targets.signed.version, w.sha256(repo.targets), c.targets.signed.version + 1, w.sha256(stagedData),
         c.snapshot.signed.version, c.snapshot.signed.version + 1,
         c.timestamp.signed.version, c.timestamp.signed.version + 1,
         release.Path(), release.Record())
  }

  predicate FreshTarget(repo: Repo, inputs: Inputs) {
    ReadChain(repo).Success? ==> inputs.Release().Path() !in ChainOf(repo).targets.signed.targets
  }

  /** The offline half does not depend on the clock, and its output always passes validation against its own pins. */
  lemma OfflineOutputValidates(w: World, repo: Repo, now: Time, later: Time, inputs: Inputs)
    requires FreshTarget(repo, inputs) && PrepareOffline(w, repo, now, inputs).Success?
    requires later < AuthorityExpiry(ChainOf(repo))
    ensures var staged := PrepareOffline(w, repo, now, inputs).value;
            var c := ChainOf(repo);
            && PrepareOffline(w, repo, later, inputs) == Success(staged)
            && ValidateStagedTargets(w, c.root.signed, c.targets.signed, repo.targets, staged,
                                     PinsOf(w, repo, staged, inputs.Release())).Success?
  {
    var s := SignTargets(w, repo, now, inputs).value;
    assert SignTargets(w, repo, later, inputs) == Success(s);
    assert s.build.changed;
  }

  /** From the same signed Targets, the second half of `main` and the online script do the same. */
  lemma HalvesMeet(
    w: World, repo: Repo, now: Time, online: Result<OnlineSigners, Code>, release: Release, s: SignedTargets)
    requires VerifyCurrentState(w, repo, now) == Success(s.chain) && s.build.changed
    requires TargetsFollow(w, s.chain.root.signed, s.chain.targets, release, s.build)
    ensures var unsplit := CompleteGeneration(w, Base, repo, now, online, s);
            var split := OnlineHalf(w, repo, now, s.build.data, online, PinsOf(w, repo, s.build.data, release));
            && (unsplit.Success? <==> split.Success?)
            && (unsplit.Success? ==> unsplit.value == Prepared(split.value, true))
  {
    hide BuildOnlinePair, BuildTargets, Coherent, NextSnapshot, NextTimestamp;
    var c := s.chain;
    var next := ParseTargets(s.build.data).value;
    assert ValidateStagedTargets(w, c.root.signed, c.targets.signed, repo.targets, s.build.data,
                                 PinsOf(w, repo, s.build.data, release)) == Success(next.signed);
    var pair := OnlineTransition(w, Base, c, s.build.data, next.signed, online, now);
    if pair.Success? {
      FinalCheckPasses(w, Base, c, Repo(repo.root, s.build.data, pair.value.snapshot, pair.value.timestamp), next, now);
      PairVersions(w, c, s.build.data, next.signed, now, pair.value);
    }
  }

  lemma PairVersions(w: World, c: Chain, targetsData: Bytes, targets: Targets, now: Time, pair: OnlinePair)
    requires PairFollows(w, Base, c.root.signed, c.snapshot.signed, c.timestamp.signed, targetsData, targets, now, pair)
    ensures ParseSnapshot(pair.snapshot).value.signed.version == c.snapshot.signed.version + 1
    ensures ParseTimestamp(pair.timestamp).value.signed.version == c.timestamp.signed.version + 1
  {
  }

  /**
   Splitting changes nothing. For a target that is not yet authorised, the unsplit base ceremony
   at `now` succeeds if and only if the offline half, run at any moment, and the online half
   at `now` both do; and then all three files are the same.
   */
  lemma SplitEqualsUnsplit(w: World, repo: Repo, early: Time, now: Time, inputs: Inputs)
    requires FreshTarget(repo, inputs)
    requires ReadChain(repo).Success? ==> early < AuthorityExpiry(ChainOf(repo))
    ensures var unsplit := Prepare(w, Base, repo, now, inputs);
            var offline := PrepareOffline(w, repo, early, inputs);
            if offline.Failure? then unsplit.Failure?
            else
              var online := OnlineHalf(w, repo, now, offline.value, inputs.online,
                                       PinsOf(w, repo, offline.value, inputs.Release()));
              && (unsplit.Success? <==> online.Success?)
              && (unsplit.Success? ==> unsplit.value == Prepared(online.value, true))
  {
    hide CompleteGeneration, BuildTargets, ValidateStagedTargets, OnlineTransition, PemSigners, PinsOf;
    var s := SignTargets(w, repo, now, inputs);
    if VerifyCurrentState(w, repo, now).Success? {
      assert s == SignTargets(w, repo, early, inputs);
      if s.Success? {
        HalvesMeet(w, repo, now, inputs.online, inputs.Release(), s.value);
      }
    }
  }
}
