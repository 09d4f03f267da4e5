/** What later runs may rely on: repeated ceremonies, the successor-state verifier and the generation check. */
module Successor {
  import opened Wrappers
  import opened Tuf
  import opened CurrentState
  import opened Custody
  import opened Builders
  import opened Ceremony
  import opened History
  import Directory

  /**
   On an authorised target the ceremony succeeds, without any key, exactly when the gates pass,
   the state is accepted, the record is the exact one, and Snapshot's reference also binds the
   re-serialized Targets: files in the ceremony's own layout always qualify, other layouts
   fail closed unless the digests collide. Nothing is ever marked for publication.
   */
  lemma AuthorisedTargetIff(w: World, builder: Builder, repo: Repo, now: Time, inputs: Inputs)
    requires Coherent(w, repo) && inputs.Release().Path() in ChainOf(repo).targets.signed.targets
    ensures var r := Prepare(w, builder, repo, now, inputs);
            var c := ChainOf(repo);
            && (r.Success? <==> && GatesOpen(w, repo, inputs)
                                && now < AuthorityExpiry(c)
                                && Records(c.targets.signed.targets[inputs.Release().Path()], inputs.Release())
                                && Binds(w, c.snapshot.signed.meta[TargetsJson], Serialize(TargetsFile(c.targets))))
            && (r.Success? ==> r.value == Prepared(repo.(targets := Serialize(TargetsFile(c.targets))), false))
            && (GatesOpen(w, repo, inputs) && now < AuthorityExpiry(c) && r.Failure? ==>
                  r.error == if Records(c.targets.signed.targets[inputs.Release().Path()], inputs.Release())
                             then MetadataBindingFailure else TargetAlreadyExistsDifferent)
  {
  }

  /**
   Repeating an applied ceremony with the same inputs, at any time before the authority expiry
   and with either engine, confirms the target and would write back byte-identical files.
   */
  lemma RerunConfirms(
    w: World, builder: Builder, repo: Repo, now: Time, inputs: Inputs, p: Prepared, again: Builder, t: Time)
    requires Prepare(w, builder, repo, now, inputs) == Success(p) && p.changed
    requires t < AuthorityExpiry(ChainOf(repo))
    ensures Prepare(w, again, p.after, t, inputs) == Success(Prepared(p.after, false))
  {
    hide CompleteGeneration, BuildTargets, TargetsFollow, PemSigners, NextSnapshot, NextTimestamp;
    hide AllSigned, VersionsLinked;
    PreparedIsNext(w, builder, repo, now, inputs, p);
    GatesPassed(w, builder, repo, now, inputs);
    assert Records(ChainOf(p.after).targets.signed.targets[inputs.Release().Path()], inputs.Release());
    AuthorisedTargetIff(w, again, p.after, t, inputs);
  }

  lemma GatesPassed(w: World, builder: Builder, repo: Repo, now: Time, inputs: Inputs)
    requires Prepare(w, builder, repo, now, inputs).Success?
    ensures GatesOpen(w, repo, inputs)
  {
  }

  /** A record that differs is refused, whoever holds the keys. */
  lemma ConflictRefused(w: World, builder: Builder, repo: Repo, now: Time, inputs: Inputs)
    requires Coherent(w, repo) && inputs.Release().Path() in ChainOf(repo).targets.signed.targets
    requires !Records(ChainOf(repo).targets.signed.targets[inputs.Release().Path()], inputs.Release())
    ensures Prepare(w, builder, repo, now, inputs).Failure?
  {
  }

  /** Once authorised, a record is never re-authorised differently: not after any run, by any engine, at any time. */
  lemma ConflictRefusedForever(
    w: World, repo: Repo, events: seq<Event>, builder: Builder, t: Time, inputs: Inputs)
    requires Coherent(w, repo) && inputs.Release().Path() in ChainOf(repo).targets.signed.targets
    requires !Records(ChainOf(repo).targets.signed.targets[inputs.Release().Path()], inputs.Release())
    ensures Prepare(w, builder, Run(Scripts(w), repo, events), t, inputs).Failure?
  {
    hide Run, Scripts, Prepare;
    ScriptsAreProper(w);
    RunsStaySafe(w, Scripts(w), repo, events);
    var last := Run(Scripts(w), repo, events);
    if Coherent(w, last) {
      ConflictRefused(w, builder, last, t, inputs);
    } else {
      TornBlocksAll(w, builder, last, t, inputs);
    }
  }

  lemma TornBlocksAll(w: World, builder: Builder, repo: Repo, t: Time, inputs: Inputs)
    requires Torn(repo)
    ensures Prepare(w, builder, repo, t, inputs).Failure?
  {
  }

  datatype RootPins = RootPins(digest: Digest, snapshotKeyid: KeyId, timestampKeyid: KeyId)

  datatype SuccessorError =
    | RootNotAccepted
    | ThresholdFailed
    | RootVersionDrift
    | Regressed
    | SnapshotAuthorityDrift
    | TimestampAuthorityDrift
    | NotVerified(code: Code)

  /** The report's freshness: which online roles have expired. */
  datatype Freshness = Freshness(expiredOnlineRoles: seq<RoleName>) {
    predicate Ready() {
      expiredOnlineRoles == []
    }
  }

  predicate AboveFloors(c: Chain) {
    c.targets.signed.version >= 2 && c.snapshot.signed.version >= 4 && c.timestamp.signed.version >= 4
  }

  /** `_verify_current_successor_state`; signature, binding and expiry errors keep the ceremony's codes. */
  function VerifySuccessorState(w: World, repo: Repo, now: Time, pins: RootPins): (r: Result<Freshness, SuccessorError>)
    // It accepts exactly the states the ceremony accepts whose Root is the pinned one and whose
    // versions have not regressed.
    ensures r.Success? <==> && VerifyCurrentState(w, repo, now).Success?
                            && var c := ChainOf(repo);
                            && w.sha256(repo.root) == pins.digest
                            && c.root.signed.version == 2
                            && c.root.signed.roles.snapshot.keyids == [pins.snapshotKeyid]
                            && c.root.signed.roles.timestamp.keyids == [pins.timestampKeyid]
                            && c.targets.signed.version >= 2
                            && c.snapshot.signed.version >= 4 && c.timestamp.signed.version >= 4
    // It names exactly the online roles that have expired, Snapshot first.
    ensures r.Success? ==>
              && (SnapshotRole in r.value.expiredOnlineRoles <==> now >= ChainOf(repo).snapshot.signed.expires)
              && (TimestampRole in r.value.expiredOnlineRoles <==> now >= ChainOf(repo).timestamp.signed.expires)
              && (r.value.expiredOnlineRoles == [] || r.value.expiredOnlineRoles == [SnapshotRole]
                  || r.value.expiredOnlineRoles == [TimestampRole]
                  || r.value.expiredOnlineRoles == [SnapshotRole, TimestampRole])
  {
    var rootDigest := w.sha256(repo.root);
    :- Need(rootDigest == pins.digest, RootNotAccepted);
    var c :- Coded(ReadChain(repo));
    var root := c.root.signed;
    :- Need(AllSigned(w, c), ThresholdFailed);
    :- Need(root.version == 2, RootVersionDrift);
    :- Need(AboveFloors(c), Regressed);
    :- Need(root.roles.snapshot.keyids == [pins.snapshotKeyid], SnapshotAuthorityDrift);
    :- Need(root.roles.timestamp.keyids == [pins.timestampKeyid], TimestampAuthorityDrift);
    var meta := c.snapshot.signed.meta;
    :- Need(TargetsJson in meta && meta[TargetsJson].version == c.targets.signed.version,
            NotVerified(SnapshotTargetsVersionMismatch));
    :- Need(Binds(w, meta[TargetsJson], repo.targets), NotVerified(MetadataBindingFailure));
    :- Need(c.timestamp.signed.snapshotMeta.version == c.snapshot.signed.version,
            NotVerified(TimestampSnapshotVersionMismatch));
    :- Need(Binds(w, c.timestamp.signed.snapshotMeta, repo.snapshot), NotVerified(MetadataBindingFailure));
    :- Need(!Expired(root.expires, now), NotVerified(RootExpired));
    :- Need(!Expired(c.targets.signed.expires, now), NotVerified(TargetsExpired));
    Success(Freshness(
              (if Expired(c.snapshot.signed.expires, now) then [SnapshotRole] else [])
              + (if Expired(c.timestamp.signed.expires, now) then [TimestampRole] else [])))
  }

  function Coded(r: Result<Chain, Code>): Result<Chain, SuccessorError> {
    match r
    case Success(c) => Success(c)
    case Failure(code) => Failure(NotVerified(code))
  }

  /** Along any run, a successor state stays one: its pins and floors hold again wherever the run is coherent. */
  lemma SuccessorStatePersists(
    w: World, plan: Plan, repo: Repo, events: seq<Event>, pins: RootPins, start: Time, t: Time)
    requires Proper(w, plan) && VerifySuccessorState(w, repo, start, pins).Success?
    requires Coherent(w, Run(plan, repo, events)) && t < AuthorityExpiry(ChainOf(repo))
    ensures VerifySuccessorState(w, Run(plan, repo, events), t, pins).Success?
  {
    hide Run, VerifySuccessorState, Torn, AllSigned, VersionsLinked, Binds, Interrupted;
    RunsStaySafe(w, plan, repo, events);
  }

  /**
   Right after a generation built at `now` is live, its status is ready until exactly 48 hours later;
   for the next 24 hours Timestamp alone has expired, after that Snapshot too.
   */
  lemma ReadyForTwoDays(w: World, builder: Builder, before: Repo, after: Repo, now: Time, pins: RootPins, t: Time)
    requires NextPair(w, builder, before, after, now)
    requires VerifySuccessorState(w, after, t, pins).Success?
    ensures var roles := VerifySuccessorState(w, after, t, pins).value.expiredOnlineRoles;
            roles == if t < now + TIMESTAMP_EXPIRY then []
                     else if t < now + SNAPSHOT_EXPIRY then [TimestampRole]
                     else [SnapshotRole, TimestampRole]
    ensures VerifySuccessorState(w, after, t, pins).value.Ready() <==> t < now + TIMESTAMP_EXPIRY
  {
  }

  /** `_generation_matches_or_advances`. */
  function GenerationMatchesOrAdvances(
    w: World, currentVersion: Version, current: Bytes, historicalVersion: Version, historicalDigest: Digest): bool
  {
    if currentVersion < historicalVersion then false
    else if currentVersion == historicalVersion then w.sha256(current) == historicalDigest
    else true
  }

  /**
   Where the digest does not collide, the check holds exactly when the current file is the historical one or a newer
   version.
   */
  lemma MatchesIffAdvances(w: World, version: Version, data: Bytes, laterVersion: Version, laterData: Bytes)
    requires w.sha256(data) == w.sha256(laterData) ==> data == laterData
    ensures GenerationMatchesOrAdvances(w, laterVersion, laterData, version, w.sha256(data))
       <==> RoleAdvances(version, data, laterVersion, laterData)
  {
  }

  function Versions(c: Chain): map<RoleName, Version> {
    map[RootRole := c.root.signed.version, TargetsRole := c.targets.signed.version,
        SnapshotRole := c.snapshot.signed.version, TimestampRole := c.timestamp.signed.version]
  }

  /**
   Against the recorded digests of any earlier state of a run, every role of every later state
   matches or advances, torn states included.
   */
  lemma RunsMatchOrAdvance(w: World, plan: Plan, repo: Repo, events: seq<Event>, role: RoleName)
    requires Proper(w, plan) && Coherent(w, repo)
    ensures var last := Run(plan, repo, events);
            && ReadChain(last).Success?
            && GenerationMatchesOrAdvances(
                 w, Versions(ChainOf(last))[role], Directory.FileOf(last, role),
                 Versions(ChainOf(repo))[role], w.sha256(Directory.FileOf(repo, role)))
  {
    hide Run, Torn, AllSigned, VersionsLinked, Binds, Interrupted;
    RunsStaySafe(w, plan, repo, events);
  }
}
