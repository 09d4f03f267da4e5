/**
 `main` of the ceremony, step by step, on a directory of files. The hardened script runs the same
 `main` with two operations swapped, the pair builder and the apply: the engine selects them.
 */
module Engine {
  import opened Wrappers
  import opened Tuf
  import opened CurrentState
  import opened Custody
  import opened Builders
  import opened Ceremony
  import opened Directory
  import opened Refresh
  import opened History

  /** Up to and including the signed Targets. */
  method SignNewTargets(w: World, repo: Repo, now: Time, inputs: Inputs) returns (r: Result<SignedTargets, Code>)
    ensures r == SignTargets(w, repo, now, inputs)
  {
    if inputs.source.Fail? {
      return Failure(inputs.source.error);
    }
    var c :- VerifyCurrentState(w, repo, now);
    if !RootPinned(w, repo, inputs) {
      return Failure(RootDrift);
    }
    var identity := AssetIdentity(inputs);
    if identity.Fail? {
      return Failure(identity.error);
    }
    var release := inputs.Release();
    var signers: seq<Signer> := [];
    if release.Path() !in c.targets.signed.targets {
      if !inputs.passphraseGiven {
        return Failure(EmptyCustodyPassphrase);
      }
      signers :- DiscoverPemSigners(inputs.custody, c.root.signed, TargetsRole);
    }
    var build :- AuthorizeTarget(w, c.targets, c.root.signed, signers, release);
    return Success(SignedTargets(c, build));
  }

  /** The rest of the preparation: the online pair, if Targets changed, and the final verification. */
  method Complete(
    w: World, engine: Builder, repo: Repo, now: Time, online: Result<OnlineSigners, Code>, s: SignedTargets)
    returns (r: Result<Prepared, Code>)
    ensures r == CompleteGeneration(w, engine, repo, now, online, s)
  {
    var c := s.chain;
    var targets :- ParseTargets(s.build.data);
    var pair := OnlinePair(repo.snapshot, repo.timestamp);
    if s.build.changed {
      var signers :- ResolveOnlineSigners(online, c.root.signed);
      match engine {
        case Base =>
          pair :- BuildOnlinePair(
            w, Base, c.root.signed, c.snapshot.signed, c.timestamp.signed,
            s.build.data, targets.signed, signers.snapshot, signers.timestamp, now);
        case Hardened =>
          pair :- BuildOnlinePairPreservingSnapshotMeta(
            w, c.root.signed, c.snapshot.signed, c.timestamp.signed,
            s.build.data, targets.signed, signers.snapshot, signers.timestamp, now);
      }
    }
    var after := Repo(repo.root, s.build.data, pair.snapshot, pair.timestamp);
    var checked := FinalCheck(w, c.root.signed, after);
    if checked.Fail? {
      return Failure(checked.error);
    }
    return Success(Prepared(after, s.build.changed));
  }

  datatype CeremonyResult =
    | TargetsStaged(targets: Bytes)
    | GenerationStaged(after: Repo, changed: bool)
    | Blocked(code: Code)

  /**
   How a ceremony ends up to and including staging: an error, or what is staged if it carries no private-material
   marker.
   */
  function Staged(w: World, engine: Builder, repo: Repo, now: Time, inputs: Inputs, mode: Mode): CeremonyResult {
    if mode == OfflineTargetsOnly then
      match PrepareOffline(w, repo, now, inputs)
      case Failure(code) => Blocked(code)
      case Success(data) => if w.marked(data) then Blocked(PrivateMaterialOutput) else TargetsStaged(data)
    else
      match Prepare(w, engine, repo, now, inputs)
      case Failure(code) => Blocked(code)
      case Success(p) =>
        if w.marked(p.after.targets) || w.marked(p.after.snapshot) || w.marked(p.after.timestamp)
        then Blocked(PrivateMaterialOutput)
        else GenerationStaged(p.after, p.changed)
  }

  /** Everything before the apply. */
  method Stage(w: World, engine: Builder, repo: Repo, now: Time, inputs: Inputs, mode: Mode) returns (r: CeremonyResult)
    ensures r == Staged(w, engine, repo, now, inputs, mode)
    ensures ToApply(w, engine, repo, now, inputs, mode)
         == if mode == Apply && r.GenerationStaged? && r.changed then Some(r.after) else None
    ensures r.GenerationStaged? ==> r.after.root == repo.root
    // What is staged carries no private-material marker; offline only Targets is staged, otherwise all three files.
    ensures r.TargetsStaged? ==> mode == OfflineTargetsOnly && !w.marked(r.targets)
    ensures r.GenerationStaged? ==>
              && mode != OfflineTargetsOnly
              && !w.marked(r.after.targets) && !w.marked(r.after.snapshot) && !w.marked(r.after.timestamp)
    ensures mode == OfflineTargetsOnly && PrepareOffline(w, repo, now, inputs).Success? ==>
              (r == Blocked(PrivateMaterialOutput) <==> w.marked(PrepareOffline(w, repo, now, inputs).value))
  {
    hide SignTargets, CompleteGeneration;
    var signed := SignNewTargets(w, repo, now, inputs);
    if signed.Failure? {
      return Blocked(signed.error);
    }
    var s := signed.value;
    if mode == OfflineTargetsOnly {
      var targets := ParseTargets(s.build.data);
      if targets.Failure? {
        return Blocked(targets.error);
      }
      var t := targets.value;
      if !VerifyDelegate(w, s.chain.root.signed, TargetsRole, TargetsPayload(t.signed), t.signatures) {
        return Blocked(SignatureThresholdFailure(TargetsRole));
      }
      return if w.marked(s.build.data) then Blocked(PrivateMaterialOutput) else TargetsStaged(s.build.data);
    }
    var completed := Complete(w, engine, repo, now, inputs.online, s);
    if completed.Failure? {
      return Blocked(completed.error);
    }
    var p := completed.value;
    return if Marked(w, p.after) then Blocked(PrivateMaterialOutput) else GenerationStaged(p.after, p.changed);
  }

  function ReportOf(engine: Builder, faults: Faults): ApplyResult {
    if engine == Base then AtomicReport(faults) else FullReport(faults)
  }

  /** How the whole ceremony ends: as staged, unless an apply reports an error. */
  function Ended(staged: CeremonyResult, engine: Builder, mode: Mode, faults: Faults): CeremonyResult {
    if mode == Apply && staged.GenerationStaged? && staged.changed && ReportOf(engine, faults).Raised?
    then Blocked(ReportOf(engine, faults).code)
    else staged
  }

  /** The apply that the engine selects. */
  method ApplyWith(dir: MetadataDirectory, engine: Builder, staged: Repo, faults: Faults) returns (r: ApplyResult)
    requires dir.Complete() && staged.root == dir.Current().root
    modifies dir
    ensures r == ReportOf(engine, faults)
    ensures dir.Complete()
    ensures dir.Current() == Mixed(old(dir.Current()), staged, LastingOf(engine, faults))
    ensures r.Returned? ==> dir.Current() == staged
    ensures forall p :: Same(old(dir.files), dir.files, Other(p))
  {
    hide Lands, LandsUnguarded, AtomicReport, FullReport, AtomicFiles, ApplyFiles;
    assert TargetsRole in NAMES && SnapshotRole in NAMES && TimestampRole in NAMES;
    match engine {
      case Base =>
        r := dir.AtomicApply(staged, faults);
      case Hardened =>
        r := dir.TransactionalApply(staged, faults);
        assert forall role | role in NAMES :: Live(role) in old(dir.files);
        ReturnedMeansNew(faults);
    }
  }

  /**
   The whole ceremony, of either engine. The live files afterwards are those of one step of the
   history. A normal end of an applying ceremony leaves exactly the staged generation live;
   unrelated files, and in any other mode all files, stay as they were.
   */
  method RunCeremony(
    dir: MetadataDirectory, w: World, engine: Builder, now: Time, inputs: Inputs, mode: Mode, faults: Faults)
    returns (r: CeremonyResult)
    modifies dir
    ensures r == if old(dir.Complete())
                 then Ended(Staged(w, engine, old(dir.Current()), now, inputs, mode), engine, mode, faults)
                 else Blocked(MissingMetadata)
    ensures old(dir.Complete()) ==>
              && dir.Complete()
              && dir.Current() == Step(Scripts(w), old(dir.Current()), Event.Release(engine, now, inputs, mode, faults))
    ensures old(dir.Complete()) && r.GenerationStaged? && r.changed && mode == Apply ==>
              dir.Complete() && dir.Current() == r.after
    ensures mode != Apply || !old(dir.Complete()) ==> dir.files == old(dir.files)
    ensures forall p :: Same(old(dir.files), dir.files, Other(p))
  {
    hide ToApply, Lands, LandsUnguarded, Staged, AtomicReport, FullReport, AtomicFiles, ApplyFiles;
    if !dir.Complete() {
      return Blocked(MissingMetadata);
    }
    r := Stage(w, engine, dir.Current(), now, inputs, mode);
    if mode == Apply && r.GenerationStaged? && r.changed {
      var applied := ApplyWith(dir, engine, r.after, faults);
      if applied.Raised? {
        r := Blocked(applied.code);
      }
    }
  }

  /** The scheduled refresh on the same directory, again one step of the history. */
  method RunRefresh(dir: MetadataDirectory, w: World, now: Time, online: Result<OnlineSigners, Code>, faults: Faults)
    returns (ok: bool)
    modifies dir
    ensures old(dir.Complete()) ==>
              && dir.Complete()
              && dir.Current() == Step(Scripts(w), old(dir.Current()), Event.Renewal(now, online, faults))
    // It ends normally when nothing is due, or when the pair it builds is in place and cleaned up after.
    ensures ok <==> && old(dir.Complete())
                    && var p := PrepareRefresh(w, old(dir.Current()), now, online);
                    && p.Success? && (p.value.changed ==> PairReport(faults))
    ensures forall p :: Same(old(dir.files), dir.files, Other(p))
  {
    hide PairFiles, PairReport, FirstFailing;
    ok := false;
    if dir.Complete() {
      var p := PrepareRefresh(w, dir.Current(), now, online);
      ok := p.Success?;
      if p.Success? && p.value.changed {
        RefreshIsNextPair(w, dir.Current(), now, online, p.value);
        ok := dir.ReplacePair(p.value.after, faults);
      }
    }
  }
}
