/**
 Concrete repositories and schedules on which the scripts fall short of a promise, in every world
 with a sound signature scheme whose scan for private material finds nothing.
 */
module Witnesses {
  import opened Wrappers
  import opened Tuf
  import opened CurrentState
  import opened Custody
  import opened Builders
  import opened Ceremony
  import opened Directory
  import opened Refresh
  import opened History
  import opened Client

  const AUTHORITY: Time := 1000 * HOUR

  ghost predicate Ordinary(w: World) {
    w.Sound() && forall data :: !w.marked(data)
  }

  /** Each key stands for itself. */
  function Own(k: KeyId): Signer {
    Signer(k, k)
  }

  /** Four roles with one key each. */
  function SampleRoot(): Root {
    Root(1, AUTHORITY, "1.0", map["r" := "r", "t" := "t", "s" := "s", "m" := "m"],
         Roles(Solo("r"), Solo("t"), Solo("s"), Solo("m")), map[])
  }

  function SampleTargets(): Targets {
    Targets(1, AUTHORITY, "1.0", map[], map[])
  }

  function SampleSnapshot(w: World, listed: map<MetaName, MetaFile>, targetsData: Bytes): Snapshot {
    Snapshot(1, SNAPSHOT_EXPIRY, "1.0", listed[TargetsJson := ExactReference(w, targetsData, 1)], map[])
  }

  function SampleTimestamp(w: World, snapshotData: Bytes): Timestamp {
    Timestamp(1, TIMESTAMP_EXPIRY, "1.0", ExactReference(w, snapshotData, 1), map[])
  }

  /** A first generation without targets, whose Snapshot also lists the given files. */
  function SampleRepo(w: World, listed: map<MetaName, MetaFile>): Repo {
    var targetsData := NewSigned(w, TargetsPayload(SampleTargets()), [Own("t")]);
    var snapshotData := NewSigned(w, SnapshotPayload(SampleSnapshot(w, listed, targetsData)), [Own("s")]);
    Repo(NewSigned(w, RootPayload(SampleRoot()), [Own("r")]), targetsData, snapshotData,
         NewSigned(w, TimestampPayload(SampleTimestamp(w, snapshotData)), [Own("m")]))
  }

  lemma SampleRoles()
    ensures SoleSigner(SampleRoot(), RootRole, Own("r")) && SoleSigner(SampleRoot(), TargetsRole, Own("t"))
    ensures SoleSigner(SampleRoot(), SnapshotRole, Own("s")) && SoleSigner(SampleRoot(), TimestampRole, Own("m"))
  {
  }

  lemma SampleCoherent(w: World, listed: map<MetaName, MetaFile>)
    requires w.Sound()
    ensures var repo := SampleRepo(w, listed);
            && Coherent(w, repo)
            && ChainOf(repo).root.signed == SampleRoot() && ChainOf(repo).targets.signed == SampleTargets()
            && ChainOf(repo).snapshot.signed == SampleSnapshot(w, listed, repo.targets)
            && ChainOf(repo).timestamp.signed == SampleTimestamp(w, repo.snapshot)
  {
    var repo := SampleRepo(w, listed);
    SampleRoles();
    SingleSignerVerifiesIff(w, SampleRoot(), RootRole, RootPayload(SampleRoot()), Own("r"));
    SingleSignerVerifiesIff(w, SampleRoot(), TargetsRole, TargetsPayload(SampleTargets()), Own("t"));
    SingleSignerVerifiesIff(
      w, SampleRoot(), SnapshotRole, SnapshotPayload(SampleSnapshot(w, listed, repo.targets)), Own("s"));
    SingleSignerVerifiesIff(
      w, SampleRoot(), TimestampRole, TimestampPayload(SampleTimestamp(w, repo.snapshot)), Own("m"));
    ExactBinds(w, repo.targets, 1);
    ExactBinds(w, repo.snapshot, 1);
    hide SampleRoot, VerifyDelegate, Binds, SignAll, ExactReference, SoleSigner;
  }

  function SampleOnline(): Result<OnlineSigners, Code> {
    Success(OnlineSigners(Own("s"), Own("m")))
  }

  function SampleInputs(): Inputs {
    Inputs(
      Pass, None, Some(Asset(1, "digest")), None, None,
      Builders.Release.Release(
        "1.1.1", "source", "setup.exe", 0, "", "stable", "windows", "url", "notes", RequireValid),
      true, Files([Unlocked(Own("t"))]), SampleOnline())
  }

  lemma SampleCustody()
    ensures TargetsKeysReady(SampleInputs().custody, SampleRoot())
  {
    var authorized, paths := Authorized(SampleRoot(), TargetsRole), [Unlocked(Own("t"))];
    assert paths[..0] == [] && Found(authorized, []) == [];
    assert "t" in SampleRoot().roles.targets.keyids;
    assert Found(authorized, paths) == [Own("t")];
    assert UnlockedIds(authorized, paths) == {"t"};
  }

  /** Either engine prepares the sample release on the sample generation. */
  lemma SamplePrepares(w: World, builder: Builder, listed: map<MetaName, MetaFile>)
    requires w.Sound()
    ensures var r := Prepare(w, builder, SampleRepo(w, listed), 0, SampleInputs());
            r.Success? && NextGeneration(w, builder, SampleRepo(w, listed), r.value.after, SampleInputs().Release(), 0)
                       && r.value.changed
  {
    var repo := SampleRepo(w, listed);
    SampleCoherent(w, listed);
    SampleCustody();
    SampleRoles();
    hide SampleRepo, Prepare, Coherent, TargetsKeysReady, SoleSigner, NextGeneration;
    PreparesIff(w, builder, repo, 0, SampleInputs());
    var r := Prepare(w, builder, repo, 0, SampleInputs());
    if !r.value.changed {
      UnchangedIsCurrent(w, builder, repo, 0, SampleInputs(), r.value);
    }
    PreparedIsNext(w, builder, repo, 0, SampleInputs(), r.value);
  }

  /** A publication is torn exactly when its event is not all or nothing. */
  lemma PublicationTearsIff(w: World, repo: Repo, e: Event)
    requires Coherent(w, repo) && Publishes(w, repo, e).Some?
    ensures Torn(Step(Scripts(w), repo, e)) <==> !AllOrNothing(e)
  {
    hide Coherent, Torn, AllOrNothing;
    ScriptsAreProper(w);
    StepKeeps(w, Scripts(w), repo, e);
  }

  const SECOND_FAILS := Faults(r => Written, r => Written, r => r == SnapshotRole, r => false, f => false)

  lemma SamplePublishes(w: World, faults: Faults)
    requires Ordinary(w)
    ensures Publishes(w, SampleRepo(w, map[]), Event.Release(Base, 0, SampleInputs(), Apply, faults)).Some?
  {
    SamplePrepares(w, Base, map[]);
    hide SampleRepo, Prepare, SampleInputs, NextGeneration;
  }

  /** A base ceremony on an accepted state that leaves it torn: Targets is new, Snapshot could not be replaced. */
  lemma BaseCanTear(w: World)
    requires Ordinary(w)
    ensures var repo := SampleRepo(w, map[]);
            var e := Event.Release(Base, 0, SampleInputs(), Apply, SECOND_FAILS);
            VerifyCurrentState(w, repo, 0).Success? && Torn(Step(Scripts(w), repo, e))
  {
    var repo := SampleRepo(w, map[]);
    var e := Event.Release(Base, 0, SampleInputs(), Apply, SECOND_FAILS);
    SampleCoherent(w, map[]);
    hide SampleRepo, SampleInputs, Coherent, Torn, Publishes, AllOrNothing, Step;
    SamplePublishes(w, SECOND_FAILS);
    PublicationTearsIff(w, repo, e);
    BaseAllOrNothingIff(e);
  }

  const THIRD_FAILS := Faults(r => Written, r => Written, r => r == TimestampRole, r => false, f => false)

  lemma SampleRefreshes(w: World, faults: Faults)
    requires w.Sound()
    ensures Publishes(w, SampleRepo(w, map[]), Renewal(24 * HOUR, SampleOnline(), faults)).Some?
  {
    var repo := SampleRepo(w, map[]);
    SampleCoherent(w, map[]);
    SampleRoles();
    hide SampleRepo, Coherent, SoleSigner;
    RefreshSucceedsIff(w, repo, 24 * HOUR, SampleOnline());
  }

  /** A scheduled refresh that does the same: Snapshot is new, Timestamp could not be replaced. */
  lemma RefreshCanTear(w: World)
    requires w.Sound()
    ensures var repo := SampleRepo(w, map[]);
            var e := Renewal(24 * HOUR, SampleOnline(), THIRD_FAILS);
            VerifyCurrentState(w, repo, 24 * HOUR).Success? && Torn(Step(Scripts(w), repo, e))
  {
    var repo := SampleRepo(w, map[]);
    var e := Renewal(24 * HOUR, SampleOnline(), THIRD_FAILS);
    SampleCoherent(w, map[]);
    hide SampleRepo, Coherent, Torn, Publishes, AllOrNothing, Step;
    SampleRefreshes(w, THIRD_FAILS);
    PublicationTearsIff(w, repo, e);
    RenewalAllOrNothingIff(e);
  }

  /** What a client of the state just before makes of a new generation at once. */
  lemma NextIsTakenUpIff(w: World, builder: Builder, before: Repo, after: Repo, now: Time)
    requires NextPair(w, builder, before, after, now)
    ensures Update(w, TrustedOf(ChainOf(before)), after, now).Success?
       <==> builder == Hardened || ListsTargetsAlone(before)
  {
    assert Advances(before, before);
    hide Update, Advances, KeepsListed;
    KeepsListedIff(w, builder, before, after, now);
    AcceptsIff(w, builder, before, before, after, now, now);
  }

  const DELEGATED: map<MetaName, MetaFile> := map[OtherMeta("delegated.json") := MetaFile(1, None, None, map[])]

  /**
   On one state and release, the base ceremony publishes what a client of that state refuses, the hardened
   one what it accepts.
   */
  lemma BaseCanDropListing(w: World)
    requires w.Sound()
    ensures var repo := SampleRepo(w, DELEGATED);
            var base := Prepare(w, Base, repo, 0, SampleInputs());
            var hard := Prepare(w, Hardened, repo, 0, SampleInputs());
            && ReadChain(repo).Success? && base.Success? && hard.Success?
            && Update(w, TrustedOf(ChainOf(repo)), base.value.after, 0).Failure?
            && Update(w, TrustedOf(ChainOf(repo)), hard.value.after, 0).Success?
  {
    var repo := SampleRepo(w, DELEGATED);
    SampleCoherent(w, DELEGATED);
    assert !ListsTargetsAlone(repo) by {
      assert OtherMeta("delegated.json") in ChainOf(repo).snapshot.signed.meta;
    }
    hide SampleRepo, Prepare, Coherent, Update, SampleInputs, NextPair, ListsTargetsAlone;
    SamplePrepares(w, Base, DELEGATED);
    SamplePrepares(w, Hardened, DELEGATED);
    NextIsTakenUpIff(w, Base, repo, Prepare(w, Base, repo, 0, SampleInputs()).value.after, 0);
    NextIsTakenUpIff(w, Hardened, repo, Prepare(w, Hardened, repo, 0, SampleInputs()).value.after, 0);
  }
}
