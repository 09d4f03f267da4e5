/**
 Whole runs: ceremonies of either engine and scheduled refreshes, in any order, with any
 failures, on one metadata directory.
 */
module History {
  import opened Wrappers
  import opened Tuf
  import opened CurrentState
  import opened Builders
  import opened Ceremony
  import opened Directory
  import opened Refresh

  datatype Mode = OfflineTargetsOnly | StageOnly | Apply

  datatype Event =
    | Release(engine: Builder, now: Time, inputs: Inputs, mode: Mode, faults: Faults)
    | Renewal(now: Time, online: Result<OnlineSigners, Code>, faults: Faults)

  /** `_safe_stage` refuses output that carries a private-material marker. */
  predicate Marked(w: World, staged: Repo) {
    w.marked(staged.targets) || w.marked(staged.snapshot) || w.marked(staged.timestamp)
  }

  /** The generation a ceremony goes on to apply, if it gets that far. */
  function ToApply(w: World, engine: Builder, repo: Repo, now: Time, inputs: Inputs, mode: Mode): Option<Repo> {
    var p := Prepare(w, engine, repo, now, inputs);
    if mode == Apply && p.Success? && p.value.changed && !Marked(w, p.value.after) then Some(p.value.after) else None
  }

  /** What an event would publish, if it gets as far as replacing live files. */
  function Publishes(w: World, repo: Repo, e: Event): Option<Repo> {
    match e
    case Release(engine, now, inputs, mode, _) => ToApply(w, engine, repo, now, inputs, mode)
    case Renewal(now, online, _) =>
      var p := PrepareRefresh(w, repo, now, online);
      if p.Success? && p.value.changed then Some(p.value.after) else None
  }

  function EngineOf(e: Event): Builder {
    if e.Release? then e.engine else Base
  }

  /** Which files of a published generation each engine's apply leaves live. */
  function LastingOf(engine: Builder, faults: Faults): Mix {
    match engine
    case Base =>
      Mix(LandsUnguarded(faults, TargetsRole), LandsUnguarded(faults, SnapshotRole),
          LandsUnguarded(faults, TimestampRole))
    case Hardened =>
      Mix(Lands(faults, TargetsRole), Lands(faults, SnapshotRole), Lands(faults, TimestampRole))
  }

  /** Which files of a published generation end up live. */
  function Lasting(e: Event): Mix {
    match e
    case Release(engine, _, _, _, faults) => LastingOf(engine, faults)
    case Renewal(_, _, faults) => Mix(false, PairLands(faults, SnapshotRole), PairLands(faults, TimestampRole))
  }

  /** What each event publishes in each state. */
  type Plan = (Repo, Event) -> Option<Repo>

  /** A plan that only ever publishes next generations. */
  ghost predicate Proper(w: World, plan: Plan) {
    forall repo, e :: plan(repo, e).Some? ==> ProperChange(w, repo, e, plan(repo, e).value)
  }

  ghost predicate ProperChange(w: World, repo: Repo, e: Event, after: Repo) {
    && NextPair(w, EngineOf(e), repo, after, e.now)
    && (e.Release? ==> ChainOf(after).targets.signed.version == ChainOf(repo).targets.signed.version + 1)
    && (e.Renewal? ==> after.targets == repo.targets)
  }

  /** The plan that the scripts follow. */
  function Scripts(w: World): Plan {
    (repo, e) => Publishes(w, repo, e)
  }

  /** One event: the live files afterwards. */
  function Step(plan: Plan, repo: Repo, e: Event): Repo {
    match plan(repo, e)
    case None => repo
    case Some(after) => Mixed(repo, after, Lasting(e))
  }

  function Run(plan: Plan, repo: Repo, events: seq<Event>): Repo
    decreases |events|
  {
    if events == [] then repo else Run(plan, Step(plan, repo, events[0]), events[1..])
  }

  /** All or nothing of the files the event replaces stays in place. */
  predicate AllOrNothing(e: Event) {
    var m := Lasting(e);
    m.snapshot == m.timestamp && (e.Release? ==> m.targets == m.snapshot)
  }

  /** Version numbers never fall, and along a history a version number determines the bytes. */
  predicate RoleAdvances(version: Version, data: Bytes, laterVersion: Version, laterData: Bytes) {
    version <= laterVersion && (version == laterVersion ==> data == laterData)
  }

  ghost predicate Advances(a: Repo, b: Repo) {
    && ReadChain(a).Success? && ReadChain(b).Success?
    && a.root == b.root
    && var c, d := ChainOf(a), ChainOf(b);
    && RoleAdvances(c.targets.signed.version, a.targets, d.targets.signed.version, b.targets)
    && RoleAdvances(c.snapshot.signed.version, a.snapshot, d.snapshot.signed.version, b.snapshot)
    && RoleAdvances(c.timestamp.signed.version, a.timestamp, d.timestamp.signed.version, b.timestamp)
    && d.targets.signed.expires == c.targets.signed.expires
    && forall p | p in c.targets.signed.targets ::
         p in d.targets.signed.targets && d.targets.signed.targets[p] == c.targets.signed.targets[p]
  }

  lemma AdvancesTransitive(a: Repo, b: Repo, c: Repo)
    requires Advances(a, b) && Advances(b, c)
    ensures Advances(a, c)
  {
  }

  /**
   Of all ways to mix a generation with its successor, exactly the ones that take Snapshot and
   Timestamp together, and Targets with them whenever Targets changed version, are coherent.
   The others are torn: version numbers alone expose them, whatever the digests.
   */
  lemma MixturesDetected(w: World, builder: Builder, before: Repo, after: Repo, now: Time, m: Mix)
    requires NextPair(w, builder, before, after, now)
    ensures var whole := m.snapshot == m.timestamp
                         && (m.targets == m.snapshot
                             || ChainOf(before).targets.signed.version == ChainOf(after).targets.signed.version);
            && (whole ==> Coherent(w, Mixed(before, after, m)))
            && (!whole ==> Torn(Mixed(before, after, m)))
    ensures Advances(before, Mixed(before, after, m))
  {
  }

  /**
   The eight mixtures of one applied release ceremony: `_verify_current_state` accepts
   all-old and all-new, and nothing else.
   */
  lemma OnlyWholeGenerationsAccepted(
    w: World, builder: Builder, before: Repo, after: Repo, release: Release, now: Time, m: Mix, t: Time)
    requires NextGeneration(w, builder, before, after, release, now)
    requires t < AuthorityExpiry(ChainOf(before))
    ensures VerifyCurrentState(w, Mixed(before, after, m), t).Success? <==> m.targets == m.snapshot == m.timestamp
  {
    MixturesDetected(w, builder, before, after, now, m);
    var mixed := Mixed(before, after, m);
    if Torn(mixed) {
      TornIsRefused(w, mixed, t);
    }
  }

  lemma SameFiles(a: Repo, b: Repo)
    requires forall role :: FileOf(a, role) == FileOf(b, role)
    ensures a == b
  {
    assert FileOf(a, RootRole) == FileOf(b, RootRole) && FileOf(a, TargetsRole) == FileOf(b, TargetsRole);
    assert FileOf(a, SnapshotRole) == FileOf(b, SnapshotRole) && FileOf(a, TimestampRole) == FileOf(b, TimestampRole);
  }

  lemma NoRootInNames()
    ensures forall role :: role != RootRole <==> role in NAMES
  {
  }

  /** An apply leaves exactly the files that land new. */
  lemma EffectFiles(before: Repo, after: Repo, faults: Faults)
    requires before.root == after.root
    ensures forall role ::
              FileOf(ApplyEffect(before, after, faults), role)
              == if Lands(faults, role) then FileOf(after, role) else FileOf(before, role)
    ensures !Lands(faults, RootRole) && FileOf(before, RootRole) == FileOf(after, RootRole)
  {
  }

  /** It leaves a coherent state if the three files land alike, and a torn one if not. */
  lemma EffectIs(
    w: World, builder: Builder, before: Repo, after: Repo, release: Release, now: Time, faults: Faults)
    requires NextGeneration(w, builder, before, after, release, now)
    ensures before.root == after.root
    ensures var live := ApplyEffect(before, after, faults);
            if Lands(faults, TargetsRole) == Lands(faults, SnapshotRole) == Lands(faults, TimestampRole)
            then Coherent(w, live)
            else Torn(live)
  {
    hide Lands, Coherent, Torn;
    var m := Mix(Lands(faults, TargetsRole), Lands(faults, SnapshotRole), Lands(faults, TimestampRole));
    MixturesDetected(w, builder, before, after, now, m);
  }

  /**
   The hardened apply of one release, under every schedule of failures: a normal return leaves the new
   generation, a clean rollback and a failed write leave the old one, both accepted; an incomplete
   rollback leaves exactly the named files new, a state that is refused at every time.
   */
  lemma ApplyOutcomes(
    w: World, builder: Builder, before: Repo, after: Repo, release: Release, now: Time, faults: Faults, t: Time)
    requires NextGeneration(w, builder, before, after, release, now)
    ensures var live := ApplyEffect(before, after, faults);
            match ApplyReport(faults)
            case Returned => live == after && Coherent(w, live)
            case Raised(MetadataApplyRollbackFailed, named) =>
              && (forall role ::
                    FileOf(live, role) == if role in named then FileOf(after, role) else FileOf(before, role))
              && VerifyCurrentState(w, live, t).Failure?
            case Raised(_, _) => live == before && Coherent(w, live)
  {
    hide Lands, ApplyReport, ApplyEffect, Coherent, Torn, FileOf, NextPair, NextGeneration;
    EffectIs(w, builder, before, after, release, now, faults);
    EffectFiles(before, after, faults);
    ReportMeans(faults);
    var live := ApplyEffect(before, after, faults);
    if ApplyReport(faults).Returned? {
      assert forall role :: role == RootRole || role in NAMES by { NoRootInNames(); }
      SameFiles(live, after);
    } else if ApplyReport(faults).code == MetadataApplyRollbackFailed {
      TornIsRefused(w, live, t);
    } else {
      SameFiles(live, before);
    }
  }

  /**
   A hardened release is all or nothing except when, the writes done, a replacement fails and so does the
   rollback of one that had succeeded.
   */
  lemma HardenedAllOrNothingIff(e: Event)
    requires e.Release? && e.engine == Hardened
    ensures AllOrNothing(e)
       <==> !(WritesSucceed(e.faults) && Done(e.faults) < 3
              && exists j | 0 <= j < Done(e.faults) :: e.faults.rollback(NAMES[j]))
    ensures AllOrNothing(e)
       <==> ApplyReport(e.faults).Returned? || ApplyReport(e.faults).code != MetadataApplyRollbackFailed
  {
    ReportMeans(e.faults);
    NotRestoredAre(e.faults, Done(e.faults));
  }

  /** For a base release, it means that the second and third replacements do not fail after a first that succeeded. */
  lemma BaseAllOrNothingIff(e: Event)
    requires e.Release? && e.engine == Base
    ensures AllOrNothing(e)
       <==> Done(e.faults) == 0 || Done(e.faults) == 3 || exists r | r in NAMES :: !e.faults.tmpWrite(r).Written?
  {
  }

  /** For a refresh, that Timestamp's replacement does not fail after Snapshot's has succeeded. */
  lemma RenewalAllOrNothingIff(e: Event)
    requires e.Renewal?
    ensures AllOrNothing(e)
       <==> !PairWritten(e.faults) || e.faults.forward(SnapshotRole) || !e.faults.forward(TimestampRole)
  {
  }

  /** The scripts only ever publish next generations of coherent states. */
  lemma ScriptsAreProper(w: World)
    ensures Proper(w, Scripts(w))
  {
    forall repo, e | Scripts(w)(repo, e).Some?
      ensures ProperChange(w, repo, e, Scripts(w)(repo, e).value)
    {
      match e
      case Release(engine, now, inputs, mode, faults) =>
        PreparedIsNext(w, engine, repo, now, inputs, Prepare(w, engine, repo, now, inputs).value);
      case Renewal(now, online, faults) =>
        RefreshIsNextPair(w, repo, now, online, PrepareRefresh(w, repo, now, online).value);
    }
  }

  /**
   What reaches the live files carries no private-material marker when a ceremony made it, and is refused at
   every time once its Targets or Snapshot is replaced by bytes of another length or SHA-256.
   */
  lemma PublishedIsGuarded(w: World, repo: Repo, e: Event, other: Bytes, t: Time)
    requires w.Sound() && Publishes(w, repo, e).Some?
    ensures var after := Publishes(w, repo, e).value;
            && (e.Release? ==> !w.marked(after.targets) && !w.marked(after.snapshot) && !w.marked(after.timestamp))
            && (w.length(other) != w.length(after.targets) || w.sha256(other) != w.sha256(after.targets) ==>
                  VerifyCurrentState(w, after.(targets := other), t).Failure?)
            && (w.length(other) != w.length(after.snapshot) || w.sha256(other) != w.sha256(after.snapshot) ==>
                  VerifyCurrentState(w, after.(snapshot := other), t).Failure?)
  {
    var after := Publishes(w, repo, e).value;
    ScriptsAreProper(w);
    assert Scripts(w)(repo, e).Some? && ProperChange(w, repo, e, after);
    hide Prepare, PrepareRefresh, NextPair, VerifyCurrentState;
    PairBindsExactly(w, EngineOf(e), repo, after, e.now, other, t);
  }

  /**
   One event from a coherent state leaves a coherent state or a torn one; torn exactly when it
   published a generation and its replacements were left neither complete nor undone.
   */
  lemma StepKeeps(w: World, plan: Plan, repo: Repo, e: Event)
    requires Proper(w, plan) && Coherent(w, repo)
    ensures var next := Step(plan, repo, e);
            && (Coherent(w, next) <==> plan(repo, e).None? || AllOrNothing(e))
            && (Torn(next) <==> plan(repo, e).Some? && !AllOrNothing(e))
            && Advances(repo, next)
  {
    if plan(repo, e).Some? {
      assert ProperChange(w, repo, e, plan(repo, e).value);
      MixturesDetected(w, EngineOf(e), repo, plan(repo, e).value, e.now, Lasting(e));
      if Torn(Step(plan, repo, e)) {
        TornIsRefused(w, Step(plan, repo, e), 0);
      }
    }
  }

  lemma CoherentNotTorn(w: World, repo: Repo)
    requires Coherent(w, repo)
    ensures !Torn(repo)
  {
  }

  /** Nothing publishes over a torn state: it stays as it is until someone restores it. */
  lemma {:induction false} TornForever(w: World, plan: Plan, repo: Repo, events: seq<Event>)
    requires Proper(w, plan) && Torn(repo)
    ensures Run(plan, repo, events) == repo
    decreases |events|
  {
    if events == [] {
    } else {
      TornIsRefused(w, repo, 0);
      assert plan(repo, events[0]).None?;
      TornForever(w, plan, repo, events[1..]);
    }
  }

  /** An event of the run publishes a generation and leaves its replacements neither complete nor undone. */
  predicate Interrupted(plan: Plan, repo: Repo, events: seq<Event>)
    decreases |events|
  {
    events != []
    && ((plan(repo, events[0]).Some? && !AllOrNothing(events[0]))
        || Interrupted(plan, Step(plan, repo, events[0]), events[1..]))
  }

  /** Events that are all or nothing never interrupt a run. */
  lemma {:induction false} WholeEventsDoNotInterrupt(plan: Plan, repo: Repo, events: seq<Event>)
    requires forall e | e in events :: AllOrNothing(e)
    ensures !Interrupted(plan, repo, events)
    decreases |events|
  {
    if events == [] {
    } else {
      WholeEventsDoNotInterrupt(plan, Step(plan, repo, events[0]), events[1..]);
    }
  }

  /**
   Over every finite run from a coherent state, whatever fails: the state is torn if a publication was
   interrupted and coherent if none was; nothing authorised is lost or altered, no version falls, and the
   authority expiry never moves.
   */
  lemma {:induction false} RunsStaySafe(w: World, plan: Plan, repo: Repo, events: seq<Event>)
    requires Proper(w, plan) && Coherent(w, repo)
    ensures var last := Run(plan, repo, events);
            && (Coherent(w, last) <==> !Interrupted(plan, repo, events))
            && (Torn(last) <==> Interrupted(plan, repo, events))
            && Advances(repo, last)
    decreases |events|
  {
    hide Step, Torn, AllOrNothing, AllSigned, VersionsLinked, Binds;
    if events == [] {
      CoherentNotTorn(w, repo);
    } else {
      var next := Step(plan, repo, events[0]);
      StepKeeps(w, plan, repo, events[0]);
      if Coherent(w, next) {
        RunsStaySafe(w, plan, next, events[1..]);
        AdvancesTransitive(repo, next, Run(plan, next, events[1..]));
      } else {
        TornForever(w, plan, next, events[1..]);
      }
    }
  }

  /**
   The scripts, run after run. At every boundary the state is accepted if and only if Root and Targets are
   unexpired and no publication was interrupted, so no success, no refusal and no clean rollback ever blocks
   what comes next; an interrupted publication is refused at every later time.
   */
  lemma EveryBoundaryAccepted(w: World, repo: Repo, events: seq<Event>, start: Time, t: Time)
    requires VerifyCurrentState(w, repo, start).Success?
    ensures var last := Run(Scripts(w), repo, events);
            && (VerifyCurrentState(w, last, t).Success?
                <==> t < AuthorityExpiry(ChainOf(repo)) && !Interrupted(Scripts(w), repo, events))
            && (Torn(last) <==> Interrupted(Scripts(w), repo, events))
  {
    hide Run, Scripts, Interrupted, AllOrNothing, Torn, AllSigned, VersionsLinked, Binds;
    ScriptsAreProper(w);
    RunsStaySafe(w, Scripts(w), repo, events);
  }
}
