/**
 A client that follows the update workflow of The Update Framework specification 1.0,
 sections 5.3.10 and 5.4 to 5.6, and what it makes of the generations that a run publishes.
 */
module Client {
  import opened Wrappers
  import opened Tuf
  import opened CurrentState
  import opened Builders
  import opened Ceremony
  import opened Directory
  import opened History

  datatype Refusal =
    | RootFrozen
    | Malformed
    | BadSignatures(role: RoleName)
    | RolledBack(role: RoleName)
    | Frozen(role: RoleName)
    | BadBinding(role: RoleName)

  /** The metadata a client trusts, under one Root. */
  datatype Trusted = Trusted(root: Root, timestamp: Timestamp, snapshot: Snapshot, targets: Targets)

  function TrustedOf(c: Chain): Trusted {
    Trusted(c.root.signed, c.timestamp.signed, c.snapshot.signed, c.targets.signed)
  }

  /** Section 5.4: None when the repository still offers the trusted version. */
  function UpdateTimestamp(w: World, trusted: Trusted, repo: Repo, start: Time): Result<Option<Timestamp>, Refusal> {
    var read := ParseTimestamp(repo.timestamp);
    :- Need(read.Success?, Malformed);
    var new_ := read.value.signed;
    :- Need(VerifyDelegate(w, trusted.root, TimestampRole, TimestampPayload(new_), read.value.signatures),
            BadSignatures(TimestampRole));
    :- Need(trusted.timestamp.version <= new_.version, RolledBack(TimestampRole));
    if trusted.timestamp.version == new_.version then Success(None)
    else
      var link := trusted.timestamp.snapshotMeta.version <= new_.snapshotMeta.version;
      :- Need(link, RolledBack(SnapshotRole));
      :- Need(start < new_.expires, Frozen(TimestampRole));
      Success(Some(new_))
  }

  /** No file the trusted Snapshot lists may disappear or fall to a lower version. */
  predicate KeepsListed(trusted: Snapshot, next: Snapshot) {
    forall name | name in trusted.meta ::
      name in next.meta && trusted.meta[name].version <= next.meta[name].version
  }

  /** Section 5.5. */
  function UpdateSnapshot(
    w: World, trusted: Trusted, timestamp: Timestamp, repo: Repo, start: Time): Result<Snapshot, Refusal>
  {
    var read := ParseSnapshot(repo.snapshot);
    :- Need(Binds(w, timestamp.snapshotMeta, repo.snapshot), BadBinding(SnapshotRole));
    :- Need(read.Success?, Malformed);
    var new_ := read.value.signed;
    :- Need(VerifyDelegate(w, trusted.root, SnapshotRole, SnapshotPayload(new_), read.value.signatures),
            BadSignatures(SnapshotRole));
    :- Need(new_.version == timestamp.snapshotMeta.version, BadBinding(SnapshotRole));
    :- Need(KeepsListed(trusted.snapshot, new_), RolledBack(TargetsRole));
    :- Need(start < new_.expires, Frozen(SnapshotRole));
    Success(new_)
  }

  /** Section 5.6, for the top-level Targets. */
  function UpdateTargets(
    w: World, trusted: Trusted, snapshot: Snapshot, repo: Repo, start: Time): Result<Targets, Refusal>
  {
    var read := ParseTargets(repo.targets);
    :- Need(TargetsJson in snapshot.meta && Binds(w, snapshot.meta[TargetsJson], repo.targets),
            BadBinding(TargetsRole));
    :- Need(read.Success?, Malformed);
    var new_ := read.value.signed;
    :- Need(VerifyDelegate(w, trusted.root, TargetsRole, TargetsPayload(new_), read.value.signatures),
            BadSignatures(TargetsRole));
    :- Need(new_.version == snapshot.meta[TargetsJson].version, BadBinding(TargetsRole));
    :- Need(start < new_.expires, Frozen(TargetsRole));
    Success(new_)
  }

  /** One update cycle that starts at `start`, under an unchanged Root. */
  function Update(w: World, trusted: Trusted, repo: Repo, start: Time): Result<Trusted, Refusal> {
    var root := trusted.root;
    :- Need(start < root.expires, RootFrozen);
    var timestamp :- UpdateTimestamp(w, trusted, repo, start);
    if timestamp.None? then Success(trusted)
    else
      var snapshot :- UpdateSnapshot(w, trusted, timestamp.value, repo, start);
      var targets :- UpdateTargets(w, trusted, snapshot, repo, start);
      Success(Trusted(root, timestamp.value, snapshot, targets))
  }

  /**
   A cycle takes up something new exactly when Root and the three new files are unexpired, signed, bound and of the
   versions their references name, Timestamp is newer, and neither Snapshot's version nor any listed one falls.
   */
  lemma TakesUpIff(w: World, trusted: Trusted, repo: Repo, start: Time)
    requires ParseTimestamp(repo.timestamp).Success? && ParseSnapshot(repo.snapshot).Success?
    requires ParseTargets(repo.targets).Success?
    ensures var r, root := Update(w, trusted, repo, start), trusted.root;
            var t, s := ParseTimestamp(repo.timestamp).value, ParseSnapshot(repo.snapshot).value;
            var g := ParseTargets(repo.targets).value;
            && (r == Success(Trusted(root, t.signed, s.signed, g.signed))
                && t.signed.version != trusted.timestamp.version
                <==>
                && start < root.expires && start < t.signed.expires
                && start < s.signed.expires && start < g.signed.expires
                && VerifyDelegate(w, root, TimestampRole, TimestampPayload(t.signed), t.signatures)
                && VerifyDelegate(w, root, SnapshotRole, SnapshotPayload(s.signed), s.signatures)
                && VerifyDelegate(w, root, TargetsRole, TargetsPayload(g.signed), g.signatures)
                && Binds(w, t.signed.snapshotMeta, repo.snapshot) && t.signed.snapshotMeta.version == s.signed.version
                && TargetsJson in s.signed.meta && Binds(w, s.signed.meta[TargetsJson], repo.targets)
                && s.signed.meta[TargetsJson].version == g.signed.version
                && trusted.timestamp.version < t.signed.version
                && trusted.timestamp.snapshotMeta.version <= t.signed.snapshotMeta.version
                && (forall name | name in trusted.snapshot.meta ::
                      name in s.signed.meta && trusted.snapshot.meta[name].version <= s.signed.meta[name].version))
  {
  }

  /** Along a history the Snapshot version that Timestamp names never falls. */
  lemma LinkNeverFalls(w: World, a: Repo, b: Repo)
    requires Coherent(w, a) && Coherent(w, b) && Advances(a, b)
    ensures ChainOf(a).timestamp.signed.snapshotMeta.version <= ChainOf(b).timestamp.signed.snapshotMeta.version
  {
  }

  /**
   A client that trusts any earlier state of a history accepts a generation built later on that
   history if and only if Snapshot still lists, at no lower version, every file it listed in the
   client's state, and the update starts before the new Timestamp expires; Timestamp is the first
   of the four files to lapse. It then trusts exactly the new generation.
   */
  lemma AcceptsIff(w: World, builder: Builder, held: Repo, before: Repo, after: Repo, now: Time, start: Time)
    requires Coherent(w, held) && Advances(held, before)
    requires NextPair(w, builder, before, after, now)
    ensures var r := Update(w, TrustedOf(ChainOf(held)), after, start);
            && (r.Success? <==> KeepsListed(ChainOf(held).snapshot.signed, ChainOf(after).snapshot.signed)
                                && start < now + TIMESTAMP_EXPIRY)
            && (r.Success? ==> r.value == TrustedOf(ChainOf(after)))
  {
    var h, c, d := ChainOf(held), ChainOf(before), ChainOf(after);
    assert h.root == c.root == d.root;
    assert h.timestamp.signed.version < d.timestamp.signed.version;
    LinkNeverFalls(w, held, before);
  }

  /**
   What a client takes up, from whatever repository: files that `_verify_current_state` accepts at
   the same moment, with an unexpired Snapshot and Timestamp, a higher Timestamp version and no listed file lost.
   */
  lemma TakesUpOnlyCoherent(w: World, trusted: Trusted, repo: Repo, root: Metadata<Root>, start: Time)
    requires ParseRoot(repo.root) == Success(root) && root.signed == trusted.root
    requires VerifyDelegate(w, root.signed, RootRole, RootPayload(root.signed), root.signatures)
    requires Update(w, trusted, repo, start).Success? && Update(w, trusted, repo, start).value != trusted
    ensures VerifyCurrentState(w, repo, start).Success?
    ensures var new_ := Update(w, trusted, repo, start).value;
            && new_ == TrustedOf(ChainOf(repo))
            && start < new_.timestamp.expires && start < new_.snapshot.expires
            && trusted.timestamp.version < new_.timestamp.version
            && KeepsListed(trusted.snapshot, new_.snapshot)
  {
  }

  /** A torn state never reaches a client, whatever Root it trusts: it refuses the update or keeps what it trusts. */
  lemma TornNeverTakenUp(w: World, trusted: Trusted, repo: Repo, start: Time)
    requires Torn(repo)
    ensures Update(w, trusted, repo, start).Failure? || Update(w, trusted, repo, start).value == trusted
  {
  }

  /** What a single builder does to the listing: the hardened one keeps it, the base one only if it is bare. */
  lemma KeepsListedIff(w: World, builder: Builder, before: Repo, after: Repo, now: Time)
    requires NextPair(w, builder, before, after, now)
    ensures KeepsListed(ChainOf(before).snapshot.signed, ChainOf(after).snapshot.signed)
       <==> builder == Hardened || ChainOf(before).snapshot.signed.meta.Keys == {TargetsJson}
  {
  }

  /** The event publishes a Snapshot that lists targets.json alone. */
  predicate Drops(plan: Plan, repo: Repo, e: Event) {
    plan(repo, e).Some? && EngineOf(e) == Base && Lasting(e).snapshot
  }

  predicate NoneDrops(plan: Plan, repo: Repo, events: seq<Event>)
    decreases |events|
  {
    events == []
    || (!Drops(plan, repo, events[0]) && NoneDrops(plan, Step(plan, repo, events[0]), events[1..]))
  }

  predicate ListsTargetsAlone(repo: Repo)
    requires ReadChain(repo).Success?
  {
    ChainOf(repo).snapshot.signed.meta.Keys == {TargetsJson}
  }

  predicate ListingKept(a: Repo, b: Repo)
    requires ReadChain(a).Success? && ReadChain(b).Success?
  {
    KeepsListed(ChainOf(a).snapshot.signed, ChainOf(b).snapshot.signed)
  }

  /** What one event, even an interrupted one, does to the listing. */
  lemma StepListing(w: World, plan: Plan, repo: Repo, e: Event)
    requires Proper(w, plan) && Coherent(w, repo)
    ensures var next := Step(plan, repo, e);
            && ReadChain(next).Success?
            && (ListingKept(repo, next) <==> !Drops(plan, repo, e) || ListsTargetsAlone(repo))
            && ChainOf(next).snapshot.signed.meta.Keys <= ChainOf(repo).snapshot.signed.meta.Keys
            && (Drops(plan, repo, e) ==> ListsTargetsAlone(next))
            && TargetsJson in ChainOf(next).snapshot.signed.meta
  {
    hide Lands, LandsUnguarded, PairLands;
    if plan(repo, e).Some? {
      var after := plan(repo, e).value;
      assert ProperChange(w, repo, e, after);
      KeepsListedIff(w, EngineOf(e), repo, after, e.now);
      assert ChainOf(Step(plan, repo, e)).snapshot == ChainOf(if Lasting(e).snapshot then after else repo).snapshot;
    }
  }

  lemma ListingKeptTransitive(a: Repo, b: Repo, c: Repo)
    requires ReadChain(a).Success? && ReadChain(b).Success? && ReadChain(c).Success?
    requires ListingKept(a, b) && ListingKept(b, c)
    ensures ListingKept(a, c)
  {
  }

  lemma ListingReflexive(a: Repo)
    requires ReadChain(a).Success?
    ensures ListingKept(a, a)
  {
  }

  /** A listing that lost a name never gets it back. */
  lemma {:induction false} ListingNeverGrows(w: World, plan: Plan, repo: Repo, events: seq<Event>)
    requires Proper(w, plan) && Coherent(w, repo)
    ensures var last := Run(plan, repo, events);
            && ReadChain(last).Success?
            && ChainOf(last).snapshot.signed.meta.Keys <= ChainOf(repo).snapshot.signed.meta.Keys
            && TargetsJson in ChainOf(last).snapshot.signed.meta
    decreases |events|
  {
    hide Step, Torn, AllSigned, Binds, Drops;
    if events == [] {
    } else {
      var next := Step(plan, repo, events[0]);
      StepListing(w, plan, repo, events[0]);
      StepKeeps(w, plan, repo, events[0]);
      if Coherent(w, next) {
        ListingNeverGrows(w, plan, next, events[1..]);
      } else {
        TornForever(w, plan, next, events[1..]);
      }
    }
  }

  lemma {:induction false} TornDropsNothing(w: World, plan: Plan, repo: Repo, events: seq<Event>)
    requires Proper(w, plan) && Torn(repo)
    ensures NoneDrops(plan, repo, events)
    decreases |events|
  {
    if events == [] {
    } else {
      TornIsRefused(w, repo, 0);
      assert plan(repo, events[0]).None?;
      TornDropsNothing(w, plan, repo, events[1..]);
    }
  }

  /** A run that drops the listing ends with targets.json alone. */
  lemma {:induction false} DroppedForGood(w: World, plan: Plan, repo: Repo, events: seq<Event>)
    requires Proper(w, plan) && Coherent(w, repo) && !NoneDrops(plan, repo, events)
    ensures ReadChain(Run(plan, repo, events)).Success? && ListsTargetsAlone(Run(plan, repo, events))
    decreases |events|
  {
    hide Step, Torn, AllSigned, Binds, Drops, KeepsListed, AllOrNothing;
    if events == [] {
      assert false;
    } else {
      var next := Step(plan, repo, events[0]);
      StepListing(w, plan, repo, events[0]);
      StepKeeps(w, plan, repo, events[0]);
      if !Coherent(w, next) {
        TornForever(w, plan, next, events[1..]);
        TornDropsNothing(w, plan, next, events[1..]);
      } else if Drops(plan, repo, events[0]) {
        ListingNeverGrows(w, plan, next, events[1..]);
      } else {
        DroppedForGood(w, plan, next, events[1..]);
      }
    }
  }

  /** A run that never drops it, or starts with targets.json alone, keeps the listing step by step. */
  lemma {:induction false} KeptStepByStep(w: World, plan: Plan, repo: Repo, events: seq<Event>)
    requires Proper(w, plan) && Coherent(w, repo)
    requires NoneDrops(plan, repo, events) || ListsTargetsAlone(repo)
    ensures ReadChain(Run(plan, repo, events)).Success? && ListingKept(repo, Run(plan, repo, events))
    decreases |events|
  {
    hide Step, Torn, AllSigned, Binds, Drops, KeepsListed, AllOrNothing;
    if events == [] {
      ListingReflexive(repo);
    } else {
      var next := Step(plan, repo, events[0]);
      StepListing(w, plan, repo, events[0]);
      StepKeeps(w, plan, repo, events[0]);
      if Coherent(w, next) {
        KeptStepByStep(w, plan, next, events[1..]);
        ListingKeptTransitive(repo, next, Run(plan, next, events[1..]));
      } else {
        TornForever(w, plan, next, events[1..]);
      }
    }
  }

  /**
   Whatever the run, and however it ends: its last Snapshot lists everything its first one listed, at no
   lower version, if and only if no event on the way dropped the listing or there was only targets.json.
   */
  lemma RunsKeepListing(w: World, plan: Plan, repo: Repo, events: seq<Event>)
    requires Proper(w, plan) && Coherent(w, repo)
    ensures ReadChain(Run(plan, repo, events)).Success?
    ensures ListingKept(repo, Run(plan, repo, events)) <==> NoneDrops(plan, repo, events) || ListsTargetsAlone(repo)
  {
    hide Run, NoneDrops, Torn, AllSigned, Binds;
    if NoneDrops(plan, repo, events) || ListsTargetsAlone(repo) {
      KeptStepByStep(w, plan, repo, events);
    } else {
      DroppedForGood(w, plan, repo, events);
    }
  }

  lemma {:induction false} RunThenStep(plan: Plan, repo: Repo, events: seq<Event>, last: Event)
    ensures Run(plan, repo, events + [last]) == Step(plan, Run(plan, repo, events), last)
    decreases |events|
  {
    hide Step;
    if events == [] {
      assert [last][1..] == [];
    } else {
      assert (events + [last])[1..] == events[1..] + [last];
      RunThenStep(plan, Step(plan, repo, events[0]), events[1..], last);
    }
  }

  /**
   Clients and runs together. A client that trusts a coherent state `held` of a run, and then sees any later
   generation that the run publishes completely, accepts it if and only if no event on the way, the last one
   included, dropped the listing (or there was only targets.json) and its Timestamp has not expired.
   */
  lemma ClientsFollowRuns(w: World, plan: Plan, held: Repo, events: seq<Event>, last: Event, start: Time)
    requires Proper(w, plan) && Coherent(w, held)
    requires var c := Run(plan, held, events);
             Coherent(w, c) && plan(c, last).Some? && Step(plan, c, last) == plan(c, last).value
    ensures var published := Run(plan, held, events + [last]);
            && ReadChain(published).Success?
            && var r := Update(w, TrustedOf(ChainOf(held)), published, start);
            && (r.Success? <==> && (NoneDrops(plan, held, events + [last]) || ListsTargetsAlone(held))
                                && start < last.now + TIMESTAMP_EXPIRY)
            && (r.Success? ==> r.value == TrustedOf(ChainOf(published)))
  {
    hide Run, NoneDrops, Torn, AllSigned, Binds, Update, AllOrNothing, KeepsListed, Interrupted;
    var c := Run(plan, held, events);
    var after := plan(c, last).value;
    assert ProperChange(w, c, last, after);
    RunThenStep(plan, held, events, last);
    RunsStaySafe(w, plan, held, events);
    RunsKeepListing(w, plan, held, events + [last]);
    AcceptsIff(w, EngineOf(last), held, c, after, last.now, start);
  }
}
