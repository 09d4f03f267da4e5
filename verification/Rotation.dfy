/**
 Root's own succession: the rotation of the two online keys, the trust path from a packaged Root, and key-scope
 separation.
 */
module Rotation {
  import opened Wrappers
  import opened Tuf
  import opened CurrentState

  datatype PackageError =
    | ReplacementKeysNotDistinct
    | CurrentRootNotSelfSigned
    | AlreadySigned
    | NotSequential
    | RootPolicyChanged
    | TargetsPolicyChanged
    | ThresholdChanged(role: RoleName)
    | KeyidMismatch(role: RoleName)
    | NoCurrentKey(role: RoleName)
    | SupersededKeyRemains

  predicate SelfSigned(w: World, md: Metadata<Root>) {
    VerifyDelegate(w, md.signed, RootRole, RootPayload(md.signed), md.signatures)
  }

  /** The Root part of `verify_public_package`: an unsigned Root N+1 that replaces only the two online keys. */
  function VerifyPublicPackage(
    w: World, current: Metadata<Root>, proposed: Metadata<Root>, snapshotKeyid: KeyId, timestampKeyid: KeyId)
    : (r: Result<(), PackageError>)
    ensures r.Success? <==>
              && snapshotKeyid != timestampKeyid
              && VerifyDelegate(w, current.signed, RootRole, RootPayload(current.signed), current.signatures)
              && proposed.signatures == map[]
              && proposed.signed.version == current.signed.version + 1
              && proposed.signed.roles.root == current.signed.roles.root
              && proposed.signed.roles.targets == current.signed.roles.targets
              && proposed.signed.roles.snapshot.keyids == [snapshotKeyid]
              && proposed.signed.roles.snapshot.threshold == 1
              && proposed.signed.roles.timestamp.keyids == [timestampKeyid]
              && proposed.signed.roles.timestamp.threshold == 1
              && current.signed.roles.snapshot.keyids != [] && current.signed.roles.timestamp.keyids != []
              && current.signed.roles.snapshot.keyids[0] !in proposed.signed.keys
              && current.signed.roles.timestamp.keyids[0] !in proposed.signed.keys
  {
    var before, next := current.signed.roles, proposed.signed.roles;
    :- Need(snapshotKeyid != timestampKeyid, ReplacementKeysNotDistinct);
    :- Need(SelfSigned(w, current), CurrentRootNotSelfSigned);
    :- Need(proposed.signatures == map[], AlreadySigned);
    :- Need(proposed.signed.version == current.signed.version + 1, NotSequential);
    :- Need(next.root == before.root, RootPolicyChanged);
    :- Need(next.targets == before.targets, TargetsPolicyChanged);
    :- Need(next.snapshot.threshold == 1, ThresholdChanged(SnapshotRole));
    :- Need(next.timestamp.threshold == 1, ThresholdChanged(TimestampRole));
    :- Need(next.snapshot.keyids == [snapshotKeyid], KeyidMismatch(SnapshotRole));
    :- Need(next.timestamp.keyids == [timestampKeyid], KeyidMismatch(TimestampRole));
    :- Need(before.snapshot.keyids != [], NoCurrentKey(SnapshotRole));
    :- Need(before.timestamp.keyids != [], NoCurrentKey(TimestampRole));
    :- Need(before.snapshot.keyids[0] !in proposed.signed.keys && before.timestamp.keyids[0] !in proposed.signed.keys,
            SupersededKeyRemains);
    Success(())
  }

  /** No envelope signed only under these keyids reaches the role's threshold. */
  ghost predicate Powerless(w: World, root: Root, name: RoleName, keyids: set<KeyId>) {
    forall payload, signatures: Signatures ::
      signatures.Keys <= keyids ==> !VerifyDelegate(w, root, name, payload, signatures)
  }

  /** A set of keyids is powerless over a one-key role exactly when that key is not in it, or not in Root's table. */
  lemma PowerlessIff(w: World, root: Root, name: RoleName, keyid: KeyId, keyids: set<KeyId>)
    requires w.Sound()
    requires root.roles.At(name).keyids == [keyid] && root.roles.At(name).threshold == 1
    ensures Powerless(w, root, name, keyids) <==> keyid !in keyids || keyid !in root.keys
  {
    if keyid in keyids && keyid in root.keys {
      var payload := RootPayload(root);
      var message := w.canonical(payload);
      var signatures: Signatures := map[keyid := w.sign(root.keys[keyid], message)];
      VerifyDelegateCounts(w, root, name, payload, signatures);
      assert ValidSigners(w, root, name, message, signatures) == {keyid};
      assert signatures.Keys <= keyids && VerifyDelegate(w, root, name, payload, signatures);
    } else {
      forall payload, signatures: Signatures | signatures.Keys <= keyids
        ensures !VerifyDelegate(w, root, name, payload, signatures)
      {
        VerifyDelegateCounts(w, root, name, payload, signatures);
        assert ValidSigners(w, root, name, w.canonical(payload), signatures) == {};
      }
    }
  }

  /** Every signature in the envelope was made with one of these keys, whatever keyid it is filed under. */
  ghost predicate MadeBy(w: World, keys: set<Key>, payload: Payload, signatures: Signatures) {
    forall k | k in signatures :: exists key :: key in keys && signatures[k] == w.sign(key, w.canonical(payload))
  }

  /** Whoever holds these keys, and no others, cannot make an envelope that the role accepts. */
  ghost predicate KeysPowerless(w: World, root: Root, name: RoleName, keys: set<Key>) {
    forall payload, signatures: Signatures ::
      MadeBy(w, keys, payload, signatures) ==> !VerifyDelegate(w, root, name, payload, signatures)
  }

  /** The keyids of the role under which Root's table holds one of these keys. */
  function Usable(root: Root, name: RoleName, keys: set<Key>): set<KeyId> {
    set k | k in root.roles.At(name).keyids && k in root.keys && root.keys[k] in keys
  }

  /** Signatures made with these keys are valid under usable keyids only. */
  lemma MadeByIsUsable(w: World, root: Root, name: RoleName, keys: set<Key>, payload: Payload, signatures: Signatures)
    requires w.Sound() && MadeBy(w, keys, payload, signatures)
    ensures ValidSigners(w, root, name, w.canonical(payload), signatures) <= Usable(root, name, keys)
  {
  }

  /** What these keys can sign: one valid signature under every usable keyid. */
  function SignUsable(w: World, root: Root, name: RoleName, keys: set<Key>, payload: Payload): Signatures {
    map k | k in Usable(root, name, keys) :: w.sign(root.keys[k], w.canonical(payload))
  }

  lemma SignUsableIsValid(w: World, root: Root, name: RoleName, keys: set<Key>, payload: Payload)
    requires w.Sound()
    ensures var signatures := SignUsable(w, root, name, keys, payload);
            && MadeBy(w, keys, payload, signatures)
            && ValidSigners(w, root, name, w.canonical(payload), signatures) == Usable(root, name, keys)
  {
  }

  /**
   For any role, the holders of some keys are powerless exactly when fewer of its keyids than the threshold stand for
   them.
   */
  lemma KeysPowerlessIff(w: World, root: Root, name: RoleName, keys: set<Key>)
    requires w.Sound()
    ensures KeysPowerless(w, root, name, keys) <==> |Usable(root, name, keys)| < root.roles.At(name).threshold
  {
    hide VerifyDelegate, ValidSigners, MadeBy;
    if |Usable(root, name, keys)| < root.roles.At(name).threshold {
      forall payload, signatures: Signatures | MadeBy(w, keys, payload, signatures)
        ensures !VerifyDelegate(w, root, name, payload, signatures)
      {
        VerifyDelegateCounts(w, root, name, payload, signatures);
        MadeByIsUsable(w, root, name, keys, payload, signatures);
        Subset(ValidSigners(w, root, name, w.canonical(payload), signatures), Usable(root, name, keys));
      }
    } else {
      var payload := RootPayload(root);
      var signatures := SignUsable(w, root, name, keys, payload);
      SignUsableIsValid(w, root, name, keys, payload);
      VerifyDelegateCounts(w, root, name, payload, signatures);
    }
  }

  /** For a one-key role: exactly when Root's table has no key under that keyid, or one that is not among them. */
  lemma KeysPowerlessOverOneIff(w: World, root: Root, name: RoleName, keyid: KeyId, keys: set<Key>)
    requires w.Sound()
    requires root.roles.At(name).keyids == [keyid] && root.roles.At(name).threshold == 1
    ensures KeysPowerless(w, root, name, keys) <==> keyid !in root.keys || root.keys[keyid] !in keys
  {
    KeysPowerlessIff(w, root, name, keys);
    if keyid in root.keys && root.keys[keyid] in keys {
      assert Usable(root, name, keys) == {keyid};
    } else {
      assert Usable(root, name, keys) == {};
    }
  }

  /** The online keys that the verifier looks at: the first of each role. */
  function SupersededFirst(current: Root): set<KeyId>
    requires current.roles.snapshot.keyids != [] && current.roles.timestamp.keyids != []
  {
    {current.roles.snapshot.keyids[0], current.roles.timestamp.keyids[0]}
  }

  /** All online keys of the current Root. */
  function SupersededAll(current: Root): set<KeyId> {
    (set k | k in current.roles.snapshot.keyids) + (set k | k in current.roles.timestamp.keyids)
  }

  /**
   An accepted package keeps the other policies, and nothing filed under the superseded first keyids satisfies an
   online role.
   */
  lemma SupersededKeysPowerless(
    w: World, current: Metadata<Root>, proposed: Metadata<Root>, snapshotKeyid: KeyId, timestampKeyid: KeyId)
    requires w.Sound()
    requires VerifyPublicPackage(w, current, proposed, snapshotKeyid, timestampKeyid).Success?
    ensures SelfSigned(w, current) && proposed.signatures == map[]
    ensures proposed.signed.version == current.signed.version + 1
    ensures proposed.signed.roles.root == current.signed.roles.root
    ensures proposed.signed.roles.targets == current.signed.roles.targets
    ensures snapshotKeyid != timestampKeyid
    ensures Powerless(w, proposed.signed, SnapshotRole, SupersededFirst(current.signed))
    ensures Powerless(w, proposed.signed, TimestampRole, SupersededFirst(current.signed))
  {
    PowerlessIff(w, proposed.signed, SnapshotRole, snapshotKeyid, SupersededFirst(current.signed));
    PowerlessIff(w, proposed.signed, TimestampRole, timestampKeyid, SupersededFirst(current.signed));
  }

  /**
   The verifier inspects only the first keyid of each current online role. With more than one,
   acceptance does not make every superseded keyid powerless: it does so exactly when no replacement
   keyid that Root N+1 has a key for was already an online keyid of Root N.
   */
  lemma AllSupersededPowerlessIff(
    w: World, current: Metadata<Root>, proposed: Metadata<Root>, snapshotKeyid: KeyId, timestampKeyid: KeyId)
    requires w.Sound()
    requires VerifyPublicPackage(w, current, proposed, snapshotKeyid, timestampKeyid).Success?
    ensures var former := SupersededAll(current.signed);
            && Powerless(w, proposed.signed, SnapshotRole, former)
            && Powerless(w, proposed.signed, TimestampRole, former)
            <==> forall k | k in {snapshotKeyid, timestampKeyid} && k in proposed.signed.keys :: k !in former
  {
    var former := SupersededAll(current.signed);
    PowerlessIff(w, proposed.signed, SnapshotRole, snapshotKeyid, former);
    PowerlessIff(w, proposed.signed, TimestampRole, timestampKeyid, former);
    if Powerless(w, proposed.signed, SnapshotRole, former) && Powerless(w, proposed.signed, TimestampRole, former) {
      forall k | k in {snapshotKeyid, timestampKeyid} && k in proposed.signed.keys
        ensures k !in former
      {
      }
    }
  }

  /** The keys that Root's table holds under these keyids. */
  function KeysAt(root: Root, keyids: set<KeyId>): set<Key> {
    set k | k in keyids && k in root.keys :: root.keys[k]
  }

  /** No key changes its keyid from one Root to the other, as when a keyid is computed from its key. */
  ghost predicate KeysKeepTheirIds(current: Root, proposed: Root) {
    forall k, j | k in current.keys && j in proposed.keys && current.keys[k] == proposed.keys[j] :: k == j
  }

  /** Neither replacement keyid stands for one of these keys in the proposed Root. */
  predicate ReplacedByOthers(proposed: Root, snapshotKeyid: KeyId, timestampKeyid: KeyId, keys: set<Key>) {
    && (snapshotKeyid in proposed.keys ==> proposed.keys[snapshotKeyid] !in keys)
    && (timestampKeyid in proposed.keys ==> proposed.keys[timestampKeyid] !in keys)
  }

  /**
   The verifier compares keyids and never the keys behind them. On an accepted package the holders of any
   given keys are powerless over both online roles exactly when no replacement keyid stands for one of
   those keys. For the superseded first keys this holds whenever no key has changed its keyid.
   */
  lemma SupersededHoldersPowerlessIff(
    w: World, current: Metadata<Root>, proposed: Metadata<Root>, snapshotKeyid: KeyId, timestampKeyid: KeyId,
    keys: set<Key>)
    requires w.Sound()
    requires VerifyPublicPackage(w, current, proposed, snapshotKeyid, timestampKeyid).Success?
    ensures && KeysPowerless(w, proposed.signed, SnapshotRole, keys)
            && KeysPowerless(w, proposed.signed, TimestampRole, keys)
       <==> ReplacedByOthers(proposed.signed, snapshotKeyid, timestampKeyid, keys)
    ensures KeysKeepTheirIds(current.signed, proposed.signed) ==>
              ReplacedByOthers(proposed.signed, snapshotKeyid, timestampKeyid,
                               KeysAt(current.signed, SupersededFirst(current.signed)))
  {
    hide KeysPowerless, SelfSigned;
    KeysPowerlessOverOneIff(w, proposed.signed, SnapshotRole, snapshotKeyid, keys);
    KeysPowerlessOverOneIff(w, proposed.signed, TimestampRole, timestampKeyid, keys);
  }

  /** A package the verifier accepts although the superseded Snapshot key, under a new keyid, still signs Snapshot. */
  lemma OldKeyCanReturn(w: World)
    requires w.Sound()
    ensures exists current: Metadata<Root>, proposed: Metadata<Root> ::
              && VerifyPublicPackage(w, current, proposed, "b", "d").Success?
              && Powerless(w, proposed.signed, SnapshotRole, SupersededAll(current.signed))
              && !KeysPowerless(w, proposed.signed, SnapshotRole, KeysAt(current.signed, SupersededAll(current.signed)))
  {
    hide KeysPowerless, Powerless, SelfSigned;
    var roles := Roles(Solo("r"), Solo("t"), Solo("a"), Solo("c"));
    var root := Root(1, 0, "1.0", map["r" := "r", "a" := "old"], roles, map[]);
    var nextRoles := Roles(Solo("r"), Solo("t"), Solo("b"), Solo("d"));
    var next := Root(2, 0, "1.0", map["r" := "r", "b" := "old"], nextRoles, map[]);
    var current := SelfSign(w, root);
    var proposed: Metadata<Root> := Metadata(next, map[], map[]);
    SelfSignHolds(w, root);
    assert VerifyPublicPackage(w, current, proposed, "b", "d").Success?;
    assert "a" in root.roles.snapshot.keyids && root.keys["a"] in KeysAt(root, SupersededAll(root));
    PowerlessIff(w, next, SnapshotRole, "b", SupersededAll(root));
    KeysPowerlessOverOneIff(w, next, SnapshotRole, "b", KeysAt(root, SupersededAll(root)));
  }

  function SelfSign(w: World, root: Root): Metadata<Root> {
    Metadata(root, SignAll(w, w.canonical(RootPayload(root)), [Signer("r", "r")]), map[])
  }

  lemma SelfSignHolds(w: World, root: Root)
    requires w.Sound()
    requires root.roles.root == RoleData(["r"], 1, map[]) && "r" in root.keys && root.keys["r"] == "r"
    ensures SelfSigned(w, SelfSign(w, root))
  {
  }

  /** A package the verifier accepts although a superseded second Snapshot keyid keeps its power under Root N+1. */
  lemma SecondKeyCanSurvive(w: World)
    requires w.Sound()
    ensures exists current: Metadata<Root>, proposed: Metadata<Root> ::
              && VerifyPublicPackage(w, current, proposed, "b", "d").Success?
              && !Powerless(w, proposed.signed, SnapshotRole, SupersededAll(current.signed))
  {
    hide Powerless, SelfSigned;
    var keys: map<KeyId, Key> := map["r" := "r", "b" := "b"];
    var root := Root(1, 0, "1.0", keys, Roles(Solo("r"), Solo("t"), RoleData(["a", "b"], 1, map[]), Solo("c")), map[]);
    var next := Root(2, 0, "1.0", keys, Roles(Solo("r"), Solo("t"), Solo("b"), Solo("d")), map[]);
    var current := SelfSign(w, root);
    var proposed: Metadata<Root> := Metadata(next, map[], map[]);
    SelfSignHolds(w, root);
    assert VerifyPublicPackage(w, current, proposed, "b", "d").Success?;
    assert root.roles.snapshot.keyids[1] == "b";
    PowerlessIff(w, next, SnapshotRole, "b", SupersededAll(root));
  }

  /** Sections 5.3.4 and 5.3.5 of The Update Framework specification: a client that trusts `trusted` moves to `next`. */
  predicate RootUpdates(w: World, trusted: Root, next: Metadata<Root>) {
    && VerifyDelegate(w, trusted, RootRole, RootPayload(next.signed), next.signatures)
    && SelfSigned(w, next)
    && next.signed.version == trusted.version + 1
  }

  datatype ChainError =
    | BadRootSignatures
    | PayloadDiffers
    | NotNext
    | PolicyChanged(role: RoleName)
    | WrongKeyid(role: RoleName)

  /** The Root v1 to v2 checks of `verify_full_transition`. */
  function VerifyRootTransition(
    w: World, base: Metadata<Root>, unsigned: Metadata<Root>, root: Metadata<Root>,
    snapshotKeyid: KeyId, timestampKeyid: KeyId)
    : (r: Result<(), ChainError>)
    ensures r.Success? <==>
              && VerifyDelegate(w, base.signed, RootRole, RootPayload(base.signed), base.signatures)
              && VerifyDelegate(w, base.signed, RootRole, RootPayload(root.signed), root.signatures)
              && VerifyDelegate(w, root.signed, RootRole, RootPayload(root.signed), root.signatures)
              && w.canonical(RootPayload(root.signed)) == w.canonical(RootPayload(unsigned.signed))
              && root.signed.version == base.signed.version + 1
              && root.signed.roles.root == base.signed.roles.root
              && root.signed.roles.targets == base.signed.roles.targets
              && root.signed.roles.snapshot.keyids == [snapshotKeyid]
              && root.signed.roles.timestamp.keyids == [timestampKeyid]
  {
    var before, next := base.signed.roles, root.signed.roles;
    :- Need(SelfSigned(w, base), BadRootSignatures);
    :- Need(VerifyDelegate(w, base.signed, RootRole, RootPayload(root.signed), root.signatures), BadRootSignatures);
    :- Need(SelfSigned(w, root), BadRootSignatures);
    :- Need(w.canonical(RootPayload(root.signed)) == w.canonical(RootPayload(unsigned.signed)), PayloadDiffers);
    :- Need(root.signed.version == base.signed.version + 1, NotNext);
    :- Need(next.root == before.root, PolicyChanged(RootRole));
    :- Need(next.targets == before.targets, PolicyChanged(TargetsRole));
    :- Need(next.snapshot.keyids == [snapshotKeyid], WrongKeyid(SnapshotRole));
    :- Need(next.timestamp.keyids == [timestampKeyid], WrongKeyid(TimestampRole));
    Success(())
  }

  /**
   An accepted transition is a step that clients of the old Root take, with the old authorities over Root and
   Targets: whatever the old Root would not accept as Targets, the new one does not accept if it keeps the keys.
   */
  lemma TransitionKeepsAuthority(
    w: World, base: Metadata<Root>, unsigned: Metadata<Root>, root: Metadata<Root>,
    snapshotKeyid: KeyId, timestampKeyid: KeyId, name: RoleName, payload: Payload, signatures: Signatures)
    requires w.Sound() && (name == RootRole || name == TargetsRole)
    requires VerifyRootTransition(w, base, unsigned, root, snapshotKeyid, timestampKeyid).Success?
    requires forall k | k in base.signed.roles.At(name).keyids ::
               (k in base.signed.keys <==> k in root.signed.keys)
               && (k in base.signed.keys ==> base.signed.keys[k] == root.signed.keys[k])
    ensures RootUpdates(w, base.signed, root)
    ensures VerifyDelegate(w, root.signed, name, payload, signatures)
       <==> VerifyDelegate(w, base.signed, name, payload, signatures)
  {
    VerifyDelegateCounts(w, root.signed, name, payload, signatures);
    VerifyDelegateCounts(w, base.signed, name, payload, signatures);
    var message := w.canonical(payload);
    assert ValidSigners(w, root.signed, name, message, signatures)
        == ValidSigners(w, base.signed, name, message, signatures);
  }

  /** A Root that hands Root or Targets to other keys, or changes their thresholds, is refused by both verifiers. */
  lemma ReassignedAuthorityRefused(
    w: World, base: Metadata<Root>, unsigned: Metadata<Root>, root: Metadata<Root>,
    snapshotKeyid: KeyId, timestampKeyid: KeyId)
    requires root.signed.roles.root != base.signed.roles.root || root.signed.roles.targets != base.signed.roles.targets
    ensures VerifyRootTransition(w, base, unsigned, root, snapshotKeyid, timestampKeyid).Failure?
    ensures VerifyPublicPackage(w, base, root, snapshotKeyid, timestampKeyid).Failure?
  {
  }

  /**
   The two verifiers together: once a package has been accepted and its payload signed, every client on the
   old Root moves to the signed one. Under it nothing filed under the superseded first keyids satisfies an
   online role, and the holders of the superseded keys are powerless exactly when no replacement keyid
   stands for one of their keys; they are if no key has changed its keyid.
   */
  lemma RotationEndToEnd(
    w: World, base: Metadata<Root>, unsigned: Metadata<Root>, root: Metadata<Root>,
    snapshotKeyid: KeyId, timestampKeyid: KeyId)
    requires w.Sound()
    requires w.canonical(RootPayload(root.signed)) == w.canonical(RootPayload(unsigned.signed)) ==>
               root.signed == unsigned.signed
    requires VerifyPublicPackage(w, base, unsigned, snapshotKeyid, timestampKeyid).Success?
    requires VerifyRootTransition(w, base, unsigned, root, snapshotKeyid, timestampKeyid).Success?
    ensures RootUpdates(w, base.signed, root)
    ensures root.signed.roles.root == base.signed.roles.root && root.signed.roles.targets == base.signed.roles.targets
    ensures root.signed.roles.snapshot == Solo(snapshotKeyid).(extra := root.signed.roles.snapshot.extra)
    ensures root.signed.roles.timestamp == Solo(timestampKeyid).(extra := root.signed.roles.timestamp.extra)
    ensures Powerless(w, root.signed, SnapshotRole, SupersededFirst(base.signed))
    ensures Powerless(w, root.signed, TimestampRole, SupersededFirst(base.signed))
    ensures var keys := KeysAt(base.signed, SupersededFirst(base.signed));
            && ((&& KeysPowerless(w, root.signed, SnapshotRole, keys)
                 && KeysPowerless(w, root.signed, TimestampRole, keys))
                <==> ReplacedByOthers(root.signed, snapshotKeyid, timestampKeyid, keys))
            && (KeysKeepTheirIds(base.signed, root.signed) ==>
                  ReplacedByOthers(root.signed, snapshotKeyid, timestampKeyid, keys))
  {
    hide KeysPowerless, Powerless, KeysKeepTheirIds, ReplacedByOthers;
    assert root.signed == unsigned.signed;
    SupersededKeysPowerless(w, base, unsigned, snapshotKeyid, timestampKeyid);
    SupersededHoldersPowerlessIff(w, base, unsigned, snapshotKeyid, timestampKeyid,
                                  KeysAt(base.signed, SupersededFirst(base.signed)));
  }

  /** The public-Root trust path of the repository acceptance: None where the script raises. */
  function PublicRootTrustPath(
    w: World, packaged: Metadata<Root>, packagedData: Bytes, public: Metadata<Root>, publicData: Bytes): Option<bool>
  {
    if public.signed.version == packaged.signed.version then Some(publicData == packagedData)
    else if public.signed.version != packaged.signed.version + 1 then None
    else if !VerifyDelegate(w, packaged.signed, RootRole, RootPayload(public.signed), public.signatures) then None
    else if !SelfSigned(w, public) then None
    else Some(true)
  }

  /**
   The path is verified exactly when the public Root is the packaged file, or one that a client of the package moves
   to.
   */
  lemma TrustPathIff(w: World, packaged: Metadata<Root>, packagedData: Bytes, public: Metadata<Root>, publicData: Bytes)
    requires ParseRoot(packagedData) == Success(packaged) && ParseRoot(publicData) == Success(public)
    ensures PublicRootTrustPath(w, packaged, packagedData, public, publicData) == Some(true)
       <==> publicData == packagedData || RootUpdates(w, packaged.signed, public)
    // Another file of the same version is reported as untrusted; anything else stops the script.
    ensures PublicRootTrustPath(w, packaged, packagedData, public, publicData) == Some(false)
       <==> publicData != packagedData && public.signed.version == packaged.signed.version
  {
  }

  function SumOfSizes(scopes: seq<set<KeyId>>): nat {
    if scopes == [] then 0 else |scopes[0]| + SumOfSizes(scopes[1..])
  }

  function UnionOf(scopes: seq<set<KeyId>>): set<KeyId> {
    if scopes == [] then {} else scopes[0] + UnionOf(scopes[1..])
  }

  ghost predicate PairwiseDisjoint(scopes: seq<set<KeyId>>) {
    forall i, j :: 0 <= i < j < |scopes| ==> scopes[i] !! scopes[j]
  }

  lemma {:induction false} UnionContains(scopes: seq<set<KeyId>>, k: KeyId)
    ensures k in UnionOf(scopes) <==> exists i :: 0 <= i < |scopes| && k in scopes[i]
  {
    if scopes == [] {
    } else {
      UnionContains(scopes[1..], k);
      if k in UnionOf(scopes[1..]) {
        var i :| 0 <= i < |scopes[1..]| && k in scopes[1..][i];
        assert k in scopes[i + 1];
      }
      if i :| 0 <= i < |scopes| && k in scopes[i] && i > 0 {
        assert k in scopes[1..][i - 1];
      }
    }
  }

  /** The cardinality test: sizes add up to the size of the union exactly when the sets are pairwise disjoint. */
  lemma {:induction false} SizesAddUpIffDisjoint(scopes: seq<set<KeyId>>)
    ensures |UnionOf(scopes)| <= SumOfSizes(scopes)
    ensures SumOfSizes(scopes) == |UnionOf(scopes)| <==> PairwiseDisjoint(scopes)
  {
    if scopes == [] {
    } else {
      var first, rest := scopes[0], scopes[1..];
      SizesAddUpIffDisjoint(rest);
      var union := UnionOf(rest);
      assert |first + union| == |first| + |union| - |first * union|;
      assert (forall i :: 0 <= i < |rest| ==> rest[i] == scopes[i + 1]);
      if first * union == {} {
        forall j | 0 < j < |scopes|
          ensures first !! scopes[j]
        {
          forall k | k in scopes[j]
            ensures k !in first
          {
            assert k in rest[j - 1];
            UnionContains(rest, k);
            assert k in first ==> k in first * union;
          }
        }
      } else {
        var k :| k in first * union;
        UnionContains(rest, k);
        var i :| 0 <= i < |rest| && k in rest[i];
        assert k in scopes[0] && k in scopes[i + 1];
      }
    }
  }

  function Scope(root: Root, name: RoleName): set<KeyId> {
    set k | k in root.roles.At(name).keyids
  }

  function KeyScopes(root: Root): seq<set<KeyId>> {
    [Scope(root, RootRole), Scope(root, TargetsRole), Scope(root, SnapshotRole), Scope(root, TimestampRole)]
  }

  /** `role_key_scopes_separate`. */
  predicate KeyScopesSeparate(root: Root) {
    SumOfSizes(KeyScopes(root)) == |UnionOf(KeyScopes(root))|
  }

  function Place(name: RoleName): nat {
    match name
    case RootRole => 0
    case TargetsRole => 1
    case SnapshotRole => 2
    case TimestampRole => 3
  }

  lemma PlaceOf(root: Root, name: RoleName)
    ensures Place(name) < 4 && KeyScopes(root)[Place(name)] == Scope(root, name)
  {
  }

  lemma SeparateThen(root: Root, a: RoleName, b: RoleName, k: KeyId)
    requires KeyScopesSeparate(root) && a != b && k in root.roles.At(a).keyids
    ensures k !in root.roles.At(b).keyids
  {
    var scopes := KeyScopes(root);
    SizesAddUpIffDisjoint(scopes);
    PlaceOf(root, a);
    PlaceOf(root, b);
    assert scopes[Place(a)] !! scopes[Place(b)];
    assert k in scopes[Place(a)];
  }

  lemma ThenSeparate(root: Root)
    requires forall a, b, k | a != b && k in root.roles.At(a).keyids :: k !in root.roles.At(b).keyids
    ensures KeyScopesSeparate(root)
  {
    var scopes, names := KeyScopes(root), [RootRole, TargetsRole, SnapshotRole, TimestampRole];
    SizesAddUpIffDisjoint(scopes);
    forall i, j | 0 <= i < j < |scopes|
      ensures scopes[i] !! scopes[j]
    {
      assert scopes[i] == Scope(root, names[i]) && scopes[j] == Scope(root, names[j]);
    }
  }

  /** The test passes exactly when no keyid is listed for two of the four roles. */
  lemma KeyScopesSeparateIff(root: Root)
    ensures KeyScopesSeparate(root)
       <==> forall a, b, k | a != b && k in root.roles.At(a).keyids :: k !in root.roles.At(b).keyids
  {
    hide KeyScopesSeparate;
    if KeyScopesSeparate(root) {
      forall a, b, k | a != b && k in root.roles.At(a).keyids
        ensures k !in root.roles.At(b).keyids
      {
        SeparateThen(root, a, b, k);
      }
    }
    if forall a, b, k | a != b && k in root.roles.At(a).keyids :: k !in root.roles.At(b).keyids {
      ThenSeparate(root);
    }
  }

  /**
   When the test passes, a signature valid for one role is filed under a keyid of no other, so it counts for no other.
   */
  lemma SeparateScopesDoNotHelp(
    w: World, root: Root, a: RoleName, b: RoleName, payload: Payload, signatures: Signatures)
    requires w.Sound() && KeyScopesSeparate(root) && a != b
    ensures var valid := ValidSigners(w, root, a, w.canonical(payload), signatures);
            && valid !! ValidSigners(w, root, b, w.canonical(payload), signatures)
            && (signatures.Keys <= Scope(root, a) ==> !VerifyDelegate(w, root, b, payload, signatures))
  {
    var scopes := KeyScopes(root);
    SizesAddUpIffDisjoint(scopes);
    var i, j := Place(a), Place(b);
    assert scopes[i] == Scope(root, a) && scopes[j] == Scope(root, b);
    assert scopes[i] !! scopes[j];
    var message := w.canonical(payload);
    assert ValidSigners(w, root, a, message, signatures) <= Scope(root, a);
    assert ValidSigners(w, root, b, message, signatures) <= Scope(root, b);
    VerifyDelegateCounts(w, root, b, payload, signatures);
    if signatures.Keys <= Scope(root, a) {
      assert ValidSigners(w, root, b, message, signatures) == {};
    }
  }

  /** The keys behind a role. */
  function RoleKeys(root: Root, name: RoleName): set<Key> {
    KeysAt(root, Scope(root, name))
  }

  /** Nothing made with these keys is a valid signature for the role. */
  ghost predicate NoneValid(w: World, root: Root, name: RoleName, keys: set<Key>) {
    forall payload, signatures: Signatures ::
      MadeBy(w, keys, payload, signatures) ==> ValidSigners(w, root, name, w.canonical(payload), signatures) == {}
  }

  lemma CommonIffUsable(root: Root, a: RoleName, b: RoleName)
    ensures Usable(root, b, RoleKeys(root, a)) == {} <==> RoleKeys(root, a) !! RoleKeys(root, b)
  {
    var keys, others, usable := RoleKeys(root, a), RoleKeys(root, b), Usable(root, b, RoleKeys(root, a));
    if k :| k in usable {
      assert root.keys[k] in others && root.keys[k] in keys;
    }
    if key :| key in keys && key in others {
      var k :| k in Scope(root, b) && k in root.keys && root.keys[k] == key;
      assert k in usable;
    }
  }

  /**
   Separate scopes are separate keyids. The holders of one role's keys cannot add a single valid signature
   to another role exactly when Root's table gives the two roles no key in common; they cannot satisfy it
   exactly when fewer of its keyids than the threshold stand for a common key.
   */
  lemma HoldersDoNotHelpIff(w: World, root: Root, a: RoleName, b: RoleName)
    requires w.Sound()
    ensures NoneValid(w, root, b, RoleKeys(root, a)) <==> RoleKeys(root, a) !! RoleKeys(root, b)
    ensures KeysPowerless(w, root, b, RoleKeys(root, a))
       <==> |Usable(root, b, RoleKeys(root, a))| < root.roles.At(b).threshold
  {
    var keys := RoleKeys(root, a);
    KeysPowerlessIff(w, root, b, keys);
    CommonIffUsable(root, a, b);
    if Usable(root, b, keys) == {} {
      forall payload, signatures: Signatures | MadeBy(w, keys, payload, signatures)
        ensures ValidSigners(w, root, b, w.canonical(payload), signatures) == {}
      {
        MadeByIsUsable(w, root, b, keys, payload, signatures);
      }
    } else {
      SignUsableIsValid(w, root, b, keys, RootPayload(root));
    }
  }

  lemma FourDistinctScopes(root: Root, r: KeyId, t: KeyId, s: KeyId, m: KeyId)
    requires root.roles.root.keyids == [r] && root.roles.targets.keyids == [t]
    requires root.roles.snapshot.keyids == [s] && root.roles.timestamp.keyids == [m]
    requires r != t && r != s && r != m && t != s && t != m && s != m
    ensures KeyScopesSeparate(root)
  {
    var scopes := [{r}, {t}, {s}, {m}];
    assert Scope(root, RootRole) == {r} && Scope(root, TargetsRole) == {t};
    assert Scope(root, SnapshotRole) == {s} && Scope(root, TimestampRole) == {m};
    assert KeyScopes(root) == scopes;
    assert PairwiseDisjoint(scopes);
    SizesAddUpIffDisjoint(scopes);
  }

  lemma KeyOfRole(root: Root, name: RoleName, k: KeyId)
    requires k in root.roles.At(name).keyids && k in root.keys
    ensures root.keys[k] in RoleKeys(root, name)
  {
  }

  /** A Root that passes the scope test although one key, under two keyids, satisfies Targets and Snapshot alike. */
  lemma SharedKeyHelps(w: World)
    requires w.Sound()
    ensures exists root: Root ::
              && KeyScopesSeparate(root)
              && !KeysPowerless(w, root, SnapshotRole, RoleKeys(root, TargetsRole))
  {
    hide KeysPowerless, KeyScopesSeparate, RoleKeys;
    var roles := Roles(Solo("r"), Solo("t"), Solo("s"), Solo("m"));
    var root := Root(1, 0, "1.0", map["t" := "K", "s" := "K"], roles, map[]);
    FourDistinctScopes(root, "r", "t", "s", "m");
    KeyOfRole(root, TargetsRole, "t");
    KeysPowerlessOverOneIff(w, root, SnapshotRole, "s", RoleKeys(root, TargetsRole));
  }
}
