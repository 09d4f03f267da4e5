/** The two searches for unlocked private keys that a Root role authorises. */
module Custody {
  import opened Wrappers
  import opened Tuf
  import opened CurrentState

  /** What one `*.pem` path turns out to be: no regular file, a key that does not load, or a signer. */
  datatype KeyFile = NotAFile | Locked | Unlocked(signer: Signer)

  datatype KeyDir = Missing | Files(paths: seq<KeyFile>)

  function Authorized(root: Root, name: RoleName): set<KeyId> {
    set k | k in root.roles.At(name).keyids
  }

  /** The distinct authorised keyids that some file in the directory unlocks. */
  function UnlockedIds(authorized: set<KeyId>, paths: seq<KeyFile>): set<KeyId> {
    set f | f in paths && f.Unlocked? && f.signer.keyid in authorized :: f.signer.keyid
  }

  /** `dict.setdefault`, on an insertion-ordered dict given as the list of its values. */
  function SetDefault(found: seq<Signer>, s: Signer): seq<Signer> {
    if exists t | t in found :: t.keyid == s.keyid then found else found + [s]
  }

  /** The values of the `found` dict after looking at every path in order. */
  function Found(authorized: set<KeyId>, paths: seq<KeyFile>): (found: seq<Signer>)
    ensures DistinctKeyIds(found)
    ensures KeyIds(found) == UnlockedIds(authorized, paths)
    ensures forall s | s in found :: Unlocked(s) in paths && s.keyid in authorized
  {
    if paths == [] then
      assert UnlockedIds(authorized, paths) == {};
      []
    else
      var front, last := paths[..|paths| - 1], paths[|paths| - 1];
      assert paths == front + [last];
      var before := Found(authorized, front);
      if last.Unlocked? && last.signer.keyid in authorized then
        assert UnlockedIds(authorized, paths) == UnlockedIds(authorized, front) + {last.signer.keyid};
        SetDefault(before, last.signer)
      else
        assert UnlockedIds(authorized, paths) == UnlockedIds(authorized, front);
        before
  }

  /**
   `_discover_pem_signers`. It succeeds exactly when the directory exists and the distinct
   authorised keys that unlock reach the threshold, and then returns exactly threshold
   signers with distinct authorised keyids.
   */
  function PemSigners(dir: KeyDir, root: Root, name: RoleName): (r: Result<seq<Signer>, Code>)
    ensures r.Success? <==> dir.Files?
                            && |UnlockedIds(Authorized(root, name), dir.paths)| >= root.roles.At(name).threshold
    ensures r.Success? ==>
              && |r.value| == root.roles.At(name).threshold
              && DistinctKeyIds(r.value)
              && KeyIds(r.value) <= UnlockedIds(Authorized(root, name), dir.paths)
    // Every signer returned was unlocked from a file and is one of the role's.
    ensures r.Success? ==>
              forall s | s in r.value :: Unlocked(s) in dir.paths && s.keyid in root.roles.At(name).keyids
    ensures r == Failure(OfflineKeyDirMissing) <==> dir.Missing?
    ensures r == Failure(TargetsSignerUnavailable)
       <==> dir.Files? && |UnlockedIds(Authorized(root, name), dir.paths)| < root.roles.At(name).threshold
  {
    if dir.Missing? then Failure(OfflineKeyDirMissing)
    else
      var found := Found(Authorized(root, name), dir.paths);
      DistinctCount(found);
      if |found| < root.roles.At(name).threshold then Failure(TargetsSignerUnavailable)
      else Success(found[..root.roles.At(name).threshold])
  }

  /** A key counts towards the threshold exactly when its keyid is one of the role's and some file unlocks it. */
  lemma CountsIff(root: Root, name: RoleName, paths: seq<KeyFile>, keyid: KeyId)
    ensures keyid in UnlockedIds(Authorized(root, name), paths)
       <==> && keyid in root.roles.At(name).keyids
            && exists i :: 0 <= i < |paths| && paths[i].Unlocked? && paths[i].signer.keyid == keyid
  {
    if keyid in UnlockedIds(Authorized(root, name), paths) {
      var f :| f in paths && f.Unlocked? && f.signer.keyid == keyid;
    }
  }

  /**
   `_discover_root_signers`, for any role: the same search, without the cut at the threshold. The two
   succeed together, and the truncated one returns a prefix of this one.
   */
  function AllSigners(paths: seq<KeyFile>, root: Root, name: RoleName): (r: Option<seq<Signer>>)
    ensures r.Some? <==> PemSigners(Files(paths), root, name).Success?
    ensures r.Some? ==>
              && PemSigners(Files(paths), root, name).value <= r.value
              && DistinctKeyIds(r.value)
              && KeyIds(r.value) == UnlockedIds(Authorized(root, name), paths)
  {
    var found := Found(Authorized(root, name), paths);
    if |found| < root.roles.At(name).threshold then None else Some(found)
  }

  /** The loop of `_discover_pem_signers`. */
  method DiscoverPemSigners(dir: KeyDir, root: Root, name: RoleName) returns (r: Result<seq<Signer>, Code>)
    ensures r == PemSigners(dir, root, name)
  {
    if dir.Missing? {
      return Failure(OfflineKeyDirMissing);
    }
    var authorized := Authorized(root, name);
    var threshold := root.roles.At(name).threshold;
    var found := Collect(authorized, dir.paths);
    if |found| < threshold {
      return Failure(TargetsSignerUnavailable);
    }
    return Success(found[..threshold]);
  }

  /** The loop of `_discover_root_signers`. */
  method DiscoverRootSigners(paths: seq<KeyFile>, root: Root) returns (r: Option<seq<Signer>>)
    ensures r == AllSigners(paths, root, RootRole)
  {
    var signers := Collect(Authorized(root, RootRole), paths);
    if |signers| < root.roles.root.threshold {
      return None;
    }
    return Some(signers);
  }

  method Collect(authorized: set<KeyId>, paths: seq<KeyFile>) returns (found: seq<Signer>)
    ensures found == Found(authorized, paths)
  {
    found := [];
    for i := 0 to |paths|
      invariant found == Found(authorized, paths[..i])
    {
      assert paths[..i + 1][..i] == paths[..i];
      match paths[i] {
        case NotAFile =>
        case Locked =>
        case Unlocked(signer) =>
          if signer.keyid in authorized {
            found := SetDefault(found, signer);
          }
      }
    }
    assert paths[..|paths|] == paths;
  }

  /** The path at `i` unlocks this signer, and no earlier path unlocks a key with the same keyid. */
  ghost predicate FirstUnlock(paths: seq<KeyFile>, i: nat, s: Signer) {
    i < |paths| && paths[i] == Unlocked(s)
    && forall j | 0 <= j < i && paths[j].Unlocked? :: paths[j].signer.keyid != s.keyid
  }

  /** Each keyid is represented by the first path that unlocks it. */
  lemma {:induction false} FirstUnlockWins(authorized: set<KeyId>, paths: seq<KeyFile>, s: Signer)
    requires s in Found(authorized, paths)
    ensures exists i: nat :: FirstUnlock(paths, i, s)
  {
    var front, last := paths[..|paths| - 1], paths[|paths| - 1];
    var before := Found(authorized, front);
    if s in before {
      FirstUnlockWins(authorized, front, s);
      var i: nat :| FirstUnlock(front, i, s);
      assert FirstUnlock(paths, i, s);
    } else {
      assert s.keyid !in KeyIds(before);
      forall j | 0 <= j < |front| && paths[j].Unlocked?
        ensures paths[j].signer.keyid != s.keyid
      {
        assert front[j] in front;
      }
      assert FirstUnlock(paths, |front|, s);
    }
  }

  /** A keyid found among the first paths is first unlocked there. */
  lemma FirstUnlockInFront(authorized: set<KeyId>, paths: seq<KeyFile>, n: nat, i: nat, s: Signer)
    requires n <= |paths| && s in Found(authorized, paths[..n]) && FirstUnlock(paths, i, s)
    ensures i < n && FirstUnlock(paths[..n], i, s)
  {
    FirstUnlockWins(authorized, paths[..n], s);
    var k: nat :| FirstUnlock(paths[..n], k, s);
    assert paths[k] == paths[..n][k];
  }

  /** The signers stand in the order in which their keyids are first unlocked; so the cut keeps the earliest. */
  lemma {:induction false} FoundInOrder(
    authorized: set<KeyId>, paths: seq<KeyFile>, a: nat, b: nat, i: nat, j: nat)
    requires a < b < |Found(authorized, paths)|
    requires FirstUnlock(paths, i, Found(authorized, paths)[a]) && FirstUnlock(paths, j, Found(authorized, paths)[b])
    ensures i < j
  {
    if paths == [] {
    } else {
      var n := |paths| - 1;
      var before, found := Found(authorized, paths[..n]), Found(authorized, paths);
      assert before <= found && |found| <= |before| + 1;
      FirstUnlockInFront(authorized, paths, n, i, found[a]);
      if b < |before| {
        FirstUnlockInFront(authorized, paths, n, j, found[b]);
        FoundInOrder(authorized, paths[..n], a, b, i, j);
      } else {
        assert found[b] == paths[n].signer && found[b].keyid !in KeyIds(before);
      }
    }
  }

  /**
   Signing with the truncated list verifies exactly when Root's key table holds the
   listed signers' own keys; signing with the full list verifies exactly when enough of
   it is recognised, so it verifies whenever the truncated list does.
   */
  lemma DiscoveredSignersVerifyIff(w: World, paths: seq<KeyFile>, root: Root, name: RoleName, payload: Payload)
    requires w.Sound()
    requires AllSigners(paths, root, name).Some?
    ensures var all := AllSigners(paths, root, name).value;
            var cut := PemSigners(Files(paths), root, name).value;
            var message := w.canonical(payload);
            && (VerifyDelegate(w, root, name, payload, SignAll(w, message, cut))
                <==> forall s | s in cut :: Recognises(root, name, s))
            && (VerifyDelegate(w, root, name, payload, SignAll(w, message, all))
                <==> |RecognisedIds(root, name, all)| >= root.roles.At(name).threshold)
            && (VerifyDelegate(w, root, name, payload, SignAll(w, message, cut))
                ==> VerifyDelegate(w, root, name, payload, SignAll(w, message, all)))
  {
    var all := AllSigners(paths, root, name).value;
    var cut := all[..root.roles.At(name).threshold];
    QuorumVerifiesIff(w, root, name, payload, cut);
    VerifyDelegateCounts(w, root, name, payload, SignAll(w, w.canonical(payload), all));
    SignedValidSigners(w, root, name, payload, all);
    AllRecognisedIff(root, name, cut);
    assert RecognisedIds(root, name, cut) <= RecognisedIds(root, name, all);
    Subset(RecognisedIds(root, name, cut), RecognisedIds(root, name, all));
  }
}
