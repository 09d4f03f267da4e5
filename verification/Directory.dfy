/**
 `_transactional_apply`, `_atomic_apply` and the refresh's replacement of two files, on a directory of
 files, under every schedule of failing writes, replacements, rollbacks and deletions.
 */
module Directory {
  import opened Wrappers
  import opened Tuf
  import opened CurrentState

  /** A metadata file, its staging copy, its backup, or anything else in the directory. */
  datatype FileName = Live(role: RoleName) | Tmp(role: RoleName) | Bak(role: RoleName) | Other(path: string)

  /** What becomes of a write: a failed one may leave a truncated file behind. */
  datatype WriteResult = Written | NotWritten | Truncated(left: Bytes)

  /** Which file operations fail. Each is attempted at most once per apply. */
  datatype Faults = Faults(
    tmpWrite: RoleName -> WriteResult,
    bakWrite: RoleName -> WriteResult,
    forward: RoleName -> bool,
    rollback: RoleName -> bool,
    unlink: FileName -> bool)

  datatype ApplyResult = Returned | Raised(code: Code, named: seq<RoleName>)

  /** The order in which the live files are replaced. */
  const NAMES: seq<RoleName> := [TargetsRole, SnapshotRole, TimestampRole]

  /** A file's place in that order; Root has none. */
  function Rank(role: RoleName): nat {
    match role
    case TargetsRole => 0
    case SnapshotRole => 1
    case TimestampRole => 2
    case RootRole => 3
  }

  lemma RankOf(n: nat)
    requires n < 3
    ensures Rank(NAMES[n]) == n
  {
  }

  lemma RankNot(n: nat, role: RoleName)
    requires n < 3 && role != NAMES[n]
    ensures Rank(role) != n
  {
  }

  function FileOf(repo: Repo, role: RoleName): Bytes {
    match role
    case RootRole => repo.root
    case TargetsRole => repo.targets
    case SnapshotRole => repo.snapshot
    case TimestampRole => repo.timestamp
  }

  ghost predicate Same(a: map<FileName, Bytes>, b: map<FileName, Bytes>, f: FileName) {
    (f in a <==> f in b) && (f in a ==> a[f] == b[f])
  }

  /** Everything but the staging copies and backups of the three files. */
  ghost predicate OnlyScratchChanged(before: map<FileName, Bytes>, after: map<FileName, Bytes>) {
    && (forall r :: Same(before, after, Live(r)))
    && (forall p :: Same(before, after, Other(p)))
  }

  // ---- Writing -------------------------------------------------------------------------------

  function AfterWrite(files: map<FileName, Bytes>, name: FileName, data: Bytes, result: WriteResult)
    : map<FileName, Bytes>
  {
    match result
    case Written => files[name := data]
    case NotWritten => files
    case Truncated(left) => files[name := left]
  }

  predicate Writes(faults: Faults, backups: bool, role: RoleName) {
    faults.tmpWrite(role).Written? && (backups ==> faults.bakWrite(role).Written?)
  }

  /**
   How many files are written out in full before the first write that fails; only the hardened apply makes backups.
   */
  function WrittenRoles(faults: Faults, backups: bool): (n: nat)
    ensures n <= 3
    ensures forall j | 0 <= j < n :: Writes(faults, backups, NAMES[j])
    ensures n < 3 ==> !Writes(faults, backups, NAMES[n])
  {
    if !Writes(faults, backups, NAMES[0]) then 0
    else if !Writes(faults, backups, NAMES[1]) then 1
    else if !Writes(faults, backups, NAMES[2]) then 2
    else 3
  }

  function Attempted(faults: Faults, backups: bool): (n: nat)
    ensures n <= 3
  {
    var written := WrittenRoles(faults, backups);
    if written == 3 then 3 else written + 1
  }

  predicate WritesSucceed(faults: Faults) {
    forall r | r in NAMES :: faults.tmpWrite(r).Written? && faults.bakWrite(r).Written?
  }

  lemma WritesSucceedIff(faults: Faults)
    ensures WritesSucceed(faults) <==> WrittenRoles(faults, true) == 3
  {
  }

  function AfterWriteOne(files: map<FileName, Bytes>, role: RoleName, data: Bytes, faults: Faults, backups: bool)
    : map<FileName, Bytes>
    requires backups ==> Live(role) in files
  {
    var copied := AfterWrite(files, Tmp(role), data, faults.tmpWrite(role));
    if backups && faults.tmpWrite(role).Written?
    then AfterWrite(copied, Bak(role), files[Live(role)], faults.bakWrite(role))
    else copied
  }

  lemma WriteOneAt(
    files: map<FileName, Bytes>, r: RoleName, data: Bytes, faults: Faults, backups: bool, role: RoleName)
    requires backups ==> Live(r) in files
    ensures var after := AfterWriteOne(files, r, data, faults, backups);
            && (role != r ==> Same(files, after, Tmp(role)) && Same(files, after, Bak(role)))
            && (!backups ==> Same(files, after, Bak(role)))
            && (role == r && Writes(faults, backups, r) ==>
                  && Tmp(r) in after && after[Tmp(r)] == data
                  && (backups ==> Bak(r) in after && after[Bak(r)] == files[Live(r)]))
  {
  }

  /** The directory after the staging copies, and backups if wanted, of the first `n` files have been attempted. */
  function AfterWrites(files: map<FileName, Bytes>, staged: Repo, faults: Faults, backups: bool, n: nat)
    : (after: map<FileName, Bytes>)
    requires n <= 3 && (backups ==> forall r | r in NAMES :: Live(r) in files)
    ensures OnlyScratchChanged(files, after)
    decreases n
  {
    if n == 0 then files
    else
      AfterWriteOne(AfterWrites(files, staged, faults, backups, n - 1), NAMES[n - 1],
                    FileOf(staged, NAMES[n - 1]), faults, backups)
  }

  /** The staging copy of this file is in place, and its backup if there are any. */
  ghost predicate Copied(
    files: map<FileName, Bytes>, after: map<FileName, Bytes>, staged: Repo, backups: bool, role: RoleName)
  {
    && Tmp(role) in after && after[Tmp(role)] == FileOf(staged, role)
    && (backups ==> Live(role) in files && Bak(role) in after && after[Bak(role)] == files[Live(role)])
  }

  lemma LiveKept(files: map<FileName, Bytes>, staged: Repo, faults: Faults, backups: bool, n: nat, role: RoleName)
    requires n <= 3 && (backups ==> forall r | r in NAMES :: Live(r) in files)
    ensures Same(files, AfterWrites(files, staged, faults, backups, n), Live(role))
  {
  }

  lemma AllLiveKept(files: map<FileName, Bytes>, staged: Repo, faults: Faults, backups: bool)
    requires backups ==> forall r | r in NAMES :: Live(r) in files
    ensures forall r :: Same(files, AfterWrites(files, staged, faults, backups, 3), Live(r))
  {
  }

  lemma {:induction false} AfterWritesAt(
    files: map<FileName, Bytes>, staged: Repo, faults: Faults, backups: bool, n: nat, role: RoleName)
    requires n <= 3 && (backups ==> forall r | r in NAMES :: Live(r) in files)
    ensures var after := AfterWrites(files, staged, faults, backups, n);
            && (Rank(role) < n && Rank(role) < WrittenRoles(faults, backups) ==>
                  Copied(files, after, staged, backups, role))
            && (n <= Rank(role) ==> Same(files, after, Tmp(role)) && Same(files, after, Bak(role)))
            && (!backups ==> Same(files, after, Bak(role)))
    decreases n
  {
    if n == 0 {
    } else {
      hide AfterWriteOne, Writes, FileOf, OnlyScratchChanged, WrittenRoles, Rank;
      var before, r := AfterWrites(files, staged, faults, backups, n - 1), NAMES[n - 1];
      AfterWritesAt(files, staged, faults, backups, n - 1, role);
      RankOf(n - 1);
      WriteOneAt(before, r, FileOf(staged, r), faults, backups, role);
      if role == r {
        LiveKept(files, staged, faults, backups, n - 1, role);
      } else {
        RankNot(n - 1, role);
      }
    }
  }

  lemma AllCopied(files: map<FileName, Bytes>, staged: Repo, faults: Faults, backups: bool)
    requires WrittenRoles(faults, backups) == 3 && (backups ==> forall r | r in NAMES :: Live(r) in files)
    ensures forall r | r in NAMES :: Copied(files, AfterWrites(files, staged, faults, backups, 3), staged, backups, r)
  {
  }

  // ---- Replacing and rolling back ------------------------------------------------------------

  /** How many forward replacements succeed before the first that fails. */
  function Done(faults: Faults): (n: nat)
    ensures n <= 3
  {
    if faults.forward(TargetsRole) then 0
    else if faults.forward(SnapshotRole) then 1
    else if faults.forward(TimestampRole) then 2
    else 3
  }

  function Select(role: RoleName, chosen: bool): seq<RoleName> {
    if chosen then [role] else []
  }

  /** The replaced files whose rollback fails, in the order in which rollback visits them. */
  function NotRestored(faults: Faults, done: nat): seq<RoleName>
    requires done <= 3
  {
    if done == 0 then []
    else Select(NAMES[done - 1], faults.rollback(NAMES[done - 1])) + NotRestored(faults, done - 1)
  }

  lemma {:induction false} OnlyNames(faults: Faults, done: nat)
    requires done <= 3
    ensures forall role | role in NotRestored(faults, done) :: role in NAMES
  {
    if done == 0 {
    } else {
      OnlyNames(faults, done - 1);
    }
  }

  lemma {:induction false} NotRestoredAre(faults: Faults, done: nat)
    requires done <= 3
    ensures forall j | 0 <= j < 3 :: NAMES[j] in NotRestored(faults, done) <==> j < done && faults.rollback(NAMES[j])
  {
    if done == 0 {
    } else {
      NotRestoredAre(faults, done - 1);
      assert forall j | 0 <= j < 3 && j != done - 1 :: NAMES[j] != NAMES[done - 1];
    }
  }

  /** Whether a file is left holding its staged contents. */
  predicate Lands(faults: Faults, role: RoleName) {
    && WritesSucceed(faults)
    && role in NAMES
    && (Done(faults) == 3 || role in NotRestored(faults, Done(faults)))
  }

  /** The generation that is live after an apply. */
  function ApplyEffect(before: Repo, staged: Repo, faults: Faults): Repo {
    Mixed(before, staged, Mix(Lands(faults, TargetsRole), Lands(faults, SnapshotRole), Lands(faults, TimestampRole)))
  }

  /** The same for the base engine, which has no backups: whatever was replaced stays replaced. */
  predicate LandsUnguarded(faults: Faults, role: RoleName) {
    && (forall r | r in NAMES :: faults.tmpWrite(r).Written?)
    && Rank(role) < Done(faults)
  }

  /** What the apply reports, when its clean-up does not itself fail. */
  function ApplyReport(faults: Faults): ApplyResult {
    if !WritesSucceed(faults) then Raised(UnexpectedCeremonyError, [])
    else if Done(faults) == 3 then Returned
    else if NotRestored(faults, Done(faults)) != [] then
      Raised(MetadataApplyRollbackFailed, NotRestored(faults, Done(faults)))
    else Raised(MetadataApplyRolledBack, [])
  }

  /**
   What each report means for the three files. Returned: all are new. Rolled back, or stopped while
   writing: all are the originals. Rollback failed: exactly the named ones are new, there is at least
   one, and Timestamp is never among them.
   */
  lemma ReportMeans(faults: Faults)
    ensures match ApplyReport(faults)
            case Returned => forall role | role in NAMES :: Lands(faults, role)
            case Raised(MetadataApplyRollbackFailed, named) =>
              && (TargetsRole in named || SnapshotRole in named) && TimestampRole !in named
              && forall role :: Lands(faults, role) <==> role in named
            case Raised(code, named) =>
              && (code == MetadataApplyRolledBack || code == UnexpectedCeremonyError)
              && forall role :: !Lands(faults, role)
  {
    NotRestoredAre(faults, Done(faults));
    OnlyNames(faults, Done(faults));
    assert NAMES[0] == TargetsRole && NAMES[1] == SnapshotRole && NAMES[2] == TimestampRole;
    var named := NotRestored(faults, Done(faults));
    assert named != [] ==> named[0] in named;
  }

  /**
   Which files land, spelled out on the schedule: all three if nothing fails; otherwise those replaced before the
   first failure whose rollback fails, so never Timestamp.
   */
  lemma LandsIff(faults: Faults)
    ensures var none := !faults.forward(TargetsRole) && !faults.forward(SnapshotRole) && !faults.forward(TimestampRole);
            && (Lands(faults, TargetsRole) <==>
                  && WritesSucceed(faults)
                  && (none || (!faults.forward(TargetsRole) && faults.rollback(TargetsRole))))
            && (Lands(faults, SnapshotRole) <==>
                  && WritesSucceed(faults)
                  && (none || (!faults.forward(TargetsRole) && !faults.forward(SnapshotRole)
                               && faults.rollback(SnapshotRole))))
            && (Lands(faults, TimestampRole) <==> WritesSucceed(faults) && none)
  {
    NotRestoredAre(faults, Done(faults));
    assert NAMES[0] == TargetsRole && NAMES[1] == SnapshotRole && NAMES[2] == TimestampRole;
  }

  /** The error of an incomplete rollback names the files that stay new, last replaced first. */
  lemma NamedInReverse(faults: Faults)
    requires ApplyReport(faults).Raised? && ApplyReport(faults).code == MetadataApplyRollbackFailed
    ensures ApplyReport(faults).named
         == (if Lands(faults, SnapshotRole) then [SnapshotRole] else [])
            + (if Lands(faults, TargetsRole) then [TargetsRole] else [])
  {
    LandsIff(faults);
    assert NAMES[0] == TargetsRole && NAMES[1] == SnapshotRole;
    assert NotRestored(faults, 0) == [];
    assert NotRestored(faults, 1) == Select(TargetsRole, faults.rollback(TargetsRole));
    assert NotRestored(faults, 2)
        == Select(SnapshotRole, faults.rollback(SnapshotRole)) + Select(TargetsRole, faults.rollback(TargetsRole));
  }

  function Moved(files: map<FileName, Bytes>, role: RoleName): map<FileName, Bytes>
    requires Tmp(role) in files
  {
    (files - {Tmp(role)})[Live(role) := files[Tmp(role)]]
  }

  /** The directory after the first `n` staging copies have replaced their live files. */
  function AfterMoves(files: map<FileName, Bytes>, n: nat): (after: map<FileName, Bytes>)
    requires n <= 3 && forall r | r in NAMES :: Tmp(r) in files
    ensures forall j | n <= j < 3 :: Same(files, after, Tmp(NAMES[j]))
  {
    if n == 0 then files
    else
      assert forall j | n <= j < 3 :: NAMES[j] != NAMES[n - 1];
      Moved(AfterMoves(files, n - 1), NAMES[n - 1])
  }

  lemma {:induction false} AfterMovesAt(files: map<FileName, Bytes>, n: nat, role: RoleName)
    requires n <= 3 && forall r | r in NAMES :: Tmp(r) in files
    ensures var after := AfterMoves(files, n);
            && (Rank(role) < n ==>
                  && Live(role) in after && after[Live(role)] == files[Tmp(role)]
                  && Tmp(role) !in after)
            && (n <= Rank(role) ==> Same(files, after, Live(role)) && Same(files, after, Tmp(role)))
            && Same(files, after, Bak(role))
            && (forall p :: Same(files, after, Other(p)))
  {
    if n == 0 {
    } else {
      AfterMovesAt(files, n - 1, role);
      assert Rank(NAMES[n - 1]) == n - 1;
    }
  }

  function Restored(files: map<FileName, Bytes>, role: RoleName): map<FileName, Bytes> {
    if Bak(role) in files then (files - {Bak(role)})[Live(role) := files[Bak(role)]] else files
  }

  /** The directory after the first `n` files have been rolled back, last one first. */
  function AfterRollback(files: map<FileName, Bytes>, faults: Faults, n: nat): map<FileName, Bytes>
    requires n <= 3
    decreases n
  {
    if n == 0 then files
    else
      var r := NAMES[n - 1];
      AfterRollback(if faults.rollback(r) then files else Restored(files, r), faults, n - 1)
  }

  lemma UnfoldRollback(files: map<FileName, Bytes>, faults: Faults, n: nat)
    requires n <= 3
    ensures n == 0 ==> NotRestored(faults, n) == [] && AfterRollback(files, faults, n) == files
    ensures n > 0 ==>
              && NotRestored(faults, n)
                 == Select(NAMES[n - 1], faults.rollback(NAMES[n - 1])) + NotRestored(faults, n - 1)
              && AfterRollback(files, faults, n)
                 == AfterRollback(if faults.rollback(NAMES[n - 1]) then files else Restored(files, NAMES[n - 1]),
                                  faults, n - 1)
  {
  }

  lemma {:induction false} AfterRollbackAt(files: map<FileName, Bytes>, faults: Faults, n: nat, role: RoleName)
    requires n <= 3 && (Rank(role) < n ==> Bak(role) in files)
    ensures var after := AfterRollback(files, faults, n);
            && (if Rank(role) < n && !faults.rollback(role) then
                  && Bak(role) !in after
                  && Live(role) in after && after[Live(role)] == files[Bak(role)]
                else
                  Same(files, after, Live(role)) && Same(files, after, Bak(role)))
            && Same(files, after, Tmp(role))
            && (forall p :: Same(files, after, Other(p)))
    decreases n
  {
    if n == 0 {
    } else {
      var r := NAMES[n - 1];
      assert Rank(r) == n - 1;
      AfterRollbackAt(if faults.rollback(r) then files else Restored(files, r), faults, n - 1, role);
    }
  }

  /** The backups still on record once the replacements are over: a restored file's backup is taken off the record. */
  function BackupsLeft(faults: Faults): set<RoleName> {
    set r | r in NAMES && (Done(faults) == 3 || Rank(r) >= Done(faults) || faults.rollback(r))
  }

  /** The replacements and, if one fails, the rollback. */
  function Swapped(files: map<FileName, Bytes>, faults: Faults): map<FileName, Bytes>
    requires forall r | r in NAMES :: Tmp(r) in files
  {
    var moved := AfterMoves(files, Done(faults));
    if Done(faults) == 3 then moved else AfterRollback(moved, faults, Done(faults))
  }

  /**
   Each live file ends with its staged or its original bytes; staging copies that were not moved are
   still there, and so are exactly the backups on record.
   */
  lemma SwappedAt(files: map<FileName, Bytes>, faults: Faults, role: RoleName)
    requires WritesSucceed(faults)
    requires forall r | r in NAMES ::
               && Tmp(r) in files && Live(r) in files
               && Bak(r) in files && files[Bak(r)] == files[Live(r)]
    ensures var after := Swapped(files, faults);
            && (if role in NAMES then
                  && Live(role) in after
                  && after[Live(role)] == files[if Lands(faults, role) then Tmp(role) else Live(role)]
                  && (Tmp(role) in after <==> Rank(role) >= Done(faults))
                  && (Bak(role) in after <==> role in BackupsLeft(faults))
                  && (Bak(role) in after ==> after[Bak(role)] == files[Live(role)])
                else Same(files, after, Live(role)))
            && (forall p :: Same(files, after, Other(p)))
  {
    hide AfterMoves, AfterRollback, NotRestored;
    var done := Done(faults);
    AfterMovesAt(files, done, role);
    if done < 3 {
      AfterRollbackAt(AfterMoves(files, done), faults, done, role);
      NotRestoredAre(faults, done);
      assert role in NAMES ==> NAMES[Rank(role)] == role;
    }
  }

  // ---- Cleaning up ---------------------------------------------------------------------------

  function BackupOf(role: RoleName, backups: set<RoleName>): seq<FileName> {
    if role in backups then [Bak(role)] else []
  }

  /** The scratch files on record, in the order of deletion: staging copies, then backups. */
  function Scratch(written: nat, backups: set<RoleName>): seq<FileName>
    requires written <= 3
  {
    [Tmp(TargetsRole), Tmp(SnapshotRole), Tmp(TimestampRole)][..written]
    + (BackupOf(TargetsRole, backups) + BackupOf(SnapshotRole, backups) + BackupOf(TimestampRole, backups))
  }

  lemma ScratchHas(written: nat, backups: set<RoleName>)
    requires written <= 3
    ensures forall f | f in Scratch(written, backups) :: (f.Tmp? || f.Bak?) && f.role in NAMES
    ensures Distinct(Scratch(written, backups))
    ensures forall r | r in NAMES :: Tmp(r) in Scratch(written, backups) <==> Rank(r) < written
    ensures forall r | r in NAMES :: Bak(r) in Scratch(written, backups) <==> r in backups
  {
    var temps := [Tmp(TargetsRole), Tmp(SnapshotRole), Tmp(TimestampRole)];
    assert forall r | r in NAMES && Rank(r) < written :: temps[..written][Rank(r)] == Tmp(r);
  }

  /** How many deletions succeed before the first that fails. */
  function FirstFailing(names: seq<FileName>, faults: Faults): (n: nat)
    ensures n <= |names|
    ensures forall j | 0 <= j < n :: !faults.unlink(names[j])
    ensures n < |names| ==> faults.unlink(names[n])
  {
    if names == [] || faults.unlink(names[0]) then 0 else 1 + FirstFailing(names[1..], faults)
  }

  /** What the `finally` block leaves of the files on record: the first one it cannot delete, and all after it. */
  function Undeleted(names: seq<FileName>, faults: Faults): seq<FileName> {
    names[FirstFailing(names, faults)..]
  }

  function Without(files: map<FileName, Bytes>, names: seq<FileName>): map<FileName, Bytes> {
    files - (set f | f in names)
  }

  function CleanedUp(files: map<FileName, Bytes>, names: seq<FileName>, faults: Faults): map<FileName, Bytes> {
    Without(files, names[..FirstFailing(names, faults)])
  }

  /** A file on record is either deleted or left, never both. */
  lemma DeletedOrLeft(names: seq<FileName>, faults: Faults)
    requires Distinct(names)
    ensures forall f | f in names :: f in Undeleted(names, faults) <==> f !in names[..FirstFailing(names, faults)]
  {
  }

  // ---- The whole of each operation -----------------------------------------------------------

  /** What `_transactional_apply` has on record when its `finally` block runs. */
  function OnRecord(faults: Faults): seq<FileName> {
    var written := WrittenRoles(faults, true);
    Scratch(written, if written == 3 then BackupsLeft(faults) else set r | r in NAMES[..written])
  }

  /** The directory when `_transactional_apply` reaches its `finally` block. */
  function ReplacedFiles(files: map<FileName, Bytes>, staged: Repo, faults: Faults): map<FileName, Bytes>
    requires forall r | r in NAMES :: Live(r) in files
  {
    var copied := AfterWrites(files, staged, faults, true, Attempted(faults, true));
    if WrittenRoles(faults, true) < 3 then copied
    else
      AllCopied(files, staged, faults, true);
      Swapped(copied, faults)
  }

  lemma ReplacedAt(files: map<FileName, Bytes>, staged: Repo, faults: Faults, role: RoleName)
    requires forall r | r in NAMES :: Live(r) in files
    requires role in NAMES
    ensures var after := ReplacedFiles(files, staged, faults);
            && Live(role) in after
            && after[Live(role)] == (if Lands(faults, role) then FileOf(staged, role) else files[Live(role)])
            && (WritesSucceed(faults) ==>
                  && (Tmp(role) in after <==> Rank(role) >= Done(faults))
                  && (Bak(role) in after <==> role in BackupsLeft(faults))
                  && (Bak(role) in after ==> after[Bak(role)] == files[Live(role)]))
            && (Rank(role) < WrittenRoles(faults, true) < 3 ==> Copied(files, after, staged, true, role))
  {
    hide AfterWrites, Swapped, BackupsLeft, OnlyScratchChanged;
    WritesSucceedIff(faults);
    AfterWritesAt(files, staged, faults, true, Attempted(faults, true), role);
    LiveKept(files, staged, faults, true, Attempted(faults, true), role);
    if WrittenRoles(faults, true) == 3 {
      AllCopied(files, staged, faults, true);
      AllLiveKept(files, staged, faults, true);
      SwappedAt(AfterWrites(files, staged, faults, true, 3), faults, role);
    }
  }

  lemma OnRecordHas(faults: Faults, role: RoleName)
    requires role in NAMES
    ensures Distinct(OnRecord(faults))
    ensures Tmp(role) in OnRecord(faults) <==> Rank(role) < WrittenRoles(faults, true)
    ensures Bak(role) in OnRecord(faults)
       <==> if WrittenRoles(faults, true) == 3 then role in BackupsLeft(faults)
            else Rank(role) < WrittenRoles(faults, true)
    ensures forall f | f in OnRecord(faults) :: (f.Tmp? || f.Bak?) && f.role in NAMES
  {
    hide BackupsLeft;
    var written := WrittenRoles(faults, true);
    var backups := if written == 3 then BackupsLeft(faults) else set r | r in NAMES[..written];
    assert role in NAMES[..written] <==> Rank(role) < written by {
      assert Rank(role) < written ==> NAMES[..written][Rank(role)] == role;
    }
    ScratchHas(written, backups);
  }

  /** The directory after it. */
  function ApplyFiles(files: map<FileName, Bytes>, staged: Repo, faults: Faults): map<FileName, Bytes>
    requires forall r | r in NAMES :: Live(r) in files
  {
    CleanedUp(ReplacedFiles(files, staged, faults), OnRecord(faults), faults)
  }

  /** What it reports: a deletion that fails hides every other outcome. */
  function FullReport(faults: Faults): ApplyResult {
    if Undeleted(OnRecord(faults), faults) != [] then Raised(UnexpectedCeremonyError, []) else ApplyReport(faults)
  }

  /**
   What the hardened apply leaves of one of its three files, under every schedule: the live file, and whether
   its staging copy and its backup outlive the call. A file of scratch outlives it exactly when it was still
   there and its deletion, or an earlier one, failed; what a failed write leaves was never on record.
   */
  lemma ApplyFilesAt(files: map<FileName, Bytes>, staged: Repo, faults: Faults, role: RoleName)
    requires forall r | r in NAMES :: Live(r) in files
    requires role in NAMES
    ensures var after := ApplyFiles(files, staged, faults);
            var left := Undeleted(OnRecord(faults), faults);
            && Live(role) in after
            && after[Live(role)] == (if Lands(faults, role) then FileOf(staged, role) else files[Live(role)])
            && (WritesSucceed(faults) ==>
                  && (Tmp(role) in after <==> Rank(role) >= Done(faults) && Tmp(role) in left)
                  && (Bak(role) in after <==> Bak(role) in left)
                  && (Bak(role) in after ==> after[Bak(role)] == files[Live(role)]))
            && (Rank(role) < WrittenRoles(faults, true) < 3 ==>
                  && (Tmp(role) in after <==> Tmp(role) in left)
                  && (Bak(role) in after <==> Bak(role) in left)
                  && (Bak(role) in after ==> after[Bak(role)] == files[Live(role)]))
  {
    hide ReplacedFiles, Lands, BackupsLeft, OnRecord, FirstFailing;
    WritesSucceedIff(faults);
    ReplacedAt(files, staged, faults, role);
    OnRecordHas(faults, role);
    DeletedOrLeft(OnRecord(faults), faults);
  }

  /** Cleaning up keeps what is not on record. */
  lemma OthersKept(files: map<FileName, Bytes>, names: seq<FileName>, faults: Faults)
    ensures forall f | f !in names :: Same(files, CleanedUp(files, names, faults), f)
  {
  }

  lemma OneMoreWrite(files: map<FileName, Bytes>, staged: Repo, faults: Faults, n: nat)
    requires n < 3 && forall r | r in NAMES :: Live(r) in files
    ensures Live(NAMES[n]) in AfterWrites(files, staged, faults, true, n)
    ensures AfterWrites(files, staged, faults, true, n + 1)
         == AfterWriteOne(AfterWrites(files, staged, faults, true, n), NAMES[n], FileOf(staged, NAMES[n]), faults, true)
  {
    assert NAMES[n] in NAMES;
  }

  /** What one write makes of one file. */
  ghost predicate WriteLeaves(
    before: map<FileName, Bytes>, after: map<FileName, Bytes>, f: FileName, data: Bytes, result: WriteResult)
  {
    match result
    case Written => f in after && after[f] == data
    case NotWritten => Same(before, after, f)
    case Truncated(left) => f in after && after[f] == left
  }

  /**
   What a failed write leaves behind, because only complete pairs are on record for deletion: the staging copy as
   its write left it, and, if that was complete, the backup as its write left it. The files that come after are
   not touched.
   */
  lemma FailedWriteLeaves(files: map<FileName, Bytes>, staged: Repo, faults: Faults, role: RoleName)
    requires (forall r | r in NAMES :: Live(r) in files) && role in NAMES
    requires WrittenRoles(faults, true) < 3 && WrittenRoles(faults, true) <= Rank(role)
    ensures var after := ApplyFiles(files, staged, faults);
            if WrittenRoles(faults, true) < Rank(role) then
              Same(files, after, Tmp(role)) && Same(files, after, Bak(role))
            else
              && WriteLeaves(files, after, Tmp(role), FileOf(staged, role), faults.tmpWrite(role))
              && (if faults.tmpWrite(role).Written?
                  then WriteLeaves(files, after, Bak(role), files[Live(role)], faults.bakWrite(role))
                  else Same(files, after, Bak(role)))
  {
    hide WrittenRoles, AfterWrites, FirstFailing, OnRecord, FileOf;
    var n := WrittenRoles(faults, true);
    var before := AfterWrites(files, staged, faults, true, n);
    OnRecordHas(faults, role);
    OthersKept(ReplacedFiles(files, staged, faults), OnRecord(faults), faults);
    AfterWritesAt(files, staged, faults, true, n, role);
    AfterWritesAt(files, staged, faults, true, n + 1, role);
    LiveKept(files, staged, faults, true, n, role);
    RankOf(n);
    OneMoreWrite(files, staged, faults, n);
    if Rank(role) == n {
      assert NAMES[n] == role;
    }
  }

  /** Nothing but the three files and their scratch is touched. */
  lemma ApplyKeepsRest(files: map<FileName, Bytes>, staged: Repo, faults: Faults)
    requires forall r | r in NAMES :: Live(r) in files
    ensures var after := ApplyFiles(files, staged, faults);
            Same(files, after, Live(RootRole)) && forall p :: Same(files, after, Other(p))
  {
    hide AfterMoves, AfterRollback, OnRecord, FirstFailing, AfterWrites;
    WritesSucceedIff(faults);
    OnRecordHas(faults, TargetsRole);
    if WrittenRoles(faults, true) == 3 {
      AllCopied(files, staged, faults, true);
      AllLiveKept(files, staged, faults, true);
      SwappedAt(AfterWrites(files, staged, faults, true, 3), faults, RootRole);
    }
    var replaced := ReplacedFiles(files, staged, faults);
    assert forall p :: Same(files, replaced, Other(p)) by {
      var copied := AfterWrites(files, staged, faults, true, Attempted(faults, true));
      assert forall p :: Same(files, copied, Other(p)) && Same(copied, replaced, Other(p));
    }
    OthersKept(replaced, OnRecord(faults), faults);
    assert forall p :: Same(replaced, ApplyFiles(files, staged, faults), Other(p));
  }

  /** It returns normally exactly when no write, no replacement and no deletion fails. */
  lemma ReturnsIff(faults: Faults)
    ensures FullReport(faults).Returned?
       <==> forall r | r in NAMES ::
              && faults.tmpWrite(r).Written? && faults.bakWrite(r).Written? && !faults.forward(r)
              && !faults.unlink(Tmp(r)) && !faults.unlink(Bak(r))
  {
    hide FirstFailing, Scratch;
    var n, names := FirstFailing(OnRecord(faults), faults), OnRecord(faults);
    WritesSucceedIff(faults);
    forall r | r in NAMES
      ensures WritesSucceed(faults) && Done(faults) == 3 ==> Tmp(r) in names && Bak(r) in names
    {
      OnRecordHas(faults, r);
    }
    OnRecordHas(faults, TargetsRole);
    if n < |names| {
      assert names[n] in names;
    }
  }

  /**
   The first named file in the order of replacement; its backup is the first on record after an incomplete rollback.
   */
  function FirstNamed(named: seq<RoleName>): RoleName {
    if TargetsRole in named then TargetsRole else SnapshotRole
  }

  /**
   The error text of an incomplete rollback asks that the backups be kept, but the `finally` block
   deletes them. The backup of every named file outlives the call if and only if one of the
   deletions before them, or that of the first of them, fails.
   */
  lemma BackupsOutliveIff(faults: Faults)
    requires ApplyReport(faults).Raised? && ApplyReport(faults).code == MetadataApplyRollbackFailed
    ensures var named := ApplyReport(faults).named;
            (forall role | role in named :: Bak(role) in Undeleted(OnRecord(faults), faults))
            <==> || faults.unlink(Tmp(TargetsRole)) || faults.unlink(Tmp(SnapshotRole))
                 || faults.unlink(Tmp(TimestampRole)) || faults.unlink(Bak(FirstNamed(named)))
  {
    hide NotRestored, FirstFailing, Lands;
    var named, names, n := ApplyReport(faults).named, OnRecord(faults), FirstFailing(OnRecord(faults), faults);
    ReportMeans(faults);
    NotRestoredAre(faults, Done(faults));
    OnlyNames(faults, Done(faults));
    WritesSucceedIff(faults);
    assert NAMES[0] == TargetsRole && NAMES[1] == SnapshotRole;
    var temps := [Tmp(TargetsRole), Tmp(SnapshotRole), Tmp(TimestampRole)];
    assert temps[..3] == temps;
    assert names[0] == Tmp(TargetsRole) && names[1] == Tmp(SnapshotRole) && names[2] == Tmp(TimestampRole);
    assert names[3] == Bak(FirstNamed(named));
    OnRecordHas(faults, TargetsRole);
    OnRecordHas(faults, SnapshotRole);
    DeletedOrLeft(names, faults);
    if n > 3 {
      assert names[..n][3] == Bak(FirstNamed(named));
    } else {
      forall role | role in named
        ensures Bak(role) in Undeleted(names, faults)
      {
        assert Bak(role) in names;
        assert forall j | 0 <= j < n :: names[..n][j] in temps;
      }
    }
  }

  /**
   A schedule that leaves Targets new and its original nowhere: the second replacement and then the only rollback fail.
   */
  const LOST_ORIGINAL := Faults(r => Written, r => Written, r => r == SnapshotRole, r => r == TargetsRole, f => false)

  /** An incomplete rollback after which no backup is left. */
  lemma BackupsAreDeleted(files: map<FileName, Bytes>, staged: Repo)
    requires forall r | r in NAMES :: Live(r) in files
    ensures FullReport(LOST_ORIGINAL) == Raised(MetadataApplyRollbackFailed, [TargetsRole])
    ensures var after := ApplyFiles(files, staged, LOST_ORIGINAL);
            && Live(TargetsRole) in after && after[Live(TargetsRole)] == staged.targets
            && forall r | r in NAMES :: Bak(r) !in after
  {
    var faults := LOST_ORIGINAL;
    assert Done(faults) == 1 && WritesSucceed(faults);
    assert NotRestored(faults, 0) == [];
    assert NAMES[0] == TargetsRole && NotRestored(faults, 1) == [TargetsRole];
    forall r | r in NAMES
      ensures Bak(r) !in ApplyFiles(files, staged, faults)
    {
      ApplyFilesAt(files, staged, faults, r);
    }
    ApplyFilesAt(files, staged, faults, TargetsRole);
  }

  /** The directory when `_atomic_apply`, which makes no backups, reaches its `finally` block. */
  function AtomicReplaced(files: map<FileName, Bytes>, staged: Repo, faults: Faults): map<FileName, Bytes> {
    var copied := AfterWrites(files, staged, faults, false, Attempted(faults, false));
    if WrittenRoles(faults, false) < 3 then copied
    else
      AllCopied(files, staged, faults, false);
      AfterMoves(copied, Done(faults))
  }

  /** The directory after it. */
  function AtomicFiles(files: map<FileName, Bytes>, staged: Repo, faults: Faults): map<FileName, Bytes> {
    CleanedUp(AtomicReplaced(files, staged, faults), Scratch(WrittenRoles(faults, false), {}), faults)
  }

  /** What it reports; every failure is an unexpected error. */
  function AtomicReport(faults: Faults): ApplyResult {
    var written := WrittenRoles(faults, false);
    if written == 3 && Done(faults) == 3 && Undeleted(Scratch(written, {}), faults) == [] then Returned
    else Raised(UnexpectedCeremonyError, [])
  }

  lemma UnguardedIff(faults: Faults)
    ensures (forall r | r in NAMES :: faults.tmpWrite(r).Written?) <==> WrittenRoles(faults, false) == 3
  {
  }

  lemma AtomicReplacedAt(files: map<FileName, Bytes>, staged: Repo, faults: Faults, role: RoleName)
    ensures var after := AtomicReplaced(files, staged, faults);
            && (if LandsUnguarded(faults, role) then Live(role) in after && after[Live(role)] == FileOf(staged, role)
                else Same(files, after, Live(role)))
            && (forall p :: Same(files, after, Other(p)))
  {
    hide AfterMoves, AfterWrites;
    UnguardedIff(faults);
    var copied := AfterWrites(files, staged, faults, false, Attempted(faults, false));
    AfterWritesAt(files, staged, faults, false, Attempted(faults, false), role);
    if WrittenRoles(faults, false) == 3 {
      AllCopied(files, staged, faults, false);
      AfterMovesAt(copied, Done(faults), role);
      assert Same(files, copied, Live(role));
      assert forall p :: Same(files, copied, Other(p));
    }
  }

  lemma AtomicFilesAt(files: map<FileName, Bytes>, staged: Repo, faults: Faults, role: RoleName)
    ensures var after := AtomicFiles(files, staged, faults);
            && (if LandsUnguarded(faults, role) then Live(role) in after && after[Live(role)] == FileOf(staged, role)
                else Same(files, after, Live(role)))
            && (forall p :: Same(files, after, Other(p)))
  {
    hide AtomicReplaced, Scratch, CleanedUp, LandsUnguarded;
    var replaced, names := AtomicReplaced(files, staged, faults), Scratch(WrittenRoles(faults, false), {});
    AtomicReplacedAt(files, staged, faults, role);
    ScratchHas(WrittenRoles(faults, false), {});
    OthersKept(replaced, names, faults);
    assert forall p :: Same(replaced, AtomicFiles(files, staged, faults), Other(p));
  }

  lemma AtomicReportMeans(faults: Faults)
    ensures AtomicReport(faults).Returned? ==> forall role | role in NAMES :: LandsUnguarded(faults, role)
    ensures !LandsUnguarded(faults, RootRole)
  {
    UnguardedIff(faults);
  }

  /** The base apply returns normally exactly when no write, no replacement and no deletion fails. */
  lemma AtomicReturnsIff(faults: Faults)
    ensures AtomicReport(faults).Returned?
       <==> forall r | r in NAMES :: faults.tmpWrite(r).Written? && !faults.forward(r) && !faults.unlink(Tmp(r))
  {
    hide FirstFailing, Scratch;
    var written := WrittenRoles(faults, false);
    var names := Scratch(written, {});
    var n := FirstFailing(names, faults);
    UnguardedIff(faults);
    ScratchHas(written, {});
    if n < |names| {
      assert names[n] in names;
    }
  }

  /** Which files the base apply leaves new, spelled out on the schedule. */
  lemma LandsUnguardedIff(faults: Faults)
    ensures var written := forall r | r in NAMES :: faults.tmpWrite(r).Written?;
            && (LandsUnguarded(faults, TargetsRole) <==> written && !faults.forward(TargetsRole))
            && (LandsUnguarded(faults, SnapshotRole) <==>
                  written && !faults.forward(TargetsRole) && !faults.forward(SnapshotRole))
            && (LandsUnguarded(faults, TimestampRole) <==>
                  && written && !faults.forward(TargetsRole) && !faults.forward(SnapshotRole)
                  && !faults.forward(TimestampRole))
  {
  }

  const PAIR_SCRATCH: seq<FileName> := [Tmp(SnapshotRole), Tmp(TimestampRole)]

  predicate PairWritten(faults: Faults) {
    faults.tmpWrite(SnapshotRole).Written? && faults.tmpWrite(TimestampRole).Written?
  }

  /** Whether the refresh replaces this file. */
  predicate PairLands(faults: Faults, role: RoleName) {
    && PairWritten(faults)
    && (role == SnapshotRole || role == TimestampRole)
    && !faults.forward(SnapshotRole) && (role == TimestampRole ==> !faults.forward(TimestampRole))
  }

  /** Whether it ends normally. */
  predicate PairReport(faults: Faults) {
    PairLands(faults, TimestampRole) && Undeleted(PAIR_SCRATCH, faults) == []
  }

  /** The directory after the refresh has replaced the pair; the `finally` block starts after the writes. */
  function PairFiles(files: map<FileName, Bytes>, staged: Repo, faults: Faults): map<FileName, Bytes> {
    var first := AfterWrite(files, Tmp(SnapshotRole), staged.snapshot, faults.tmpWrite(SnapshotRole));
    if !faults.tmpWrite(SnapshotRole).Written? then first
    else
      var second := AfterWrite(first, Tmp(TimestampRole), staged.timestamp, faults.tmpWrite(TimestampRole));
      if !PairWritten(faults) then second else CleanedUp(PairMoved(second, faults), PAIR_SCRATCH, faults)
  }

  function PairMoved(files: map<FileName, Bytes>, faults: Faults): map<FileName, Bytes>
    requires Tmp(SnapshotRole) in files && Tmp(TimestampRole) in files
  {
    if faults.forward(SnapshotRole) then files
    else if faults.forward(TimestampRole) then Moved(files, SnapshotRole)
    else Moved(Moved(files, SnapshotRole), TimestampRole)
  }

  /** The refresh ends normally exactly when no write, no replacement and no deletion fails. */
  lemma PairReturnsIff(faults: Faults)
    ensures PairReport(faults)
       <==> && faults.tmpWrite(SnapshotRole).Written? && faults.tmpWrite(TimestampRole).Written?
            && !faults.forward(SnapshotRole) && !faults.forward(TimestampRole)
            && !faults.unlink(Tmp(SnapshotRole)) && !faults.unlink(Tmp(TimestampRole))
  {
    hide FirstFailing;
    var n := FirstFailing(PAIR_SCRATCH, faults);
    assert PAIR_SCRATCH[0] == Tmp(SnapshotRole) && PAIR_SCRATCH[1] == Tmp(TimestampRole);
    assert Undeleted(PAIR_SCRATCH, faults) == [] <==> n == 2;
  }

  lemma PairMovedAt(files: map<FileName, Bytes>, faults: Faults, role: RoleName)
    requires PairWritten(faults) && Tmp(SnapshotRole) in files && Tmp(TimestampRole) in files
    ensures var after := PairMoved(files, faults);
            && (if PairLands(faults, role) then
                  && Tmp(role) in files && Live(role) in after && after[Live(role)] == files[Tmp(role)]
                  && Tmp(role) !in after
                else Same(files, after, Live(role)) && Same(files, after, Tmp(role)))
            && Same(files, after, Bak(role))
            && (forall p :: Same(files, after, Other(p)))
  {
  }

  /**
   What the refresh leaves of one file: it is new exactly when its turn came and its replacement worked. A
   temporary file outlives the call when a write failed, or when it was not moved and its deletion was never
   reached or failed.
   */
  lemma PairFilesAt(files: map<FileName, Bytes>, staged: Repo, faults: Faults, role: RoleName)
    ensures var after := PairFiles(files, staged, faults);
            && (if PairLands(faults, role) then Live(role) in after && after[Live(role)] == FileOf(staged, role)
                else Same(files, after, Live(role)))
            && (PairWritten(faults) && (role == SnapshotRole || role == TimestampRole) ==>
                  (Tmp(role) in after <==> !PairLands(faults, role) && Tmp(role) in Undeleted(PAIR_SCRATCH, faults)))
            && (!PairWritten(faults) && faults.tmpWrite(SnapshotRole).Written? ==> Tmp(SnapshotRole) in after)
            && Same(files, after, Bak(role))
            && (forall p :: Same(files, after, Other(p)))
  {
    if PairWritten(faults) {
      hide FirstFailing, PairMoved;
      var written := files[Tmp(SnapshotRole) := staged.snapshot][Tmp(TimestampRole) := staged.timestamp];
      PairMovedAt(written, faults, role);
      DeletedOrLeft(PAIR_SCRATCH, faults);
    }
  }

  lemma ReturnedMeansNew(faults: Faults)
    ensures FullReport(faults).Returned? ==> forall role | role in NAMES :: Lands(faults, role)
  {
    ReportMeans(faults);
  }

  lemma ReportOfFailedWrite(faults: Faults)
    ensures !WritesSucceed(faults) ==> ApplyReport(faults) == Raised(UnexpectedCeremonyError, [])
  {
  }

  class MetadataDirectory {
    var files: map<FileName, Bytes>

    constructor (files: map<FileName, Bytes>)
      ensures this.files == files
    {
      this.files := files;
    }

    predicate Complete()
      reads this
    {
      && Live(RootRole) in files && Live(TargetsRole) in files
      && Live(SnapshotRole) in files && Live(TimestampRole) in files
    }

    function Current(): Repo
      requires Complete()
      reads this
    {
      Repo(files[Live(RootRole)], files[Live(TargetsRole)], files[Live(SnapshotRole)], files[Live(TimestampRole)])
    }

    method Write(name: FileName, data: Bytes, result: WriteResult) returns (ok: bool)
      modifies this
      ensures ok == result.Written?
      ensures files == AfterWrite(old(files), name, data, result)
    {
      match result {
        case Written => files := files[name := data];
        case NotWritten =>
        case Truncated(left) => files := files[name := left];
      }
      ok := result.Written?;
    }

    /** `os.replace`: atomic, so it either moves the file or changes nothing. */
    method Replace(source: FileName, target: FileName, fails: bool) returns (ok: bool)
      requires source in files && source != target
      modifies this
      ensures ok == !fails
      ensures files == if fails then old(files) else (old(files) - {source})[target := old(files)[source]]
    {
      if !fails {
        files := (files - {source})[target := files[source]];
      }
      ok := !fails;
    }

    /** Writes one staging copy and one backup. */
    method WriteOne(role: RoleName, data: Bytes, faults: Faults) returns (ok: bool)
      requires Live(role) in files
      modifies this
      ensures ok == Writes(faults, true, role)
      ensures files == AfterWriteOne(old(files), role, data, faults, true)
    {
      ok := Write(Tmp(role), data, faults.tmpWrite(role));
      if ok {
        ok := Write(Bak(role), files[Live(role)], faults.bakWrite(role));
      }
    }

    /** Writes the staging copy and the backup of each file; stops at the first write that fails. */
    method WritePhase(staged: Repo, faults: Faults) returns (ok: bool, written: nat)
      requires forall r | r in NAMES :: Live(r) in files
      modifies this
      ensures ok == WritesSucceed(faults) && written == WrittenRoles(faults, true)
      ensures files == AfterWrites(old(files), staged, faults, true, Attempted(faults, true))
      ensures ok ==> forall r | r in NAMES :: Copied(old(files), files, staged, true, r)
      ensures OnlyScratchChanged(old(files), files)
    {
      written := 0;
      ok := true;
      while ok && written < 3
        invariant written <= 3
        invariant forall j | 0 <= j < written :: Writes(faults, true, NAMES[j])
        invariant !ok ==> written < 3 && !Writes(faults, true, NAMES[written])
        invariant files == AfterWrites(old(files), staged, faults, true, if ok then written else written + 1)
        decreases ok, 3 - written
      {
        var r := NAMES[written];
        assert r in NAMES;
        ok := WriteOne(r, FileOf(staged, r), faults);
        if ok {
          written := written + 1;
        }
      }
      WritesSucceedIff(faults);
      if ok {
        AllCopied(old(files), staged, faults, true);
      }
    }

    /** Replaces the live files in order; stops at the first replacement that fails. */
    method ForwardPhase(faults: Faults) returns (done: nat)
      requires forall r | r in NAMES :: Tmp(r) in files
      modifies this
      ensures done == Done(faults)
      ensures files == AfterMoves(old(files), done)
    {
      done := 0;
      var failed := false;
      while !failed && done < 3
        invariant done <= 3 && files == AfterMoves(old(files), done)
        invariant forall j | 0 <= j < done :: !faults.forward(NAMES[j])
        invariant failed ==> done < 3 && faults.forward(NAMES[done])
        decreases !failed, 3 - done
      {
        AfterMovesAt(old(files), done, NAMES[done]);
        var moved := Replace(Tmp(NAMES[done]), Live(NAMES[done]), faults.forward(NAMES[done]));
        if moved {
          done := done + 1;
        } else {
          failed := true;
        }
      }
      assert done > 0 ==> !faults.forward(NAMES[0]);
      assert done > 1 ==> !faults.forward(NAMES[1]);
      assert done > 2 ==> !faults.forward(NAMES[2]);
    }

    /**
     Puts the backups back, last replaced first; a failure does not stop the others. Takes the backup of
     each restored file off the record.
     */
    method RollbackPhase(done: nat, backups: set<RoleName>, faults: Faults)
      returns (failed: seq<RoleName>, left: set<RoleName>)
      requires done <= 3 && forall r | r in NAMES :: Bak(r) in files
      modifies this
      ensures failed == NotRestored(faults, done)
      ensures left == set r | r in backups && (Rank(r) >= done || faults.rollback(r))
      ensures files == AfterRollback(old(files), faults, done)
    {
      hide NotRestored, AfterRollback;
      failed, left := [], backups;
      var i := done;
      ghost var goal := AfterRollback(files, faults, done);
      UnfoldRollback(files, faults, 0);
      while i > 0
        invariant 0 <= i <= done
        invariant NotRestored(faults, done) == failed + NotRestored(faults, i)
        invariant left == set r | r in backups && (Rank(r) < i || Rank(r) >= done || faults.rollback(r))
        invariant forall j | 0 <= j < i :: Bak(NAMES[j]) in files
        invariant AfterRollback(files, faults, i) == goal
      {
        var r := NAMES[i - 1];
        RankOf(i - 1);
        UnfoldRollback(files, faults, i);
        assert forall j | 0 <= j < i - 1 :: NAMES[j] != r;
        var restored := Replace(Bak(r), Live(r), faults.rollback(r));
        if restored {
          left := left - {r};
        } else {
          failed := failed + [r];
        }
        i := i - 1;
      }
      UnfoldRollback(files, faults, 0);
    }

    /** The `finally` block: deletes the files on record in turn; a deletion that fails stops it. */
    method CleanUp(names: seq<FileName>, faults: Faults) returns (ok: bool)
      modifies this
      ensures ok == (Undeleted(names, faults) == [])
      ensures files == CleanedUp(old(files), names, faults)
    {
      ok := true;
      var i := 0;
      while ok && i < |names|
        invariant i <= |names|
        invariant forall j | 0 <= j < i :: !faults.unlink(names[j])
        invariant !ok ==> i < |names| && faults.unlink(names[i])
        invariant files == Without(old(files), names[..i])
        decreases ok, |names| - i
      {
        if faults.unlink(names[i]) {
          ok := false;
        } else {
          assert names[..i + 1] == names[..i] + [names[i]];
          files := files - {names[i]};
          i := i + 1;
        }
      }
      assert i == FirstFailing(names, faults);
    }

    /** The base engine's write loop: staging copies only. */
    method StageCopies(staged: Repo, faults: Faults) returns (ok: bool, written: nat)
      modifies this
      ensures ok == (written == 3) && written == WrittenRoles(faults, false)
      ensures files == AfterWrites(old(files), staged, faults, false, Attempted(faults, false))
    {
      written := 0;
      ok := true;
      while ok && written < 3
        invariant written <= 3
        invariant forall j | 0 <= j < written :: Writes(faults, false, NAMES[j])
        invariant !ok ==> written < 3 && !Writes(faults, false, NAMES[written])
        invariant files == AfterWrites(old(files), staged, faults, false, if ok then written else written + 1)
        decreases ok, 3 - written
      {
        var r := NAMES[written];
        ok := Write(Tmp(r), FileOf(staged, r), faults.tmpWrite(r));
        if ok {
          written := written + 1;
        }
      }
    }

    /** `_atomic_apply`, the base engine's: staging copies, then replacements, and no way back. */
    method AtomicApply(staged: Repo, faults: Faults) returns (r: ApplyResult)
      modifies this
      ensures files == AtomicFiles(old(files), staged, faults) && r == AtomicReport(faults)
      ensures forall role | role in NAMES ::
                if LandsUnguarded(faults, role) then Live(role) in files && files[Live(role)] == FileOf(staged, role)
                else Same(old(files), files, Live(role))
      ensures r.Returned? ==> forall role | role in NAMES :: LandsUnguarded(faults, role)
      ensures Same(old(files), files, Live(RootRole)) && forall p :: Same(old(files), files, Other(p))
    {
      var ok, written := StageCopies(staged, faults);
      var done := 0;
      if ok {
        AllCopied(old(files), staged, faults, false);
        done := ForwardPhase(faults);
      }
      var clean := CleanUp(Scratch(written, {}), faults);
      r := if done == 3 && clean then Returned else Raised(UnexpectedCeremonyError, []);
      assert files == AtomicFiles(old(files), staged, faults) && r == AtomicReport(faults);
      hide AtomicFiles, AtomicReport, LandsUnguarded;
      AtomicReportMeans(faults);
      forall role: RoleName
        ensures if LandsUnguarded(faults, role) then Live(role) in files && files[Live(role)] == FileOf(staged, role)
                else Same(old(files), files, Live(role))
        ensures forall p :: Same(old(files), files, Other(p))
      {
        AtomicFilesAt(old(files), staged, faults, role);
      }
    }

    /** The scheduled refresh's replacement of the online pair: Snapshot, then Timestamp, and no way back. */
    method ReplacePair(staged: Repo, faults: Faults) returns (ok: bool)
      modifies this
      ensures files == PairFiles(old(files), staged, faults) && ok == PairReport(faults)
      ensures forall role ::
                if PairLands(faults, role) then Live(role) in files && files[Live(role)] == FileOf(staged, role)
                else Same(old(files), files, Live(role))
      ensures forall p :: Same(old(files), files, Other(p))
    {
      hide FirstFailing;
      ok := Write(Tmp(SnapshotRole), staged.snapshot, faults.tmpWrite(SnapshotRole));
      if ok {
        ok := Write(Tmp(TimestampRole), staged.timestamp, faults.tmpWrite(TimestampRole));
      }
      if ok {
        ok := Replace(Tmp(SnapshotRole), Live(SnapshotRole), faults.forward(SnapshotRole));
        if ok {
          ok := Replace(Tmp(TimestampRole), Live(TimestampRole), faults.forward(TimestampRole));
        }
        var clean := CleanUp(PAIR_SCRATCH, faults);
        ok := ok && clean;
      }
      hide PairFiles, PairLands;
      forall role: RoleName
        ensures if PairLands(faults, role) then Live(role) in files && files[Live(role)] == FileOf(staged, role)
                else Same(old(files), files, Live(role))
        ensures forall p :: Same(old(files), files, Other(p))
      {
        PairFilesAt(old(files), staged, faults, role);
      }
    }

    /** The replacements and, if one fails, the rollback. Also returns the backups still on record. */
    method SwapOrRollBack(faults: Faults) returns (r: ApplyResult, backups: set<RoleName>)
      requires WritesSucceed(faults)
      requires forall role | role in NAMES :: Tmp(role) in files && Bak(role) in files
      modifies this
      ensures r == ApplyReport(faults) && backups == BackupsLeft(faults)
      ensures files == Swapped(old(files), faults)
    {
      backups := set role | role in NAMES;
      var done := ForwardPhase(faults);
      if done == 3 {
        return Returned, backups;
      }
      forall role | role in NAMES
        ensures Bak(role) in files
      {
        AfterMovesAt(old(files), done, role);
      }
      var failed;
      failed, backups := RollbackPhase(done, backups, faults);
      if failed != [] {
        return Raised(MetadataApplyRollbackFailed, failed), backups;
      }
      return Raised(MetadataApplyRolledBack, []), backups;
    }

    /** `_transactional_apply`. */
    method TransactionalApply(staged: Repo, faults: Faults) returns (r: ApplyResult)
      modifies this
      // Something to replace is missing: nothing is touched.
      ensures (exists role | role in NAMES :: Live(role) !in old(files)) ==>
                r == Raised(CurrentMetadataMissing, []) && files == old(files)
      // Otherwise the schedule decides the whole directory and the report.
      ensures (forall role | role in NAMES :: Live(role) in old(files)) ==>
                && files == ApplyFiles(old(files), staged, faults)
                && r == FullReport(faults)
                // Each live file holds its staged or its original contents.
                && (forall role | role in NAMES ::
                      Live(role) in files
                      && files[Live(role)]
                         == if Lands(faults, role) then FileOf(staged, role) else old(files)[Live(role)])
                // Once the writes are done, scratch outlives the call exactly if its deletion is
                // never reached or fails.
                && (WritesSucceed(faults) ==>
                      forall role | role in NAMES ::
                        var left := Undeleted(OnRecord(faults), faults);
                        && (Tmp(role) in files <==> Rank(role) >= Done(faults) && Tmp(role) in left)
                        && (Bak(role) in files <==> Bak(role) in left)
                        && (Bak(role) in files ==> files[Bak(role)] == old(files)[Live(role)]))
      // Root and every unrelated file stay as they were.
      ensures Same(old(files), files, Live(RootRole)) && forall p :: Same(old(files), files, Other(p))
    {
      hide AfterWrites, Swapped, BackupsLeft, Scratch, FirstFailing, ApplyReport, Lands;
      if exists role | role in NAMES :: Live(role) !in files {
        return Raised(CurrentMetadataMissing, []);
      }
      var backups: set<RoleName>;
      var ok, written := WritePhase(staged, faults);
      if ok {
        r, backups := SwapOrRollBack(faults);
      } else {
        r, backups := Raised(UnexpectedCeremonyError, []), set role | role in NAMES[..written];
      }
      var clean := CleanUp(Scratch(written, backups), faults);
      if !clean {
        r := Raised(UnexpectedCeremonyError, []);
      }
      WritesSucceedIff(faults);
      assert ApplyReport(faults) == r || !clean by { ReportOfFailedWrite(faults); }
      ApplyKeepsRest(old(files), staged, faults);
      forall role | role in NAMES
        ensures var after := ApplyFiles(old(files), staged, faults);
                var left := Undeleted(OnRecord(faults), faults);
                && Live(role) in after
                && after[Live(role)] == (if Lands(faults, role) then FileOf(staged, role) else old(files)[Live(role)])
                && (WritesSucceed(faults) ==>
                      && (Tmp(role) in after <==> Rank(role) >= Done(faults) && Tmp(role) in left)
                      && (Bak(role) in after <==> Bak(role) in left)
                      && (Bak(role) in after ==> after[Bak(role)] == old(files)[Live(role)]))
      {
        ApplyFilesAt(old(files), staged, faults, role);
      }
    }
  }
}
