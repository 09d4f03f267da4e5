# Release metadata ceremonies of Kodepoia: a model with proofs

Kodepoia publishes its installers through a repository of metadata in the format of The Update
Framework (TUF): four files, Root, Targets, Snapshot and Timestamp. A release ceremony checks the
current four files, signs one more target with offline keys, builds the next Snapshot and Timestamp
with online keys, verifies everything again and replaces three live files. This project models that
ceremony as it is written: its base engine, its hardened overrides, its split into an offline and an
online half, the scheduled refresh that runs between ceremonies, and the scripts that verify the result.
It then proves what whole runs of these programs keep, under every schedule of failing file operations,
and what a TUF client makes of the published generations. Three small algorithms of the repository are
modelled as well: a text patcher, a collector of signing evidence and a two-worker deadlock fixture.

`dafny verify dfyconfig.toml` verifies the project.

| module | subject |
|---|---|
| `Tuf` | payloads, envelopes, bytes; threshold, binding; the signing loop |
| `CurrentState` | the coherence check that guards every ceremony |
| `Custody` | the two searches for private keys that unlock |
| `Builders` | the next Targets; the next Snapshot and Timestamp, base and hardened |
| `Ceremony` | the steps of `main`, and exactly when they succeed |
| `Directory` | replacing live files, under every schedule of failures |
| `Engine` | the running ceremony and refresh on a directory: one step of a history |
| `Refresh` | the scheduled renewal of Snapshot and Timestamp |
| `History` | whole runs of ceremonies and refreshes |
| `Client` | the TUF client workflow, against the generations of a run |
| `Split` | offline and online halves against the unsplit ceremony |
| `Successor` | repeated ceremonies, the successor-state verifier, the generation check |
| `Rotation` | Root rotation, the trust path from a packaged Root, key-scope separation |
| `Witnesses` | concrete repositories and schedules on which a promise fails |
| `Overlay`, `Transitions`, `Deadlock` | the three small algorithms |

How the world is modelled. `World` holds what the scripts take from outside: hash functions, canonical
JSON, a signature scheme, and the verdicts of the TUF library. `World.Sound` says what those verdicts
are, and `Tuf.LibraryIsSound` shows that it is met by the library's own computation over any scheme
whose keys do not verify for each other. No lemma supposes that digests do not collide, except
`Successor.MatchesIffAdvances`, a helper that says so for the two files it compares; `Rotation.RotationEndToEnd`
supposes that the canonical form tells the signed Root from the unsigned one if they differ. Time is in whole seconds,
and metadata has expired when the clock is at or past `expires`. `os.replace` either moves a file or
changes nothing; which operations fail is an input (`Faults`). Digests, versions and paths that scripts
pin are parameters. Programs that change things in place are methods, each proved equal to, or against,
a specification function; the theorems over runs are about those functions.

Places where the code and its own texts part, or a property holds only in part. Each has its exact condition
and a concrete input:

- After an incomplete rollback the error text asks the operator to preserve every `.ceremony.bak` file,
  but the `finally` block deletes them (scripts/tuf_release_ceremony_safe.py:154-157 and 170-174). The model
  follows the code. `BackupsOutliveIff`: the backups of all named files outlive the call if and only if the
  deletion of a staging copy, or of the first of those backups, fails. `BackupsAreDeleted` is a schedule
  that leaves Targets new and its original nowhere.
- The package verifier of the Root rotation inspects only the first superseded keyid of each online role,
  and never the keys behind the keyids. `AllSupersededPowerlessIff` and `SecondKeyCanSurvive` treat the first
  gap, `SupersededHoldersPowerlessIff` and `OldKeyCanReturn` the second. The key-scope test of the repository
  acceptance compares keyids only, too: `HoldersDoNotHelpIff` and `SharedKeyHelps`.
- The base pair builder and the scheduled refresh drop every Snapshot entry except `targets.json`, which
  clients refuse. `KeepsListedIff` gives the condition for one generation, `RunsKeepListing` and
  `ClientsFollowRuns` for whole runs; `BaseCanDropListing` is a state and a release on which it happens.
- The base apply and the scheduled refresh have no rollback, so a late failure leaves a torn generation.
  `BaseAllOrNothingIff` and `RenewalAllOrNothingIff` say exactly when, and `EveryBoundaryAccepted` what it does
  to a run; `BaseCanTear` and `RefreshCanTear` are such events. A torn state is refused by every later ceremony
  (`TornForever`) and never taken up by a client (`TornNeverTakenUp`).

## Model

| member | source | states |
|---|---|---|
| Tuf.NewSignedMetadata | scripts/tuf_release_ceremony.py:141-145 | The signing loop, in which the first signature clears the envelope and later ones append, gives the sealed payload with each signer's signature under its keyid. |
| Tuf.SignFirstHolds | scripts/tuf_release_ceremony.py:143-144 | After signing with distinct signers the envelope holds exactly their signatures, one each, none overwritten. |
| Tuf.VerifyDelegateCounts | scripts/tuf_release_ceremony.py:112-114 | A role is satisfied exactly when the number of distinct keyids of the role, present in Root's key table and validly signed, reaches its threshold. |
| Tuf.LibraryIsSound | scripts/tuf_release_ceremony.py:112-134 | The library's own threshold and binding computations, over any sound signature scheme and any hashes, meet everything the model supposes of them. |
| Tuf.SignedValidSigners | scripts/tuf_release_ceremony.py:141-145 | The valid signers of an envelope signed by distinct signers are exactly those whose own key Root lists for the role. |
| Tuf.QuorumVerifiesIff | scripts/tuf_release_ceremony.py:112-145 | Threshold many distinct signers make an envelope that verifies if and only if Root recognises every one of them. |
| Tuf.SingleSignerVerifiesIff | scripts/tuf_release_ceremony.py:554-556 | One online signer satisfies its role if and only if the threshold is 1 and Root recognises it. |
| CurrentState.VerifyCurrentState | scripts/tuf_release_ceremony.py:213-266 | Accepts exactly the coherent states (readable, four thresholds, version links, bindings) before the earlier of Root's and Targets' expiry, and returns what it read. |
| CurrentState.UnreadableCodes | scripts/tuf_release_ceremony.py:216-219 | The first of Root, Targets, Snapshot and Timestamp that does not parse stops the check with INVALID_METADATA, the first of another role with WRONG_METADATA_ROLE. |
| CurrentState.RefusalCodes | scripts/tuf_release_ceremony.py:222-257 | On readable files, every error code with its exact condition, in the order of the tests; none means acceptance. |
| CurrentState.TornIsRefused | scripts/tuf_release_ceremony.py:243-257 | A state with a broken version link is refused at every time, whatever its digests. |
| Custody.Found | scripts/tuf_release_ceremony.py:284-294 | The dict of found signers has each keyid once, and exactly the authorised keyids that some file unlocks. |
| Custody.PemSigners | scripts/tuf_release_ceremony.py:269-304 | Discovery succeeds exactly when the directory exists and the distinct authorised keys that unlock reach the threshold; it returns threshold many distinct ones, each unlocked from a file and one of the role's; each of the two errors has its exact condition. |
| Custody.CountsIff | scripts/tuf_release_ceremony.py:282-294 | A key counts towards the threshold exactly when its keyid is one of the role's and some file unlocks it. |
| Custody.DiscoverPemSigners | scripts/tuf_release_ceremony.py:276-304 | The loop over key files computes `PemSigners`. |
| Custody.AllSigners | scripts/r20_3_sign_root_v2.py:45-65 | The untruncated search succeeds together with the truncated one, returns every unlocked authorised key once, and the truncated result is a prefix of it. |
| Custody.DiscoverRootSigners | scripts/r20_3_sign_root_v2.py:45-65 | The loop over key files computes `AllSigners` for the Root role. |
| Custody.FirstUnlockWins | scripts/tuf_release_ceremony.py:294 | Each returned signer comes from the first file that unlocks its keyid. |
| Custody.FoundInOrder | scripts/tuf_release_ceremony.py:284-304 | The signers stand in the order in which the sorted files first unlock them, so the cut keeps the earliest. |
| Custody.DiscoveredSignersVerifyIff | scripts/tuf_release_ceremony.py:293-304 | Signing with the truncated list verifies exactly when Root's table holds each listed signer's key, with the full list exactly when enough are recognised; the first implies the second. |
| Builders.BuildTargets | scripts/tuf_release_ceremony.py:433-516 | A changed build adds exactly one record, at channels/ followed by channel, platform, version, commit and file name, with the installer's size and SHA-256 and each of the nine custom fields; it keeps every other record, expiry and fields, has the next version and a valid threshold. An authorised target is confirmed or refused for its record; an unknown policy is refused. |
| Builders.DownloadsIff | scripts/tuf_release_ceremony.py:473-477 | A file satisfies a release's record if and only if it has the release's size and SHA-256. |
| Builders.AuthorizeTarget | scripts/tuf_release_ceremony.py:450-516 | The in-place edit of the payload, signing and re-reading compute `BuildTargets`. |
| Builders.BuildTargetsIff | scripts/tuf_release_ceremony.py:490-510 | For a new target a quorum suffices exactly when the policy is known and Root recognises every signer; the preservation test never fails. |
| Builders.BuildOnlinePair | scripts/tuf_release_ceremony.py:519-583 | A returned pair says, field by field: versions up by one, 259200 and 172800 seconds of life, the version, length and SHA-256 of the Targets and Snapshot bytes and no other hash, nothing else (base) or everything else that was there (hardened); each file is satisfied by its role and lapses before Root and Targets. |
| Builders.NamesBindsIff | scripts/tuf_release_ceremony.py:545-549 | A reference with exact length and SHA-256 binds exactly the byte strings of that length and SHA-256. |
| Builders.BuildOnlinePairIff | scripts/tuf_release_ceremony.py:531-575 | Building succeeds exactly when 72 hours end before both authorities and each signer alone satisfies its role; otherwise the error is that of the first condition that fails, so bindings and preservation never fail. |
| Builders.BuildOnlinePairPreservingSnapshotMeta | scripts/tuf_release_ceremony_safe.py:16-107 | The in-place hardened builder computes the hardened pair, whose fields are as stated for `BuildOnlinePair`, and keeps every other Snapshot entry unchanged. |
| Builders.HardenedRefinesBase | scripts/tuf_release_ceremony_safe.py:43-98 | Both builders succeed together; their results are equal if and only if the current pair lists nothing but targets.json and has no extra fields; otherwise they agree on version, expiry and the targets.json entry. |
| Ceremony.TargetsSigners | scripts/tuf_release_ceremony.py:776-792 | The empty signer list is passed on only when the target is already authorised, so nothing will be signed. |
| Ceremony.SignTargets | scripts/tuf_release_ceremony.py:746-815 | What leaves the first half of `main` was built on a state accepted at that moment, with Root the pinned one if one is pinned, and for an installer that exists and has the expected size and SHA-256 if they are given. |
| Ceremony.SignTargetsOutcome | scripts/tuf_release_ceremony.py:746-815 | Every way the first half can end, each error code with its exact condition in the order of the tests: source, state, Root pin, installer, its size, its SHA-256, passphrase, key directory, number of keys, policy, conflicting record, signature threshold. |
| Ceremony.OfflineStagesSigned | scripts/tuf_release_ceremony.py:817-819 | The offline half ends as the signing does and stages exactly the signed Targets. |
| Ceremony.OnlineTransition | scripts/tuf_release_ceremony.py:864-878 | Resolving signers, testing their authorisation and building gives a pair that follows the current one. |
| Ceremony.OnlineTransitionIff | scripts/tuf_release_ceremony.py:864-878 | The online pair comes about exactly when each signer alone satisfies its role and 72 hours end before Root's and Targets' authority. |
| Ceremony.FinalCheckPasses | scripts/tuf_release_ceremony.py:884-891 | The final verification block passes on every generation whose parts were built. |
| Ceremony.CompletedIsNext | scripts/tuf_release_ceremony.py:864-897 | A completed change is a coherent next generation of the state it started from, whichever way the targets were signed. |
| Ceremony.PreparedIsNext | scripts/tuf_release_ceremony.py:746-897 | A prepared change is the coherent next generation: exactly one more record, versions up by one, same Root, same authority expiry. |
| Ceremony.PreparedAuthorises | scripts/tuf_release_ceremony.py:761-815 | A prepared change authorises one more target at the requested path, whose record has the measured installer's size and SHA-256 and the nine requested fields; a file can be installed under it exactly when it has that size and SHA-256. |
| Ceremony.NextPairSays | scripts/tuf_release_ceremony.py:541-571 | Every published Snapshot and Timestamp, of a ceremony or a refresh, says field by field what `BuildOnlinePair` states and lapses before Root and Targets, Timestamp first. |
| Ceremony.PairBindsExactly | scripts/tuf_release_ceremony.py:541-575 | A published pair binds exactly the byte strings with the length and SHA-256 of the published Targets and Snapshot; with either file replaced by bytes of another length or SHA-256 the current-state check refuses the generation at every time. |
| Ceremony.UnchangedIsCurrent | scripts/tuf_release_ceremony.py:478-488 | A ceremony that changes nothing found the exact record and gives back the current generation with Targets re-serialized. |
| Ceremony.CompleteIff | scripts/tuf_release_ceremony.py:864-891 | Once Targets has changed, only the online signers and the 72-hour lifetime can stop the ceremony. |
| Ceremony.SignsTargetsIff | scripts/tuf_release_ceremony.py:746-815 | On an accepted state and a new target, the first half succeeds exactly when gates, passphrase, policy and Targets keys are in order. |
| Ceremony.PreparesIff | scripts/tuf_release_ceremony.py:746-891 | The whole preparation of a new target succeeds if and only if conditions hold that a caller can look at beforehand: accepted state, enough recognised Targets keys, sole authorised online signers, 72 hours before both authorities. |
| Ceremony.PrepareOutcome | scripts/tuf_release_ceremony.py:864-891 | Once Targets is signed, every way the rest can end, each error code with its exact condition: signers missing, Snapshot or Timestamp signer unauthorised, lifetime beyond the authorities, Snapshot or Timestamp threshold. |
| Directory.MetadataDirectory.WritePhase | scripts/tuf_release_ceremony_safe.py:130-136 | The loop writes staging copy and backup of each file up to the first write that fails, and no other file; success means all six are in place. |
| Directory.MetadataDirectory.ForwardPhase | scripts/tuf_release_ceremony_safe.py:138-141 | Replacement moves staging copies over live files in order and stops at the first failure. |
| Directory.MetadataDirectory.RollbackPhase | scripts/tuf_release_ceremony_safe.py:143-149 | Rollback restores replaced files last to first, goes on past failures, returns exactly those not restored, and takes exactly the restored ones off the record of backups. |
| Directory.MetadataDirectory.CleanUp | scripts/tuf_release_ceremony_safe.py:170-174 | The files on record are deleted in turn up to the first deletion that fails; that one and all after it stay. |
| Directory.MetadataDirectory.SwapOrRollBack | scripts/tuf_release_ceremony_safe.py:138-164 | The replacements and the rollback compute `Swapped`, the report that names exactly the files not restored, and the backups still on record. |
| Directory.SwappedAt | scripts/tuf_release_ceremony_safe.py:138-164 | Each live file ends with its staged or its original bytes as the failure schedule decides; exactly the staging copies not moved and the backups on record are still there. |
| Directory.MetadataDirectory.TransactionalApply | scripts/tuf_release_ceremony_safe.py:110-174 | Under every schedule: the whole directory and the report; the outcome of each live file; exactly which staging copies and backups outlive the call, and that a backup holds the original; nothing touched when a file is missing; Root and other files untouched. |
| Directory.ApplyFilesAt | scripts/tuf_release_ceremony_safe.py:126-174 | Per file: new exactly if it lands; its staging copy or backup outlives the call exactly if it was still there and its deletion, or an earlier one, failed, after a failed write as well. |
| Directory.FailedWriteLeaves | scripts/tuf_release_ceremony_safe.py:130-136 | A failed write leaves its staging copy, and backup if it got that far, exactly as the failing write left them, since only complete pairs are on record for deletion; files that come after are not touched. |
| Directory.BackupsOutliveIff | scripts/tuf_release_ceremony_safe.py:150-174 | After an incomplete rollback the backups of all named files outlive the call if and only if the deletion of one of the three staging copies or of the first of these backups fails. |
| Directory.BackupsAreDeleted | scripts/tuf_release_ceremony_safe.py:154-174 | A schedule, on any directory, that reports an incomplete rollback, leaves Targets new and leaves no backup. |
| Directory.MetadataDirectory.AtomicApply | scripts/tuf_release_ceremony.py:607-623 | The base apply leaves new exactly the files replaced before the first failure, leaves what its `finally` block could not delete, and returns normally if and only if no write, replacement or deletion fails. |
| Directory.MetadataDirectory.ReplacePair | scripts/r20_4_scheduled_metadata_refresh.py:174-194 | The refresh replaces Snapshot, then Timestamp; the whole directory and whether it ends normally follow from the schedule, and no other live or unrelated file changes. |
| Directory.PairFilesAt | scripts/r20_4_scheduled_metadata_refresh.py:174-194 | Per file: new exactly when its turn came and its replacement worked; a temporary file outlives the call when a write failed, or when it was not moved and its deletion was not reached or failed. |
| Directory.ReportMeans | scripts/tuf_release_ceremony_safe.py:139-164 | Returned means all new; rolled back or stopped while writing means none new; rollback failed means exactly the named files new, at least one, never Timestamp. |
| Directory.LandsIff | scripts/tuf_release_ceremony_safe.py:138-149 | On the schedule: all three files end new if nothing fails; otherwise Targets or Snapshot does exactly if it was replaced and its rollback fails; Timestamp never. |
| Directory.NamedInReverse | scripts/tuf_release_ceremony_safe.py:143-158 | The error of an incomplete rollback names the files that stay new, last replaced first. |
| Directory.ReturnsIff | scripts/tuf_release_ceremony_safe.py:129-174 | The hardened apply returns normally exactly when no write, replacement or deletion fails. |
| Directory.LandsUnguardedIff | scripts/tuf_release_ceremony.py:610-615 | On the schedule: a file ends new under the base apply exactly if all writes and the replacements up to its own succeed. |
| Directory.AtomicReturnsIff | scripts/tuf_release_ceremony.py:609-623 | The base apply returns normally exactly when no write, replacement or deletion fails. |
| Directory.PairReturnsIff | scripts/r20_4_scheduled_metadata_refresh.py:176-194 | The refresh ends normally exactly when no write, replacement or deletion fails. |
| Directory.AfterMovesAt | scripts/tuf_release_ceremony_safe.py:139-141 | After n replacements a live file holds its staging copy, which is gone, exactly if it is among the first n; all others are as before. |
| Directory.AfterRollbackAt | scripts/tuf_release_ceremony_safe.py:144-149 | After rollback each replaced file holds its backup unless its own restore failed, and its backup is then gone. |
| Refresh.RefreshIsNextPair | src/kodepoia/update/steady_state_refresh.py:203-298 | A refresh builds a coherent next Snapshot and Timestamp around the same Targets bytes. |
| Refresh.NothingDueIff | src/kodepoia/update/steady_state_refresh.py:178-186 | Nothing is renewed exactly when Snapshot and Timestamp both have more than 86400 seconds left; all files then stay as they are. |
| Refresh.RefreshSucceedsIff | src/kodepoia/update/steady_state_refresh.py:237-298 | A due refresh succeeds exactly when two different sole authorised online signers are at hand and 72 hours end before both authorities; the closing test that nothing is due never fails. |
| History.MixturesDetected | scripts/tuf_release_ceremony.py:243-257 | Of all mixtures of a generation with its successor exactly the whole ones are coherent; the others are torn by version numbers alone. |
| History.OnlyWholeGenerationsAccepted | scripts/tuf_release_ceremony.py:607-615 | Of the eight mixtures of one applied ceremony the current-state check accepts all-old and all-new, and no other. |
| History.ApplyOutcomes | scripts/tuf_release_ceremony_safe.py:126-174 | For every schedule: normal return is the new generation; a clean rollback or failed write is the old one; an incomplete rollback leaves exactly the named files new, a state refused at every time. |
| History.HardenedAllOrNothingIff | scripts/tuf_release_ceremony_safe.py:142-164 | The hardened apply is all or nothing except when, the writes done, a replacement fails and so does the rollback of one that had succeeded. |
| History.BaseAllOrNothingIff | scripts/tuf_release_ceremony.py:610-615 | The base apply is all or nothing exactly when no replacement fails after the first has succeeded. |
| History.RenewalAllOrNothingIff | scripts/r20_4_scheduled_metadata_refresh.py:174-191 | The refresh is all or nothing exactly when Timestamp's replacement does not fail after Snapshot's has succeeded. |
| History.ScriptsAreProper | scripts/tuf_release_ceremony.py:746-900 | Ceremonies of both engines and refreshes publish only coherent next generations of coherent states. |
| History.PublishedIsGuarded | scripts/tuf_release_ceremony.py:591-604 | What a ceremony publishes carries no private-material marker in any of its three files, and what ceremony or refresh publishes is refused once its Targets or Snapshot is replaced by bytes of another length or SHA-256. |
| History.StepKeeps | scripts/tuf_release_ceremony.py:746-902 | One event from a coherent state leaves it coherent, or torn exactly when a publication was left neither complete nor undone; versions, records and authority expiry never go back. |
| History.TornForever | scripts/tuf_release_ceremony.py:243-257 | No event publishes anything over a torn state. |
| History.RunsStaySafe | scripts/tuf_release_ceremony.py:746-902 | Over every finite run with any failures the state is torn if and only if a publication was left neither complete nor undone, and coherent otherwise; nothing authorised is lost or altered and a version determines its bytes. |
| History.EveryBoundaryAccepted | scripts/tuf_release_ceremony.py:213-266 | From an accepted state, a boundary of a run of the scripts is accepted at a time if and only if Root and Targets are unexpired and no publication was interrupted; an interrupted one is torn. |
| Engine.SignNewTargets | scripts/tuf_release_ceremony.py:746-815 | The steps of the first half, in order, compute `SignTargets`. |
| Engine.Complete | scripts/tuf_release_ceremony.py:864-897 | The steps of the second half compute `CompleteGeneration` with the pair builder of the engine. |
| Engine.Stage | scripts/tuf_release_ceremony.py:815-902 | In each of the three modes: what is staged is what the offline half or the preparation yields, an error blocks with its code, and output that carries a private-material marker is not staged. |
| Engine.RunCeremony | scripts/tuf_release_ceremony_safe.py:234-252 | The running ceremony, of either engine, ends as staging and the apply report say, error code included, and changes the live files by exactly one step of the history; a normal end of an applying ceremony leaves the staged generation live; in other modes no file changes, and unrelated files never do. |
| Engine.RunRefresh | scripts/r20_4_scheduled_metadata_refresh.py:115-194 | The running refresh changes the live files by exactly one step of the history, unrelated files never, and ends normally exactly when nothing is due or the new pair is in place and cleaned up after. |
| Client.AcceptsIff | scripts/tuf_release_ceremony.py:531-574 | A client that trusts any earlier state of a history accepts a later generation if and only if no file its Snapshot lists is lost or lowered and less than 48 hours have passed; it then trusts exactly that generation. |
| Client.TakesUpIff | scripts/tuf_release_ceremony.py:222-257 | What the client of the model takes up, spelled out as in sections 5.4 to 5.6: signatures, bindings, versions, expiry and all rollback tests. |
| Client.TakesUpOnlyCoherent | scripts/tuf_release_ceremony.py:213-257 | Whatever a client takes up is a state the current-state check accepts at that moment. |
| Client.TornNeverTakenUp | scripts/tuf_release_ceremony.py:243-257 | A client takes up nothing from a torn state, whatever it trusts. |
| Client.KeepsListedIff | scripts/tuf_release_ceremony_safe.py:51-73 | Clients find every listed file again after the hardened builder always, after the base one if and only if Snapshot lists targets.json alone. |
| Client.StepListing | scripts/tuf_release_ceremony_safe.py:43-73 | One event, interrupted or not, keeps the listing if and only if it does not publish a base Snapshot or there was only targets.json. |
| Client.DroppedForGood | scripts/tuf_release_ceremony.py:541-553 | A run that drops the listing ends with targets.json alone: no later ceremony brings an entry back. |
| Client.RunsKeepListing | scripts/tuf_release_ceremony_safe.py:43-73 | Over any run, however it ends, every listed file is found again at no lower version if and only if no event dropped the listing or there was only targets.json. |
| Client.ClientsFollowRuns | scripts/tuf_release_ceremony_safe.py:30-98 | A client that trusts a coherent state of a run accepts a later, completely published generation if and only if no event up to it dropped the listing (or there was only targets.json) and its Timestamp has not expired; it then trusts exactly that generation. |
| Split.ValidateStagedTargets | scripts/v1_1_1_online_metadata_transition.py:73-132 | It passes exactly the signed file with the pinned digest and versions that keeps the expiry and every record of the pinned current Targets and adds exactly the pinned target. |
| Split.OnlineHalfIff | scripts/v1_1_1_online_metadata_transition.py:157-195 | On an accepted state the online half succeeds exactly when the current and the new Snapshot and Timestamp versions are the pinned ones, the staged file passes, the online signers are ready and 72 hours end before both authorities. |
| Split.OnlineHalfSays | scripts/v1_1_1_online_metadata_transition.py:178-201 | Its output is the staged file and a base pair around it, field by field. |
| Split.OfflineOutputValidates | scripts/tuf_release_ceremony.py:817-862 | The offline output does not depend on the clock and always passes validation against pins read off that run. |
| Split.HalvesMeet | scripts/v1_1_1_online_metadata_transition.py:156-201 | From the same signed Targets the online script and the second half of `main` succeed together with the same files. |
| Split.SplitEqualsUnsplit | scripts/v1_1_1_online_metadata_transition.py:154-201 | For a new target, the unsplit base ceremony succeeds if and only if the offline half, at any moment, and the online half do; all three files are then the same. |
| Successor.AuthorisedTargetIff | scripts/tuf_release_ceremony.py:478-488 | On an authorised target the ceremony succeeds without any key exactly when the record has every field of the release and Snapshot also binds the re-serialized Targets; otherwise the error says which of the two failed; nothing is published. |
| Successor.RerunConfirms | scripts/tuf_release_ceremony.py:879-902 | Repeating an applied ceremony, with either engine and at any time before the authorities lapse, confirms the target with byte-identical files. |
| Successor.ConflictRefusedForever | scripts/tuf_release_ceremony.py:480-485 | After any run a record that differs from an authorised one is refused, at any time and by either engine. |
| Successor.VerifySuccessorState | scripts/r20_3_verify_full_transition.py:75-143 | Accepts exactly the states the ceremony accepts whose Root has the pinned digest and keyids and version 2, with Targets at 2 or above and Snapshot and Timestamp at 4 or above; it reports exactly the online roles that have expired. |
| Successor.SuccessorStatePersists | scripts/r20_3_verify_full_transition.py:90-118 | Every coherent state later in a run from a successor state is a successor state again. |
| Successor.ReadyForTwoDays | scripts/r20_3_verify_full_transition.py:120-142 | A generation built at `now` is ready until exactly 48 hours later; then Timestamp alone is reported for 24 hours, then both. |
| Successor.RunsMatchOrAdvance | scripts/r19_5_corrective_rc_acceptance.py:330-356 | Against any earlier coherent state of a run, every role of every later state matches or advances, torn states included. |
| Rotation.VerifyPublicPackage | scripts/r20_3_verify_public_package.py:112-142 | The Root part passes exactly when the replacement keyids differ, the current Root is self-signed, the proposed one is unsigned, next in version, equal in Root and Targets policy, gives each online role the one new keyid at threshold 1, and has no key under the first current online keyids. |
| Rotation.VerifyRootTransition | scripts/r20_3_verify_full_transition.py:185-203 | The Root checks pass exactly when the base is self-signed, the new Root signed under both, its canonical payload that of the unsigned one, its version next, its Root and Targets policies unchanged and its online keyids the pinned ones. |
| Rotation.TransitionKeepsAuthority | scripts/r20_3_verify_full_transition.py:185-199 | After an accepted transition that leaves the keys behind Root and Targets alone, clients take the step, and the new Root accepts exactly the Root and Targets signatures that the old one accepts. |
| Rotation.ReassignedAuthorityRefused | scripts/r20_3_verify_full_transition.py:196-199 | A Root that changes the keyids or the threshold of Root or Targets is refused by both verifiers. |
| Rotation.PowerlessIff | scripts/r20_3_verify_public_package.py:130-142 | Signatures filed under given keyids cannot satisfy a one-key role, on any payload, exactly when its keyid is not among them or not in Root's table. |
| Rotation.KeysPowerlessIff | scripts/r20_3_verify_public_package.py:130-142 | The holders of given keys cannot satisfy a role, whatever keyids they file signatures under, exactly when fewer of its keyids than the threshold stand for one of these keys in Root's table. |
| Rotation.SupersededKeysPowerless | scripts/r20_3_verify_public_package.py:114-142 | An accepted rotation keeps Root's and Targets' policies, has two different replacement keyids, and no signatures filed under the superseded first keyids satisfy Snapshot or Timestamp. |
| Rotation.AllSupersededPowerlessIff | scripts/r20_3_verify_public_package.py:139-142 | All superseded online keyids are powerless if and only if no replacement keyid that the new Root has a key for was an online keyid before; only the first of each role is inspected. |
| Rotation.SupersededHoldersPowerlessIff | scripts/r20_3_verify_public_package.py:112-142 | Under an accepted rotation the holders of any given keys, superseded ones in particular, are powerless over both online roles if and only if no replacement keyid stands for one of these keys; for the superseded first keys that holds whenever no key has changed its keyid. |
| Rotation.OldKeyCanReturn | scripts/r20_3_verify_public_package.py:112-142 | A concrete accepted rotation under which the superseded Snapshot key, listed under a new keyid, still satisfies Snapshot. |
| Rotation.SecondKeyCanSurvive | scripts/r20_3_verify_public_package.py:139-142 | A concrete accepted rotation under which a superseded second Snapshot keyid still satisfies Snapshot. |
| Rotation.RotationEndToEnd | scripts/r20_3_verify_full_transition.py:185-203 | Package verifier and transition verifier together: a client on the old Root moves to the new one, which keeps the Root and Targets policies and has the two replacement keyids alone for the online roles; the superseded first keyids are powerless under it, and the holders of their keys are if and only if no replacement keyid stands for such a key. |
| Rotation.SizesAddUpIffDisjoint | scripts/r19_2_update_repository_acceptance.py:124-125 | For any family of sets the sizes add up to the size of the union if and only if the sets are pairwise disjoint. |
| Rotation.KeyScopesSeparateIff | scripts/r19_2_update_repository_acceptance.py:105-125 | The test passes exactly when no keyid is listed for two of the four roles. |
| Rotation.SeparateScopesDoNotHelp | scripts/r19_2_update_repository_acceptance.py:105-125 | When the test passes, no keyid counts for two roles, and signatures filed under one role's keyids alone satisfy no other role. |
| Rotation.HoldersDoNotHelpIff | scripts/r19_2_update_repository_acceptance.py:105-125 | The holders of one role's keys can make no valid signature for another role if and only if the two roles share no key in Root's table, and cannot satisfy it if and only if fewer of its keyids than the threshold stand for a shared key. |
| Rotation.SharedKeyHelps | scripts/r19_2_update_repository_acceptance.py:105-125 | A concrete Root that passes the test although one key, under two keyids, satisfies Targets and Snapshot. |
| Overlay.Find | scripts/r13_6_android_device_acceptance.py:103 | The first occurrence, and None exactly when there is none. |
| Overlay.ControlledOverlay | scripts/r13_6_android_device_acceptance.py:101-117 | The guarded reassignments of the text compute `Overlay`; what they return has each missing piece right after its marker line, and nothing else is changed. |
| Overlay.CountIsOneIff | scripts/r13_6_android_device_acceptance.py:105-114 | The count of non-overlapping occurrences of a line is 1 exactly when the line stands at exactly one place. |
| Overlay.LinesSpelled | scripts/r13_6_android_device_acceptance.py:102-112 | The marker lines and the inserted lines, letter by letter. |
| Overlay.ApplyFailsIff | scripts/r13_6_android_device_acceptance.py:103-116 | An insertion is refused, with its own error, exactly when its piece is missing and its marker line does not stand at exactly one place. |
| Overlay.ApplyInsertsAfter | scripts/r13_6_android_device_acceptance.py:103-116 | An insertion that goes through puts its missing piece right after the only occurrence of its marker line and changes nothing else; a piece that is there is left alone. |
| Overlay.OverlayFailsIff | scripts/r13_6_android_device_acceptance.py:105-115 | Which of the two errors stops the overlay, and exactly when. |
| Overlay.LinesSurvive | scripts/r13_6_android_device_acceptance.py:107-116 | An insertion at the start of a line never splits an occurrence of a line. |
| Overlay.Idempotent | scripts/r13_6_android_device_acceptance.py:103-117 | For any two line edits, a second application changes nothing and both pieces are in the result. |
| Overlay.OverlayIsIdempotentInsertion | scripts/r13_6_android_device_acceptance.py:101-117 | On every text it accepts the overlay is idempotent; it puts the runner line right after the targetSdk line and the dependencies right after the opening of their block, each where it was missing, and deleting them gives back the original. |
| Transitions.AcceptableIff | scripts/r18_4_authenticode_acceptance.py:198-218 | What is acceptable, spelled out: source, mode and trust flags of every file, a non-empty list of subjects, names, digests of 64 hexadecimal characters that changed, names distinct across files. |
| Transitions.HeaderCodes | scripts/r18_4_authenticode_acceptance.py:198-206 | The error of a file header, each with its exact condition, in the order of the tests. |
| Transitions.SubjectCodes | scripts/r18_4_authenticode_acceptance.py:208-216 | The error of a subject, each with its exact condition, in the order of the tests. |
| Transitions.SigningTransitions | scripts/r18_4_authenticode_acceptance.py:194-224 | The nested loops succeed exactly when every file and subject is acceptable and all names are distinct across files; the map then has one entry per subject with its own digests, each changed; otherwise the error is that of the first file or subject that stops them. |
| Transitions.AddSubjects | scripts/r18_4_authenticode_acceptance.py:207-223 | The inner loop succeeds exactly when the subjects so far and those of this file are valid with distinct names. |
| Transitions.OneMore | scripts/r18_4_authenticode_acceptance.py:208-223 | One subject can be added exactly when it has no error and its name is new to the map. |
| Transitions.OrderDoesNotMatter | scripts/r18_4_authenticode_acceptance.py:194-224 | Files in any order, with subjects in any order, are accepted together and give the same map. |
| Transitions.Actual | scripts/r18_4_authenticode_acceptance.py:232-265 | The final evidence is accepted exactly when its header is right, the signing evidence is acceptable, both installers occur in both, and every final subject is verified and has the digest that signing left; otherwise the error is that of the first of these that fails. |
| Transitions.RequiredWereSignedOnce | scripts/r18_4_authenticode_acceptance.py:247-265 | Each required installer was signed exactly once, from a different digest, and every final entry about it has the digest that signing left. |
| Transitions.VerdictIgnoresOrder | scripts/r18_4_authenticode_acceptance.py:227-265 | The verdict does not depend on the order of files, signing subjects or final subjects. |
| Deadlock.StepKeeps | scripts/r14_5_postgres_acceptance.py:101-116 | Every action of either worker, or of the deadlock detector, keeps the lock, barrier and log invariant and brings the end nearer. |
| Deadlock.Progress | scripts/r14_5_postgres_acceptance.py:101-126 | A state in which no action is possible is finished, with one victim and one normal end. |
| Deadlock.EveryRun | scripts/r14_5_postgres_acceptance.py:97-126 | Every interleaving has at most twelve actions; no worker gets both rows or commits before the other was aborted; every run that can go no further recorded one 40P01 and one normal end. |
| Deadlock.UnavoidableWithoutDetector | scripts/r14_5_postgres_acceptance.py:101-107 | Without an abort every run that can go no further is a wait cycle, with nothing recorded. |
| Deadlock.RealDeadlockDetected | scripts/r14_5_postgres_acceptance.py:90-126 | Under any scheduler, and without timeouts, the fixture ends and reports the deadlock. |
| Witnesses.SamplePrepares | scripts/tuf_release_ceremony.py:746-891 | On a concrete first generation, in every world with a sound signature scheme, either engine prepares the next generation. |
| Witnesses.BaseCanTear | scripts/tuf_release_ceremony.py:607-623 | A concrete base ceremony on an accepted state whose second replacement fails leaves a torn state. |
| Witnesses.RefreshCanTear | scripts/r20_4_scheduled_metadata_refresh.py:189-194 | A concrete refresh of an accepted state whose second replacement fails leaves a torn state. |
| Witnesses.BaseCanDropListing | scripts/tuf_release_ceremony.py:541-553 | On one concrete state and release, a client of that state refuses what the base ceremony builds and accepts what the hardened one builds. |

## Left out

- Byte strings are a reading together with a layout, so that parsing what was just serialized gives it back by construction; JSON text, key order and canonical form are not modelled further.
- Signatures are a map from keyid to signature, so their order inside an envelope is not modelled.
- Commit and version tests on the release source (`_verify_source_identity`), the public-key manifest and the secrets are inputs: they come as a verdict and as resolved signers. Lower-casing of digest and commit arguments, the default payload address and command-line parsing are left out.
- Whether a PEM file unlocks is an input; decryption and passphrase handling beyond the empty passphrase are left out.
- The payload-shape errors `TARGETS_PAYLOAD_INVALID`, `SNAPSHOT_PAYLOAD_INVALID` and `TIMESTAMP_PAYLOAD_INVALID` cannot arise from parsed metadata and have no counterpart.
- Reports, summaries, printed messages, the contents of the staging directory, and the redaction of unexpected errors.
- A crash of the process between two file operations: intermediate states are covered by `OnlyWholeGenerationsAccepted`, but the scratch files a crash leaves are not. Other processes that change the directory at the same time are left out as well.
- The error codes of `validate_staged_targets` are in the body of its model only.
- Split.SplitEqualsUnsplit: compares with the base engine, whose pair builder the online script uses; `HardenedRefinesBase` says when the hardened engine gives the same bytes.
- Client.AcceptsIff: covers top-level metadata under one Root; delegated Targets, downloads of targets, and Root updates of more than one step are left out.
- Successor.VerifySuccessorState: signature, threshold and version tests are grouped, so that the model does not tell which of several failing ones is named first.
- Rotation.KeysPowerlessIff: speaks of signatures made on the payload they are presented with; passing off a signature made on another payload is not part of `World.Sound`.
- Rotation.SupersededKeysPowerless: covers the Root rules of the package verifier; its manifest, schema and path rules, and the pinned digests and versions of the full-transition verifier, are left out.
- Overlay.ControlledOverlay: only the text of the build file is modelled; its reading and writing, the generated test source and the returned digest are left out.
- Transitions.Actual: the field values are as the script reads them; parsing of the evidence files and the emitted report are left out, and the six header errors are one.
- Deadlock.RealDeadlockDetected: the five-second barrier timeout, the ten-second joins, connection failures and other transactions on the two rows are left out.
- The current-state check of the refresh is modelled by that of the ceremony, whose conditions are the same; it differs only in error texts.
- The remaining scripts (desktop, Apple, Android, Godot, Blender and media acceptance, evidence builders, service acceptance) are input and output plumbing or lists of facts.
