# The privileged update pass, modelled and proved

The beacon applies a signed feed to a host as a privileged, sequential, fault-prone protocol over a
filesystem, two per-channel trust states and a service manager. This project models that protocol in
Dafny and proves what it keeps under every fault schedule, at every crash point and over runs of passes.

How the world is modelled:

- **The disk** (`Files.dfy`) is an object holding a map from paths to bytes. Every primitive (rename,
  remove, create, append, read) asks a fault schedule what happens, and the disk remembers every state it
  has passed through; those states are the crash points. A write passes through every prefix of its bytes.
- **The adversary** owns staging: each attempt to read it meets an arbitrary list of reads (`Install.Feed`).
- **An OS installer** may rewrite the whole disk, step by step, except the files directly in the beacon's
  own state directory.
- **The hash** is a parameter. No promise assumes it collision-free: where equality of contents is
  concluded from equality of digests, the alternative is a named pair of colliding contents.
- **Foreign judgements** (the version probe, the shared install/update/skip decision, loadability, the
  signed-chain check, the text forms of records) are parameters; the few laws relied on are the predicates
  `LawfulDecide`, `LawfulJson`, `LawfulBuilds` and `Lawful`.

| module | what it covers |
|---|---|
| `Dacl` | the DACL judge against the order-sensitive access check |
| `Files`, `Components`, `Hashing`, `Health` | the disk, the planned component, digests, the probe |
| `Swap`, `Install`, `Selection` | replace one binary, stage and install one artifact, choose a variant |
| `Rollback`, `Persist` | the last-known-good cache, atomic publication |
| `TrustStore`, `Installed` | the monotonic trust state and the build record, per channel |
| `Pass`, `Apply`, `Broker` | the health gate, one component, a whole pass, its service log and its driver |
| `Version`, `Plan`, `Catalog` | ageing versions, planning, the default catalog |
| `Runs`, `DigestRuns` | whole passes: the build record and the fixed point; digest-evidenced builds over runs of passes |
| `Lock` | the single-instance lock between processes, both realisations |
| `Scheduler` | the daily task and the opt-out marker |

`dafny verify dfyconfig.toml` checks everything.

Where the code does less than its documentation or a natural reading promises, the code is modelled and
the exact condition is proved:

- `scheduler.rs:345-354` says a state with neither task nor opt-out can only come from outside. It can come
  from `uninstall` itself, when the removal reports an error although the task is gone, for instance when
  it was absent already or `daemon-reload` fails after the unit files are removed
  (`UninstallLosesBothIff`, `UninstallIsSafeIffRegistered`, `SecondUninstallCanUndoTheFirst`); and on a
  platform whose registration tears the old task down first, from `install` (`InstallLosesBothIff`).
- The backwards guard of a digest-evidenced component is blind to a failed digest read, which plans an
  Install the guard does not look at, and to an unreadable record (`DowngradeIffGuardIsBlind`).
- A record whose read fails while its write works restarts from empty and forgets every other component
  (`RecordingByTheSchedule`, `TurnOnTheRecord`, `RecordFaultsDoHappen`). For a component held back by its
  record alone that is exactly what takes it out of the plan/apply fixed point (`PassReachesAFixedPoint`).
- A record write that fails leaves the newer build under the older record, and the guard then lets every
  offer from the recorded build up pass: with build 3 recorded, 5 on disk and 4 on offer it goes backwards
  (`UnwrittenRecordAdmitsDowngrade`, `DowngradesDoHappen`).
- A rolled-back digest-evidenced update loses its recorded build unless the record step writes nothing
  (`RecordSurvivesRollbackIff`).
- The verdict about the files a directory creates can be a finding that is not real, when everything it
  finds is an undecodable grant under inherit-only denies of every right (`JudgeFilesIsExactIff`,
  `FilesFindingCanBeHarmless`); the verdict about the directory itself cannot (`JudgeIsExactAsRead`).
- Recording an opt-out can report an error and still count: hardening alone secures a marker whose owner is
  already privileged (`FailedRecordCountsIff`).
- The `.old` copy of a double fault is protected within that call only; `OldCopySurvivesIff` says when it
  outlives the next one.
- Packing a version whose major is too large panics, since the workspace builds with overflow checks
  (`SafeMajorsNeverPanic`, `StableRoundTrip`); a plan then fails with `Panicked`.
- On Windows a losing process's transient handle can refuse a third although no pass is running
  (`TransientHandleRefuses`).

## Model

| member | source | states |
|---|---|---|
| `Dacl.JudgeIsExact` | crates/dig-updater-broker/src/dacl.rs:377-499 | With readable trustees the one-pass judge reports a finding if and only if some token without a privileged SID (and with Everyone, unless it holds ANONYMOUS LOGON alone) is granted a write-equivalent bit by the first-match access check of [MS-DTYP] section 2.5.3.2 |
| `Dacl.JudgeNamesAWriter` | crates/dig-updater-broker/src/dacl.rs:429-455 | The SID a finding names is a principal that really is granted a write, alone with Everyone |
| `Dacl.CleanIsSoundForEveryReading` | crates/dig-updater-broker/src/dacl.rs:429-508 | With unreadable trustees a clean verdict stays true for every list of SIDs they could stand for |
| `Dacl.SomeReadingWritesIff` | crates/dig-updater-broker/src/dacl.rs:429-508 | For every list, some reading of its unreadable trustees lets an unprivileged token write if and only if there is a finding that names its principal, or an unreadable one whose write bits outlast the denies before it to Everyone, or those to ANONYMOUS LOGON |
| `Dacl.JudgeIsExactAsRead` | crates/dig-updater-broker/src/dacl.rs:429-508 | On every list whose unreadable grants carry every right and whose denies that apply to the object carry no generic one, as the reader produces them, the judge reports a finding about the object if and only if some reading really lets an unprivileged token write |
| `Dacl.JudgeFilesIsExactIff` | crates/dig-updater-broker/src/dacl.rs:420-422 | For every list the file verdict is exact, over the readings of the list a created file inherits, unless each of its findings is an unreadable grant whose write bits are all denied before it by inheritable denies, both to Everyone and to ANONYMOUS LOGON |
| `Dacl.JudgeFilesIsExactAsRead` | crates/dig-updater-broker/src/dacl.rs:420-422 | So on a list the reader produces it is exact when no deny that files inherit carries a generic right |
| `Dacl.FilesFindingCanBeHarmless` | crates/dig-updater-broker/src/dacl.rs:429-508 | Otherwise it need not be: a list that can be read, with inherit-only denies of every right, on which the file verdict is a finding although no reading lets an unprivileged token write such a file |
| `Dacl.InheritanceCommutes` | crates/dig-updater-broker/src/dacl.rs:420-422 | Judging the files a directory creates equals judging the list such a file inherits, deny prefixes included, for every DACL |
| `Dacl.JudgeFilesIsExact` | crates/dig-updater-broker/src/dacl.rs:420-422 | So the file question is exact too: a finding iff an unprivileged token is granted a write by the inherited list |
| `Dacl.DenyOrderMatters` | crates/dig-updater-broker/src/dacl.rs:457-499 | The same two entries are a finding or not depending on their order |
| `Dacl.AdministratorAccountForm` | crates/dig-updater-broker/src/dacl.rs:523-535 | The administrator-account match accepts exactly the SIDs of the form domain prefix, dash, 500 with the shape the code requires |
| `Dacl.WellKnownGroupsAreUnprivileged` | crates/dig-updater-broker/src/dacl.rs:176-220 | Everyone and ANONYMOUS LOGON are not on the allowlist, which the exactness argument rests on |
| `Hashing.Sha256File` | crates/dig-updater-broker/src/hashing.rs:100-114 | Hashing a file in bounded, arbitrarily short reads gives the digest of the whole content |
| `Hashing.DecodeOfHexLower` | crates/dig-updater-broker/src/hashing.rs:84-92 | Decoding the lower-case rendering returns the bytes |
| `Hashing.HexLowerInjective` | crates/dig-updater-broker/src/hashing.rs:84-92 | Equal renderings mean equal digests, which restore and the planner rely on |
| `Hashing.GateIsCaseInsensitiveEquality` | crates/dig-updater-trust/src/verify.rs:281-298 | The staging gate (lower-case, decode, 32 bytes, compare) accepts exactly the pairs the case-insensitive string comparison of the planner and the health gate accepts |
| `Hashing.GateDeterminesContent` | crates/dig-updater-trust/src/verify.rs:281-298 | Two contents one signed digest admits are equal, or a collision is exhibited |
| `Swap.RetryRename` | crates/dig-updater-broker/src/install.rs:393-409 | The retry loop returns, spends and sleeps exactly what its specification function says, moves the file only on success and leaves the disk unchanged on any error |
| `Swap.RetrySucceedsIff` | crates/dig-updater-broker/src/install.rs:393-409 | It succeeds exactly when some call within the budget of max(1, attempts) succeeds after only in-use answers |
| `Swap.RetryGivesUpOnlyWhenSpent` | crates/dig-updater-broker/src/install.rs:393-409 | It reports in-use only after spending the whole budget |
| `Swap.BackoffsClosedForm` | crates/dig-updater-broker/src/install.rs:393-409 | n calls sleep backoff times n(n-1)/2 in all, so never more than the full budget does |
| `Swap.SwapIsSafe` | crates/dig-updater-broker/src/install.rs:316-388 | At every crash point and under every fault schedule the destination holds its old bytes, or is absent with them whole under `.old`, or holds all the new bytes; on return Installed means new, Deferred unchanged, Failed unchanged or recoverable |
| `Swap.RenameIntoPlace` | crates/dig-updater-broker/src/install.rs:304-388 | The imperative replace equals its specification function in outcome, disk and crash points, and with no fault it installs |
| `Swap.OldCopySurvivesIff` | crates/dig-updater-broker/src/install.rs:316-388 | From any tree with the destination absent and its bytes under `.old`, for every schedule and budget: after the next call those bytes are still whole somewhere if and only if it stopped before the clear, or the clear was refused and, if the placement succeeded, the final removal was refused too |
| `Install.CopyAndHash` | crates/dig-updater-broker/src/install.rs:178-221 | Whatever the worker serves between reads, the private file and the hasher receive the same bytes |
| `Install.StageVariant` | crates/dig-updater-broker/src/pass.rs:637-652 | Staging succeeds only on a contained path whose streamed bytes verify and are exactly the private copy; it fails with the escape error iff the path is not contained, and with no disk fault it fails only when one of these does |
| `Install.RefreshAlias` | crates/dig-updater-broker/src/install.rs:260-291 | At every crash point an alias being refreshed holds its old bytes, or the primary's, or its old ones are whole under `.old`; nothing outside the alias and its working files changes |
| `Install.RefreshAliases` | crates/dig-updater-broker/src/install.rs:260-280 | A successful refresh makes every alias carry the primary's bytes; a deferred one leaves each alias old or new and the primary untouched |
| `Install.InstallRaw` | crates/dig-updater-broker/src/install.rs:227-280 | At every crash point of a raw install every binary of the set holds its old bytes, the new ones, or its old ones whole under `.old`; installed means the whole set is new, deferred means each binary is old or new |
| `Install.RunNativeInstaller` | crates/dig-updater-broker/src/install.rs:431-441 | The package is handed to a trusted installer or to none, the outcome is the installer's, and the private copy is dropped either way |
| `Install.InstallFromPrivate` | crates/dig-updater-broker/src/install.rs:227-249 | A raw install makes the whole set hold the verified bytes or says it did not; nothing but the set and its working files changes; a package installer never reaches the state directory |
| `Selection.SelectLoadableVariant` | crates/dig-updater-broker/src/pass.rs:583-632 | The chosen private copy verifies against the chosen variant's digest and is the content that was judged, although a fallback is staged a second time (or a collision is exhibited); an error with a healthy disk means staging served the wrong bytes |
| `Selection.RefusedMeansEveryVariant` | crates/dig-updater-broker/src/pass.rs:583-632 | It refuses exactly when every variant's inspected bytes are refused, and uses an indeterminate variant only when none is loadable |
| `Selection.FirstOf` | crates/dig-updater-broker/src/pass.rs:593-629 | The choice is the first variant with the wanted verdict |
| `Pass.CheckBinarySet` | crates/dig-updater-broker/src/pass.rs:901-955 | The health gate passes only if every binary of the set reports the planned version, or, for digest evidence, the installed bytes match; with working reads exactly then |
| `Pass.SnapshotSet` | crates/dig-updater-broker/src/pass.rs:855-869 | The snapshot captures the whole set, each binary under its own key, writes only inside the cache, and when the keys are apart every capture stays restorable |
| `Pass.OneAliasKeepsKeysApart` | crates/dig-updater-broker/src/pass.rs:984-990 | A set with at most one alias is cached under files that never meet, whatever the names are |
| `Pass.RollbackSet` | crates/dig-updater-broker/src/pass.rs:874-894 | A successful rollback puts every member back, a fresh placement being removed; with a healthy disk and an intact cache it always succeeds, whatever the age of the build or the floor |
| `Pass.PutBackStepLosesNothing` | crates/dig-updater-broker/src/pass.rs:874-894 | No state of the rollback loses a binary the install had not lost |
| `Pass.PutBackIsRestored` | crates/dig-updater-broker/src/rollback.rs:138-187 | A member put back by digest holds exactly its earlier bytes, or a collision is exhibited |
| `Apply.Installer.ApplySelected` | crates/dig-updater-broker/src/pass.rs:690-749 | The control calls are none, one failed stop, or a stop answered by one start on Ok and Err alike, and everything in between happens while the service is stopped |
| `Apply.Installer.FinishApply` | crates/dig-updater-broker/src/pass.rs:804-847 | Installed only past the gate; RolledBack only with every member as before; a deferral changes nothing further |
| `Apply.Installer.RecordInstalledBuild` | crates/dig-updater-broker/src/pass.rs:783-798 | The record is rewritten for an install or a rollback, never on an overridden feed, and a failed write leaves it as it was |
| `Apply.Installer.ApplyComponent` | crates/dig-updater-broker/src/pass.rs:654-764 | One component under every fault schedule: installed bytes are signed and gated, a rollback restores the set, a refusal makes no service call and touches only the private copy, a service's binaries change only while it is stopped, the trust files never change, and at no crash point is a binary of a raw set lost; with a healthy disk a raw component errors only if staging misserved |
| `Apply.Installer.InstallLosesNothing` | crates/dig-updater-broker/src/install.rs:316-388 | Every state of the install, and of the rollback after it, keeps each binary as before, signed, or whole under `.old` |
| `Broker.ApplyOthers` | crates/dig-updater-broker/src/pass.rs:440-477 | Every component but the beacon takes its turn in plan order, without a gap on disk or in the service log, and the success flag is exactly that each ended skipped, installed or refused; an error is the last turn's |
| `Broker.AdvanceState` | crates/dig-updater-broker/src/pass.rs:959-967 | At every crash point the trust files are as before or the channel's file holds the advanced marks; on success it does |
| `Broker.ApplyPlan` | crates/dig-updater-broker/src/pass.rs:440-516 | The marks advance iff every other component settled and the feed was not overridden, at every crash point; the beacon goes last and has no say in it; the report lists every turn and hold; and on Ok and Err alike every turn taken, the beacon's own included, ended as promised and the service log added is theirs, bracketed |
| `Broker.PassLogIsBracketed` | crates/dig-updater-broker/src/pass.rs:1006-1026 | Over a whole pass, the beacon's own turn included and however it ended, every successful stop in the log is answered at once by a start of the same service and every start answers one |
| `Broker.RunPass` | crates/dig-updater-broker/src/lib.rs:465-542 | A pass whose self-check fails changes nothing; one the broker's own re-verification does not authorise removes at most debris of the legacy nested staging directory; at every crash point of an authorised one the trust files are as before or hold its marks, the latter only if every component but the beacon settled, on the tracked feed; it reports an advance iff that, and the service log added is bracketed on every exit; with no disk fault an authorised one fails only by its plan or a turn |
| `Broker.PrepareStaging` | crates/dig-updater-broker/src/lib.rs:493-497 | Staging is prepared or the pass stops with nothing changed; the legacy removal, however far it gets, takes only files below that directory, at every crash point |
| `Broker.RunOnce` | crates/dig-updater-broker/src/lib.rs:280-331 | With the lock, and before the configuration is read, the schedule self-heal runs, whatever comes of it; without the lock nothing at all is touched; with an unreadable configuration or while paused neither disk nor services are; past the gates it is the pass |
| `Broker.CrashNeverLowersMarks` | crates/dig-updater-broker/src/state.rs:93-179 | At every crash point of a pass no channel's effective marks are lower and the other channel's are the same |
| `Broker.PassesAreARun` | crates/dig-updater-broker/src/lib.rs:465-542 | Any sequence of passes of a host, each ended or cut at one of its crash points, is a run of trust steps |
| `Broker.PassesNeverLowerMarks` | crates/dig-updater-broker/src/state.rs:93-179 | So over any such passes, with any channel switches, no channel's effective marks are lower after a pass than before an earlier one |
| `Broker.RollbackToLastKnownGood` | crates/dig-updater-broker/src/lib.rs:348-370 | For any cache content: every file but a working copy is as before or holds bytes the cache vouched for, with a build at or above the channel's persisted floor, when their key had its turn, at every crash point; if no record points into the cache, vouched for from the start; with corrupt state nothing is written |
| `Rollback.CopyBytes` | crates/dig-updater-broker/src/rollback.rs:238-255 | A copy leaves its target old or complete at every crash point |
| `Rollback.Snapshot` | crates/dig-updater-broker/src/rollback.rs:91-120 | At every crash point the cached copy is the old or the new one whole, and the record changes only after the copy is in place |
| `Rollback.Restore` | crates/dig-updater-broker/src/rollback.rs:138-187 | A restore succeeds only with matching cached bytes and, across passes, a known build at or above the floor; otherwise the destination is untouched |
| `Rollback.LoadEntry` | crates/dig-updater-broker/src/rollback.rs:199-211 | A loaded entry is exactly what the record file says |
| `Rollback.RollbackAll` | crates/dig-updater-broker/src/lib.rs:360-370 | For any records: at every crash point every file but a working copy is as before or holds bytes the cache vouched for when their key had its turn; on success every recorded destination holds such bytes |
| `Rollback.VouchedFromTheStart` | crates/dig-updater-broker/src/rollback.rs:138-187 | When no record points into the cache, every state of a rollback holds only bytes the cache vouched for before it began |
| `Rollback.SnapshotCrashKeepsPairsTogether` | crates/dig-updater-broker/src/rollback.rs:91-120 | Whatever crash point a snapshot stops at, a pair that still re-verifies was recorded together |
| `Rollback.SnapshotCrashThenRollback` | crates/dig-updater-broker/src/rollback.rs:91-187 | Snapshot, crash, manual rollback: a destination gets only bytes whose digest was recorded for it together with a build at or above the floor |
| `Persist.WriteJsonAtomic` | crates/dig-updater-broker/src/persist.rs:19-39 | At every crash point, partial writes included, the target is the complete old or the complete new file |
| `TrustStore.Load` | crates/dig-updater-broker/src/state.rs:120-155 | Loading reads the channel's own file, else (nightly) the legacy file, else starts at zero; an unreadable file is an error, not a fresh start |
| `TrustStore.Save` | crates/dig-updater-broker/src/state.rs:165-179 | Saving publishes the loaded object with the four marks replaced, atomically, at the channel's own path |
| `TrustStore.LoadAfterSave` | crates/dig-updater-broker/src/state.rs:120-179 | Load after save returns the saved marks and every unknown key with its value |
| `TrustStore.LoadsIffEveryMarkIsThere` | crates/dig-updater-broker/src/state.rs:120-200 | An existing file loads if and only if every mark is there as an unsigned number in range, and then as exactly those; anything less is corruption, never zero |
| `TrustStore.PassKeepsMarks` | crates/dig-updater-broker/src/state.rs:93-179 | One pass never lowers its own channel's effective marks, adoption of the legacy file included, and leaves the other channel's as they are |
| `TrustStore.MarksNeverDecrease` | crates/dig-updater-broker/src/state.rs:93-179 | Over any run of passes with arbitrary channel switches no channel's marks ever decrease |
| `TrustStore.OtherChannelUntouched` | crates/dig-updater-broker/src/state.rs:93-101 | A run that never tracks a channel leaves its marks exactly as they were |
| `Installed.Record` | crates/dig-updater-broker/src/installed.rs:119-131 | From primitive k on: it succeeds iff primitives k+1, k+2 and k+3 work, and then the file holds what the read as primitive k found (nothing, if that failed) with this component replaced or forgotten; else the file is as it was |
| `Installed.RecordingByTheSchedule` | crates/dig-updater-broker/src/installed.rs:96-131 | So its own component's entry becomes the build recorded iff the write works, and every other entry is lost iff the write works and the read before it does not |
| `Installed.RecordReadsBack` | crates/dig-updater-broker/src/installed.rs:96-131 | What was recorded reads back for that component and the others keep theirs |
| `Version.PackingIsAnOrderEmbedding` | crates/dig-updater-broker/src/plan.rs:80-85 | With minor and patch below 1000 the packed build preserves and reflects version order and is injective |
| `Version.SafeMajorsNeverPanic` | crates/dig-updater-broker/src/plan.rs:80-85 | Every minor and patch of a major version packs within 64 bits iff the major is at most 18446744073708; beyond it the checked arithmetic panics |
| `Version.StableRoundTrip` | crates/dig-updater-broker/src/plan.rs:70-86 | Any printed stable version (padding, optional `v`, non-nightly suffix) packs to its number, or panics exactly on overflow |
| `Version.NightlyIsAgedByDateAlone` | crates/dig-updater-broker/src/plan.rs:97-104 | A version with the nightly marker is aged by its eight-digit date or not at all, never on the semver scale |
| `Version.NightlyRoundTrip` | crates/dig-updater-broker/src/plan.rs:97-104 | A printed nightly packs to its date |
| `Version.NightlyOrder` | crates/dig-updater-broker/src/plan.rs:97-104 | Nightly builds compare as their dates do |
| `Version.ProbeLineAgesToItsVersion` | crates/dig-updater-broker/src/plan.rs:702-713 | A probe line `<program> <version> ...` ages to its version whatever detail follows |
| `Plan.StagedVariants` | crates/dig-updater-broker/src/plan.rs:594-618 | Every artifact for the platform becomes a variant in order, or the plan fails with the missing-artifact error, exactly when one was not staged |
| `Plan.Build` | crates/dig-updater-broker/src/plan.rs:538-672 | The planning loop equals the specification function of the manifest, the disk, the record and which digest reads worked |
| `Plan.SkipIffCurrent` | crates/dig-updater-broker/src/plan.rs:633-655 | A component is planned Skip iff its whole set would pass the health gate now, or it is present under digest evidence and the backwards guard (or an empty offered version) holds it back; and, for digest evidence, only if the digest read worked |
| `Plan.StaleAliasIsRedriven` | crates/dig-updater-broker/src/plan.rs:805-827 | A missing or out-of-date binary of a probed set is always driven again |
| `Plan.ReplanSkipsExactly` | crates/dig-updater-broker/src/plan.rs:538-672 | Planning a manifest that planned once, on any later disk and record and whichever digest reads worked before: it fails iff packing an answered version panics, and otherwise holds and plans the same components and skips exactly those that are skippable now |
| `Plan.DowngradeIffGuardIsBlind` | crates/dig-updater-broker/src/plan.rs:633-655 | A digest-evidenced component is acted on below its recorded build iff the digest read failed or (unless the offered version is empty) the record could not be read |
| `Plan.OutdatedIsActedOnIff` | crates/dig-updater-broker/src/plan.rs:640-655 | With both reads working an outdated one is acted on iff no newer build is recorded for it |
| `Plan.ActionableDigestIsUnageable` | crates/dig-updater-broker/src/plan.rs:732-752 | An actionable digest-evidenced component has no known installed build, so no manual rollback will ever reinstate its snapshot |
| `Runs.TurnOnTheRecord` | crates/dig-updater-broker/src/pass.rs:783-798 | What a whole turn leaves recorded for any component, under any faults, told by its result, the override and the four answers from its record step on: its own entry becomes the build it left iff the write works; every other entry is lost iff the write works and the read before it does not |
| `Runs.RecordFaultsDoHappen` | crates/dig-updater-broker/src/installed.rs:119-131 | Both at a concrete record: a refused read loses the other component, a refused write keeps the old build |
| `Runs.RecordSurvivesRollbackIff` | crates/dig-updater-broker/src/pass.rs:783-798 | After a rolled-back digest-evidenced update, under any faults, a build is recorded for the component iff one was before and the record step writes nothing: the feed was overridden, or one of the three primitives of the write does not work |
| `Runs.SettledAtTheEnd` | crates/dig-updater-broker/src/pass.rs:440-516 | Under any faults, a component that ended installed or skipped would be skipped again when the whole pass is over, other turns and state advance included, iff it was not held back by its record alone in a pass where some turn wrote the record after failing to read it |
| `Runs.PassReachesAFixedPoint` | crates/dig-updater-broker/src/plan.rs:549-671 | The plan/apply fixed point under every fault schedule: after a pass in which everything ended installed or skipped, re-planning fails iff packing panics, and otherwise skips every component but exactly those held back by their record alone in a pass where some turn wrote the record after failing to read it |
| `Runs.QuietPassSkipsAll` | crates/dig-updater-broker/src/plan.rs:549-671 | So after such a pass with no fault the next plan skips everything |
| `Runs.PlanIsApart` | crates/dig-updater-broker/src/plan.rs:538-672 | What a manifest that names each component once plans from a catalog whose targets are apart is apart, as the fixed point asks |
| `DigestRuns.FinishedPassIsGuarded` | crates/dig-updater-broker/src/pass.rs:440-516 | What a finished pass promises of its history makes it, for every digest-evidenced raw component it did not roll back, with working reads and no other turn writing the record unread, a pass that leaves the component and its record alone outside its own turn |
| `DigestRuns.DigestPassIsMonotone` | crates/dig-updater-broker/src/plan.rs:633-655 | One such pass whose record write works never lowers the component's build and leaves the record equal to it; the bytes change only by an install of signed ones |
| `DigestRuns.InstalledBuildNeverDecreases` | crates/dig-updater-broker/src/plan.rs:843-864 | Over any run of finished passes whose reads and record writes work, whatever builds the feed offers and whatever else fails, the installed build never decreases, the record equals it throughout, and it is the build of the bytes on disk: the first ones, or signed content some pass of the run installed |
| `DigestRuns.UnwrittenRecordAdmitsDowngrade` | crates/dig-updater-broker/src/pass.rs:783-798 | After an install whose record write failed, both reads working, the next plan goes below the installed build iff the offer is at or above the older recorded one |
| `DigestRuns.UnwrittenRecordStaysOld` | crates/dig-updater-broker/src/pass.rs:783-798 | Such a pass leaves signed bytes of the newer build under the older record |
| `DigestRuns.DowngradesDoHappen` | crates/dig-updater-broker/src/plan.rs:633-655 | At a concrete host with build 4 on offer: skipped with 5 recorded, acted on when the digest read or the record read fails, and acted on with 3 left recorded |
| `Catalog.DefaultsAreApplicable` | crates/dig-updater-broker/src/plan.rs:281-397 | Every default target has its binaries apart from each other and from the working files, and none is held |
| `Catalog.TargetsAreApart` | crates/dig-updater-broker/src/plan.rs:281-397 | No two default components claim one file or a working file of the other's |
| `Catalog.DefaultsAreApart` | crates/dig-updater-broker/src/plan.rs:281-397 | So the default catalog's targets are apart, which `Runs.PlanIsApart` carries to every plan made from them |
| `Lock.StepKeepsInv` | crates/dig-updater-broker/src/lock.rs:107-157 | Every system call of every process keeps the lock invariant and never lowers the marks on disk |
| `Lock.MutualExclusion` | crates/dig-updater-broker/src/lock.rs:107-157 | At most one guard is live at every step of every run of any number of processes, in both realisations |
| `Lock.LoadToSaveIsAtomic` | crates/dig-updater-broker/src/lib.rs:289-291 | While a pass has loaded the marks and not published, no other process changes them |
| `Lock.MarksMonotone` | crates/dig-updater-broker/src/lib.rs:499-541 | The marks never decrease over any interleaving of processes, failures and crashes |
| `Lock.FileLockRefusedIffLive` | crates/dig-updater-broker/src/lock.rs:259-294 | A file-lock attempt is refused exactly while some guard is live, so a crash leaves nothing stale |
| `Lock.NamedObjectRefusedIffOpen` | crates/dig-updater-broker/src/lock.rs:120-157 | A named-object attempt is refused exactly while some process has the object open |
| `Lock.TransientHandleRefuses` | crates/dig-updater-broker/src/lock.rs:147-155 | A loser's transient handle can refuse a third process though no guard is live |
| `Scheduler.Host.Uninstall` | crates/dig-updater-broker/src/scheduler.rs:392-400 | Record, remove, and withdraw the record on a reported error: exactly the effects of the specification, in order |
| `Scheduler.Host.Install` | crates/dig-updater-broker/src/scheduler.rs:139-149 | Refuse, register, then clear: exactly the effects of the specification, in order |
| `Scheduler.Host.Ensure` | crates/dig-updater-broker/src/scheduler.rs:452-469 | The self-heal: exactly the effects and report of the specification |
| `Scheduler.Host.SetOptedOut` | crates/dig-updater-broker/src/optout.rs:90-98 | It succeeds iff every step of the recording works, and then the marker counts; it never touches the task and never takes the force of a marker away at any step; a failure leaves an honored marker if the file was secured before the error, else at most a marker where there was none |
| `Scheduler.RecordLeaves` | crates/dig-updater-broker/src/optout.rs:90-98 | The same of the specification: success, what every failure leaves behind, and what holds at each step |
| `Scheduler.FailedRecordCountsIff` | crates/dig-updater-broker/src/optout.rs:90-98 | A recording that reports failure leaves an opt-out that counts iff one counted before, a new file was born privileged and tight, or the hardening took hold under a privileged owner, the one the file had or the one claimed |
| `Scheduler.UninstallLosesBothIff` | crates/dig-updater-broker/src/scheduler.rs:392-400 | An uninstall passes through "no task, no opt-out" iff it recorded, the removal reported an error with the task gone, and the record was withdrawn |
| `Scheduler.UninstallIsSafeIffRegistered` | crates/dig-updater-broker/src/scheduler.rs:392-400 | With all-or-nothing removals an uninstall is safe under every fault schedule iff the task was registered |
| `Scheduler.InstallLosesBothIff` | crates/dig-updater-broker/src/scheduler.rs:139-149 | An install passes through that state iff it gets past the guard, nothing is opted out, and the registration tears the old task down first |
| `Scheduler.MarkerOutlivesAFailedInstall` | crates/dig-updater-broker/src/scheduler.rs:139-149 | A failed install never clears the opt-out marker |
| `Scheduler.OptOutIsRespected` | crates/dig-updater-broker/src/scheduler.rs:452-480 | An opted-out host stays opted out at every step of every run of operations, each taken to its end or cut by a crash anywhere, that contains none of the undoing ones |
| `Scheduler.UndoingUndoes` | crates/dig-updater-broker/src/scheduler.rs:392-400 | Each undoing operation does end the opt-out, so the condition is exact |
| `Scheduler.SecondUninstallCanUndoTheFirst` | crates/dig-updater-broker/src/scheduler.rs:392-400 | After any run that leaves the task registered: a repeated uninstall whose removal errs withdraws the first one's record, and the next self-heal registers the task |
| `Scheduler.EnsureActsOnlyOnProvableAbsence` | crates/dig-updater-broker/src/scheduler.rs:452-480 | The self-heal acts only on a provably absent task nobody opted out of, from a privileged root, and then it does |

## Left out

- Existence checks answer exactly: a path that is there is seen to be there; only reads, writes, renames and removals fail.
- A read loop that never ends, file modes, access-control application and flushing are not part of this model; a rename publishes the whole file.
- The write that fails part way leaves a prefix; a storage layer that reorders writes is not modelled.
- Containment of a staged path in the staging directory is one bit of the adversary's answer; canonical paths are not modelled.
- JSON text is a pair of print and parse functions with the law that parsing undoes printing; a record cut short is assumed not to parse.
- The health probe and the enumeration probe are one function of a binary's bytes: running a binary twice gives the same answer and running it changes nothing.
- Apply.Installer.ApplyComponent: for a native package the bytes on disk are whatever the OS installer left, gated by the health check only, as in the code; and the beacon's own component is taken to be a raw binary, which is how the catalog declares it.
- Runs.PassReachesAFixedPoint: asks components that share no name or file (`Runs.PlanIsApart`), installers that keep to their own component's files, and digest reads that work in the second plan; `Plan.SkipIffCurrent` says what a failed one does. Components that ended deferred, refused or rolled back are not spoken of.
- DigestRuns.InstalledBuildNeverDecreases: speaks of finished passes that plan the component, read its digest and the record, write the record if they install, do not roll the component back, and in which no other turn writes the record unread; between them nothing may touch the component or its record. `Plan.DowngradeIffGuardIsBlind`, `DigestRuns.UnwrittenRecordAdmitsDowngrade`, `Runs.TurnOnTheRecord` and `Runs.RecordSurvivesRollbackIff` say what the others do.
- Broker.RunOnce: the lock is a parameter here and a protocol of its own in `Lock`; what the self-heal reads and meets are inputs, and the status mirror written after a pass is left out.
- Broker.RollbackToLastKnownGood: the list of cached keys is a parameter and reading the cache directory is not modelled; nothing is promised of the working copies a restore makes, which have an extension of their own.
- Broker.RunPass: asks a catalog whose sets are apart and lie outside the beacon's own directories; `Catalog.DefaultsAreApplicable` shows the default one is.
- Dacl.JudgeFilesIsExact: CREATOR OWNER and OWNER RIGHTS count as privileged, as in the code's own allowlist.
- The Win32 descriptor reader, SID rendering and generic-right mapping of `dacl.rs` are not part of this model; it starts from the parsed list.
- Lock: the security attributes of the mutex and the creation of the state directory are not modelled; a failed open is a step that does not happen.
- Scheduler: the three privilege questions and the presence reading are inputs; hardening the marker is taken to leave no unprivileged principal a write, and claiming its ownership to give it a privileged owner.
- Version numbers are unbounded where the code's are 64-bit, except in `Version` and `TrustStore.ReadU64`, where the bound matters.
- Refusal prose, detail strings, activation verdicts, the stale-process note, the status mirror, the configuration store and the command line are left out.
- Sandboxing, spawning, process probing, elevation, service argument lists, the extension force-list and the feed-signing tools are left out; they would add foreign calls and easy members only.
- Signature verification is the parameter `accepts`; the worker is whatever it reports and stages.
