# Retune, verified

A Dafny model of the parts of the Retune agent and server where something durable is at stake, with proofs
of what they promise. One module follows one component of the source, in the form that component has:
pure decisions are functions, code that changes a store is a class whose methods are proved against a
specification, and code that several processes run at once is a state machine whose steps are labelled
with everything the outside world may answer.

* `UpdateProtocol` - the agent's self-update as a protocol of the agent, any number of supervisors, the update
  record, the service configuration and the staged files. A failed controller call may have taken effect or
  not, and nothing assumes that updates do not overlap.
* `CarefulRuns`, `FailingRuns` - what holds besides if updates are begun with care, and runs in which it does
  not because they are not.
* `Supervision`, `Syncing` - the supervisor and the agent's side of it as they are written. Every action
  they take is logged as a step of the protocol, so its theorems hold of them.
* `SelfUpdate`, `Release`, `Versions` - the record and the decisions taken from it, signatures over
  abstract cryptography, and the order of versions.
* `Systemd`, `SystemdShow`, `SystemdUpdates` - the drop-in that keeps a service's arguments through an update,
  printer and parser, what systemctl shows before there is one, and the protocol on a host that uses them.
* `ServerUpdate` - verify, back up, stage, swap, wait, restore, over a real file map.
* `PolicyPlan`, `Policy`, `PolicyHistory` - configuration profiles: the plan, one reconcile, and whole
  histories of reconciles and drift.
* `Commands`, `Sessions` - the command ledger and the result queue as a protocol with crashes, and the
  session's code as steps of it.
* `MaintenanceWindows`, `Scripts`, `Apps` - when changes may be made, and what scripts and apps do over any
  number of check-ins.
* `LogRotation` - the rotating log on a disk that may refuse any call.
* `Prelude`, `Text` - shared values, and the few functions of Go's standard library that matter here.

What the proofs found, apart from confirming what the code promises:

* Two agent builds offered one after the other may be staged at once, because `Decide` only compares the
  same target. The first supervisor then takes the second one's success for its own and prunes the build
  the service is wired to (`FailingRuns.OverlapLosesTheWiredBuild`).
* An agent whose stamp is not the version of the folder it runs from may be offered that version, and deletes
  its own folder if the download fails (`FailingRuns.MisstampLosesTheWiredBuild`). If it succeeds, the attempt
  has one path for both builds, and a rollback is recorded of a service that is on the new path
  (`FailingRuns.SamePathIsMisjudged`): there the three-way promise of Supervise fails, and
  `Supervision.ThreeWayExactly` is the extent of it. The deletions cannot happen if every
  decision to install is taken with no supervisor left and by the build the service is wired to
  (`CarefulRuns.WiredBuildIsThere`).
* The agent's lock on the record does not reach the supervisor's process. With two updates under way, marking
  one's rollback reported may overwrite the other's (`FailingRuns.MarkOverVerdict`), exactly when a supervisor
  may yet get at the record (`FailingRuns.MarkingIsSafeExactly`); a check-in may write over a
  rollback (`FailingRuns.ProofOverVerdict`), and a look at an assigned build may decide on the record as it was
  before one (`FailingRuns.LookOverVerdict`); `CarefulRuns.VerdictIsQuietExactly` is the extent of the last two.
* `Version.Compare` reads a prerelease identifier of a hyphen and digits as a negative number, and numbers
  beyond 64 bits as words, and compares build metadata along, and so contradicts section 11 of Semantic
  Versioning 2.0.0 about 1.0.0--1 and 1.0.0-0, and about 1.0.0-a+1 and 1.0.0-a+2; `Versions.PrecedenceExactly`
  is the extent of it. `ParseVersion` does not read build metadata behind a release at all.
* `Version.Compare` answers 1 both ways for numeric prerelease identifiers of equal value spelt
  differently; `Versions.AntisymmetricExactly` is the exact extent of it.
* A drop-in with a line feed in an argument, or with a last argument that ends in whitespace the quoting
  overlooks, does not read back; `Systemd.DropInReadsBack` is an equivalence.
* An argument a unit was installed with that is empty, holds a space or begins with a semicolon is lost at the
  first update, because systemctl shows it unquoted (`SystemdUpdates.FirstUpdateKeepsArgumentsExactly`).
* `interval_hours` has no upper bound, and from 2562048 on the interval overflows; at that value the script is always
  due (`Scripts.IntervalHonouredExactly`).
* An app version that this machine could not use when it was first looked at inherits the failures of the
  version before, although a new version is meant to start afresh, and is then given up after fewer than three
  of its own (`Apps.OneFailureOfItsOwn`); `Apps.InheritsExactly` and `Apps.HeldBackEarlyExactly` are the extent
  of it.
* A version that this machine turns out not to be able to act on only after it was looked at, because the version
  to be removed first is beyond it, is not reported at all if the last outcome of any version was a failure,
  although it is meant to be reported once for each (`Apps.UnavailableIsNotTold`); `Apps.UnavailableIsToldExactly`
  is the extent of it.
* `ParseVersion` accepts a plus sign in front of each number (`Versions.PlusIsAccepted`), and any zeros behind
  it; `Versions.ParsedExactly` is the extent of it.
* A log rotation that fails after closing the file leaves a handle on which every later write fails, until
  the process starts again (`LogRotation.RotatingFile.Write`).

`dafny verify dfyconfig.toml` checks the whole project.

## Model

Class methods that only log a protocol step, and lemmas that only lead to the ones below, have no row.

| member | source | states |
|---|---|---|
| `UpdateProtocol.StepKeepsSafe` | internal/agent/selfupdate/syncer.go:284-445 | every step of the protocol (agent, any number of supervisors, starts, exits, deaths, each controller call working or failing with or without effect) keeps the safety invariant: the service wired to its installed path or a signed version's folder with its original arguments, every staged byte signed as its folder's version, and every record held anywhere consistent with that |
| `UpdateProtocol.RunsAreSafe` | internal/agent/selfupdate/supervise.go:44-162 | the same over every run, updates that overlap included |
| `UpdateProtocol.ServiceOnlyRunsVerifiedBuilds` | internal/agent/selfupdate/supervise.go:89-107 | from a fresh device, in every reachable state the arguments are the original ones and the path is the installed one or the folder of a version a trusted key signed, and whatever lies in that folder has the signed hash |
| `UpdateProtocol.ServiceOnlyRunsPublishedBuilds` | internal/release/release.go:122-136 | if the trusted keys have signed nothing but the builds and releases of a ledger, in every reachable state the service is wired to its installed path or to the folder of a version in the ledger's builds, and whatever lies in that folder has the hash listed with that version |
| `UpdateProtocol.StepKeepsAttended` | internal/agent/selfupdate/syncer.go:430-470 | every step keeps: a pending record has somebody who will resolve it, unless one of the listed mishaps happened |
| `UpdateProtocol.PendingIsAttended` | internal/agent/selfupdate/syncer.go:430-470 | in every run without those mishaps, a pending record is being handed over by the agent that wrote it, or has a supervisor about to read it or holding it with no verdict given yet |
| `UpdateProtocol.AnotherBuildExpiresIt` | internal/agent/runner/runner.go:74-90 | a pending record past its deadline is removed by the next start of any other build, which may then stage the same version again |
| `UpdateProtocol.TheNewBuildSettlesIt` | internal/agent/selfupdate/syncer.go:220-237 | a pending record is left alone by a start of the build it was staged for, deadline or not, and the first check-in of that build marks it succeeded |
| `UpdateProtocol.UnattendedUntilResolved` | internal/agent/runner/runner.go:74-90 | over any run, a pending record with no supervisor left changes exactly when a check-in of its own build writes it, a start of another build past its deadline removes it, or staging another version writes a record; until then it stays as it is and unattended |
| `UpdateProtocol.StepStaysQuiet` | internal/agent/selfupdate/decide.go:35-80 | once a rollback is on disk and only its version is offered, or a refusal and only its item, no step fetches anything or changes more of the record than its Reported flag |
| `UpdateProtocol.NeverFetchedAgain` | internal/agent/selfupdate/decide.go:35-80 | the same over every sequence of check-ins, lost reports, 404 answers, exits and restarts; CarefulRuns shows which verdicts start it |
| `UpdateProtocol.VerifiedIsSigned` | internal/release/release.go:156-173 | bytes whose hash matches a verified build, in either letter case, are signed as that version by a trusted key |
| `CarefulRuns.StepKeepsPresent` | internal/agent/selfupdate/supervise.go:170-188 | every step keeps both builds of an attempt in their folders and the wired one among them, a rolled back record only with no supervisor about, and a record being marked the one on disk, if every decision to install is taken with no supervisor left and by the build the service is wired to; looks that begin nothing are free |
| `CarefulRuns.WiredBuildIsThere` | internal/agent/selfupdate/supervise.go:170-188 | in every such run the build the service is wired to is on disk and its bytes are the signed ones, whatever fails, dies or is cancelled |
| `CarefulRuns.MarkingOnlyMarks` | internal/agent/selfupdate/syncer.go:189-207 | in every such run marking a rollback reported changes nothing of the record on disk but its Reported flag |
| `CarefulRuns.VerdictIsQuietExactly` | internal/agent/selfupdate/supervise.go:240-276 | a rollback a supervisor writes starts the memory NeverFetchedAgain speaks of exactly when the agent has neither a check-in that has read the record and not yet written it nor a look under way that read it as anything but an attempt at that version |
| `CarefulRuns.RefusalIsQuiet` | internal/agent/selfupdate/syncer.go:484-492 | a refusal written while staging, of a signature or of a build that cannot run here, always does |
| `CarefulRuns.RolledBackIsNeverFetchedAgain` | internal/agent/selfupdate/decide.go:35-80 | end to end from a fresh device: once such a run has written that rollback and only that version is offered, under whatever id, nothing is ever fetched and the record changes in Reported alone |
| `CarefulRuns.RefusedIsNeverFetchedAgain` | internal/agent/selfupdate/syncer.go:239-256 | the same of a refusal while only its item is offered |
| `CarefulRuns.ConclusionIsTrue` | internal/agent/selfupdate/supervise.go:44-162 | in every such run in which the controller answers, whatever interleaves and whatever else fails, a supervisor concludes with the record gone and the new build wired, or rolled back and it not wired, or pending and it wired |
| `CarefulRuns.AskIsTrueExactly` | internal/agent/selfupdate/supervise.go:194-201 | after a failed restore the verdict to come is one of those exactly when the controller answers or the service is not on the new build |
| `FailingRuns.StagesAnother` | internal/agent/selfupdate/decide.go:62-71 | a second, different build can be staged and handed to its own supervisor while the first is still under way |
| `FailingRuns.TakesItForItsOwn` | internal/agent/selfupdate/supervise.go:117-133 | a supervisor takes a success written for any version for its own and leaves no build but its own two |
| `FailingRuns.OverlapLosesTheWiredBuild` | internal/agent/selfupdate/supervise.go:170-188 | a run from a fresh device, no call failing, in which two updates overlap and the service ends wired to a build that has been deleted |
| `FailingRuns.MisstampLosesTheWiredBuild` | internal/agent/selfupdate/syncer.go:345-357 | a run with no overlap that ends so: the supervisor dies after the swap, a build of another stamp starts past the deadline, and the wired version offered again fails to download |
| `FailingRuns.SamePathIsMisjudged` | internal/agent/selfupdate/supervise.go:240-276 | a run in which such an agent stages the wired version over itself, so that a rollback in which every call works is recorded while the service is on the new path |
| `FailingRuns.SamePathIsMisjudgedUnstarted` | internal/agent/selfupdate/supervise.go:67-83 | a run in which that attempt is recorded as rolled back because the service would not stop, while it is on the new path |
| `FailingRuns.ProofOverVerdict` | internal/agent/selfupdate/syncer.go:220-237 | a run in which a check-in that had read the pending record writes its success over a rollback |
| `FailingRuns.LookOverVerdict` | internal/agent/selfupdate/syncer.go:239-262 | a run in which a look that read the record before a rollback was written decides on what it read and begins that version again, with no supervisor left and by the build the service is wired to |
| `FailingRuns.MarkOverVerdict` | internal/agent/selfupdate/syncer.go:189-207 | a run in which two updates overlap and marking the first one's rollback overwrites the second one's, after which the second is installed again |
| `FailingRuns.MarkingIsSafeExactly` | internal/agent/selfupdate/syncer.go:189-207 | whatever supervisors do between its read and its write, marking finds the record it read exactly when none of them may yet write or remove it without first stopping the agent |
| `SelfUpdate.DecideExactly` | internal/agent/selfupdate/decide.go:35-71 | exactly when a build is installed, and exactly when staying put is reported at every check-in |
| `SelfUpdate.ReconcileExactly` | internal/agent/selfupdate/decide.go:99-129 | a start reports exactly an unreported rollback and abandons exactly an overdue attempt at another build |
| `Supervision.Supervisor.SetBinPath` | internal/agent/selfupdate/supervise.go:89-95 | a failed call may still have repointed the service; nothing else changes, and it is one protocol step |
| `Supervision.Supervisor.RestoreBuild` | internal/agent/selfupdate/supervise.go:217-231 | succeeds exactly when stop, repoint and start all do, and then the old path and arguments are wired; otherwise the service is as it was or restored |
| `Supervision.Supervisor.StillOnNewBuild` | internal/agent/selfupdate/supervise.go:194-201 | true exactly when the controller answers and the service is wired to the new build |
| `Supervision.Supervisor.Rollback` | internal/agent/selfupdate/supervise.go:240-276 | restored exactly when every call of the restore works; the verdict written is rolled back, or pending exactly when the restore failed and an answering controller says the new build is wired; a failed write leaves the record as it was |
| `Supervision.Supervisor.PruneOldBuilds` | internal/agent/selfupdate/supervise.go:170-188 | removes exactly the builds that are neither of the two of this attempt nor stuck |
| `Supervision.Supervisor.Settle` | internal/agent/selfupdate/supervise.go:122-133 | the record goes first, and only then the old builds; if it cannot go, nothing does |
| `Supervision.Supervisor.CancelRun` | internal/agent/selfupdate/supervise.go:140-158 | a restored cancellation leaves the old build wired and no record; one that could not restore leaves the record as it was |
| `Supervision.Supervisor.NewBuildChecksIn` | internal/agent/selfupdate/syncer.go:220-237 | the check-in marks a record still pending for that version and touches no other |
| `Supervision.Supervisor.Watch` | internal/agent/selfupdate/supervise.go:112-162 | from the turns alone, exactly how the polling loop ends: kept, undone, not undone or cancelled, with what each leaves; Supervision.EndIsTheFirst says which turn decides |
| `Supervision.EndIsTheFirst` | internal/agent/selfupdate/supervise.go:112-162 | the first turn at which the proof of life is read, having come then or before, or the deadline is past, or supervision is cancelled, ends the watch; the proof goes before the deadline and that before a cancellation |
| `Supervision.Supervisor.CarryOut` | internal/agent/selfupdate/supervise.go:67-108 | stop, repoint, arm, start and watch in that order, exactly how it ends from the answers alone, with the right undoing for a failure of each, and what each end leaves |
| `Supervision.Supervisor.Supervise` | internal/agent/selfupdate/supervise.go:44-162 | every return is, from the answers alone, exactly the one OutcomeOf names: not started if the service would not stop, undone or not undone after a failure to start or an overdue watch, cancelled, and kept exactly on proof of life; what the record and the service are on every return that found a pending record, failed writes, removals and cancellations included; with the record writable and the controller answering, one of the three of ThreeWayExactly exactly unless it misjudges; all of it a run of the protocol; CarefulRuns.ConclusionIsTrue is about other runs |
| `Supervision.ThreeWayExactly` | internal/agent/selfupdate/supervise.go:44-162 | a return that was not cancelled leaves the record gone and the new build wired, or rolled back and it not wired, or pending and it wired, exactly unless the service would not stop while already on the new path, or was put back on a path that is the new one; FailingRuns.SamePathIsMisjudgedUnstarted and FailingRuns.SamePathIsMisjudged reach them |
| `Syncing.Syncer.CheckedIn` | internal/agent/selfupdate/syncer.go:220-237 | only a record pending for this very version becomes succeeded |
| `Syncing.Syncer.MarkReported` | internal/agent/selfupdate/syncer.go:189-207 | with no supervisor at work meanwhile the record keeps everything but Reported, and one that has moved on to another version or status is left alone; FailingRuns.MarkingIsSafeExactly and CarefulRuns.MarkingOnlyMarks are about the rest |
| `Syncing.Syncer.ReportRollback` | internal/agent/selfupdate/syncer.go:113-155 | an unreported rollback, from this start or found since, is sent and kept until the server took it or will never take it; then the record is marked, if it can be read and written and is still of that version and status, and changes in Reported alone |
| `Syncing.Syncer.RememberRefusal` | internal/agent/selfupdate/syncer.go:484-492 | the record becomes a refusal of that item and version, already reported |
| `Syncing.Syncer.CheckBuild` | internal/agent/selfupdate/syncer.go:309-336 | passes exactly the verified builds; a bad version name is rejected unremembered, a bad signature is remembered |
| `Syncing.Syncer.Download` | internal/agent/selfupdate/syncer.go:338-367 | a file is put in place exactly when the folder could be made, the download arrived, its hash matches the signed one and the rename worked; otherwise the folder goes as far as it can |
| `Syncing.Syncer.HandOver` | internal/agent/selfupdate/syncer.go:368-445 | the exact condition for handing over, and what every other outcome leaves in the record, the folder and the supervisors |
| `Syncing.Syncer.WriteAndSpawn` | internal/agent/selfupdate/syncer.go:420-445 | the record is written before the supervisor is spawned, and taken back if none can be |
| `Syncing.Syncer.Abandon` | internal/agent/selfupdate/syncer.go:456-470 | with no supervisor coming, the record and the build go, each as far as it can be removed |
| `Syncing.NewRecordSays` | internal/agent/selfupdate/syncer.go:408-420 | the record of a new attempt names the service as Config answered it, the new build's folder, and a deadline the deployment's allowance after now |
| `Syncing.Syncer.Stage` | internal/agent/selfupdate/syncer.go:284-445 | exactly when it hands over, rejects and refuses, for every answer, and what each end leaves in the record, the folder and the supervisors: handed over exactly when the build is verified, the download arrives and every call up to the spawn works |
| `Syncing.Syncer.Consult` | internal/agent/selfupdate/syncer.go:244-256 | the record is read, and exactly an item whose own refusal it is is not even asked for |
| `Syncing.Syncer.Settle` | internal/agent/selfupdate/syncer.go:257-262 | the decision is taken on the record as it was read before the server was asked |
| `Syncing.Syncer.SyncOne` | internal/agent/selfupdate/syncer.go:239-278 | the exact condition under which a build is staged, and under which it is handed over, with what is left in each case; otherwise record, folder and supervisors are untouched |
| `Release.Verify` | internal/release/release.go:156-173 | acceptance implies that a trusted key signed this version together with this hash |
| `Release.VerifyExactly` | internal/release/release.go:156-173 | with key ids distinct, accepted exactly when the signature is for this version and hash and the named trusted key made it |
| `Release.SignedBinds` | internal/release/release.go:122-136 | of two builds, the first with version and hash of one line each, the signed bytes are the same exactly when the versions are the same and the hashes are but for case |
| `Release.OnlyPublishedIsAccepted` | internal/release/release.go:156-173 | from keys that have signed only the builds and releases listed, no build is accepted but of a version listed with that very hash |
| `SelfUpdate.VersionIsOneFolder` | internal/agent/selfupdate/syncer.go:553-560 | a valid version names one folder directly under bin: no separator, drive, line break or NUL, and neither bin itself nor its parent |
| `Syncing.ReleasesHaveFolders` | internal/agent/selfupdate/syncer.go:553-560 | a printed version whose prerelease sections 9 and 10 allow is valid exactly when it is at most 64 characters long |
| `Release.VerifyReleaseManifest` | internal/release/manifest.go:184-218 | an accepted manifest is what the signed bytes say, valid, and of the version signed |
| `Release.ManifestExactly` | internal/release/manifest.go:184-218 | exactly which signed bytes are taken for a release manifest |
| `Release.SignaturesAreSeparate` | internal/release/manifest.go:157-162 | no agent build signature is over the bytes of a release manifest signature |
| `Release.ReleaseSignedBinds` | internal/release/manifest.go:157-162 | the same binding for what is signed over a release manifest |
| `Release.OnlyReleasedIsAccepted` | internal/release/manifest.go:184-218 | from such keys no release manifest is accepted but of a version and of bytes listed |
| `Release.Validate` | internal/release/manifest.go:131-155 | the loop with its set of names accepts exactly a manifest of this schema and a readable version whose assets are named, each differently, and carry a hash, or for an image a name and a digest |
| `Release.HexSumExactly` | internal/release/manifest.go:150-152 | a hash is valid exactly when it is thirty-two bytes in hex, in either case |
| `Release.FindAsset` | internal/release/manifest.go:100-107 | an asset of the kind, system and architecture, and none only if there is none |
| `Versions.Compare` | internal/release/manifest.go:248-296 | the loops compute the order; it is 0 exactly on equal versions; on versions Semantic Versioning admits, build metadata included, it is section 11's precedence, both ways, unless what decides is misread |
| `Versions.PrecedenceExactly` | internal/release/manifest.go:248-296 | for all prereleases sections 9 and 10 allow, the order, asked either way round, is an independent statement of section 11 exactly when what decides is not misread: a hyphen and digits taken for a negative number, numbers beyond 64 bits taken for words, or build metadata compared along |
| `Versions.IdentRightExactly` | internal/release/manifest.go:268-287 | the same for two identifiers, with or without metadata behind them; two words with metadata are never misread |
| `Versions.MetadataIsCompared` | internal/release/manifest.go:230-245 | 1.0.0-a+1 and 1.0.0-a+2 parse and differ in build metadata alone; one is put before the other, and section 11 puts neither first |
| `Versions.MetadataAloneIsRejected` | internal/release/manifest.go:230-245 | 1.0.0+1, a version of section 10, does not parse |
| `Versions.HyphenNumberIsMisread` | internal/release/manifest.go:271-281 | 1.0.0--1 parses, is put before 1.0.0-0, and comes after it by section 11 |
| `Versions.HugeNumbersAreMisread` | internal/release/manifest.go:271-287 | of two numbers beyond 64 bits the longer is put first if its text comes first, and section 11 puts the shorter first |
| `Versions.CompareZero` | internal/release/manifest.go:248-296 | 0 exactly on equal versions, whatever they are |
| `Versions.CompareIsAntisymmetric` | internal/release/manifest.go:248-296 | with canonical identifiers, a question and its converse get opposite answers |
| `Versions.CompareIsTransitive` | internal/release/manifest.go:248-296 | with canonical identifiers, before and before is before |
| `Versions.AntisymmetricExactly` | internal/release/manifest.go:266-295 | for all versions whatever, opposite answers exactly when no two numeric identifiers of equal value and different spelling meet first |
| `Versions.LeadingZeroClash` | internal/release/manifest.go:266-288 | 1.0.0-01 and 1.0.0-1 are each newer than the other |
| `Versions.ParseVersion` | internal/release/manifest.go:230-245 | the loop reads every printed version back |
| `Versions.ParsePrinted` | internal/release/manifest.go:230-245 | printing then parsing is the identity |
| `Versions.ParsedExactly` | internal/release/manifest.go:230-245 | a text is read as a version exactly when, trimmed and without one leading v, it is three numbers with dots between and, behind a hyphen, anything; a number is 64 bit decimal without leading zeros, or has a plus sign in front |
| `Versions.PlusIsAccepted` | internal/release/manifest.go:226-245 | +1.0.0 is read as 1.0.0, although it is not MAJOR.MINOR.PATCH |
| `Versions.SpacesAndPrefix` | internal/release/manifest.go:229-231 | spaces around a printed version and one v in front make no difference |
| `Versions.NewerExactly` | internal/serverupdate/update.go:131-136 | newer exactly when it can be read and is strictly later, an unreadable running version counting as 0.0.0-dev |
| `Versions.ChainIncreases` | internal/serverupdate/update.go:128-136 | in any chain of versions each newer than the last, any later one is strictly later than any earlier one and different from it |
| `ServerUpdate.VerifyRequested` | internal/serverupdate/update.go:110-126 | clears only a published manifest of the version asked for that is newer than the one running |
| `ServerUpdate.RequestedExactly` | internal/serverupdate/update.go:110-126 | the exact condition of clearing |
| `ServerUpdate.PathStopsWhenDone` | internal/serverupdate/update.go:71-74 | a finished phase is never followed by another |
| `ServerUpdate.Host.CopyFile` | internal/serverupdate/binary.go:199-218 | on success the destination holds the source's bytes; no other file changes, failing or not |
| `ServerUpdate.Host.Install` | internal/serverupdate/binary.go:188-197 | the destination ends as it was or whole |
| `ServerUpdate.Host.Stage` | internal/serverupdate/binary.go:75-92 | the staged file is accepted exactly when its hash is the one the manifest names for this machine |
| `ServerUpdate.Host.Swap` | internal/serverupdate/binary.go:96-108 | an empty answer means the binary is untouched, any other names a copy of it with the staged bytes in place |
| `ServerUpdate.Host.Restore` | internal/serverupdate/binary.go:156-162 | the copy is back in place exactly when the installation worked, even if the restart then failed |
| `ServerUpdate.Host.Prepare` | internal/serverupdate/update.go:166-218 | nothing on disk changes before Swap, and Swap is reached exactly with a cleared manifest, a backup and matching bytes |
| `ServerUpdate.Host.Apply` | internal/serverupdate/update.go:219-248 | exactly when the run is healthy, rolled back or failed, and which binary is installed in each |
| `ServerUpdate.Host.Run` | internal/serverupdate/update.go:166-248 | every run, under the request's id, version and the version it began from, ends finished through legal phases; Swap runs once exactly when cleared, backed up and matching; the binary is the verified one when healthy, the original when rolled back or failed without a failed Restore, and never anything else |
| `ServerUpdate.Host.RunAll` | internal/serverupdate/update.go:166-248 | over any sequence of runs, healthy, rolled back, failed or half restored, the version the installed binary says only goes up; a healthy run takes it up, and no version replaced by one ever comes back |
| `ServerUpdate.NeverDown` | internal/serverupdate/update.go:128-136 | among versions each the same as or newer than the last, no later one is earlier |
| `ServerUpdate.NeverBack` | internal/serverupdate/update.go:128-136 | and none from before a step up is the same as one from after it |
| `Systemd.SplitUndoesQuote` | internal/agent/selfupdate/systemd.go:160-206 | splitting the space-joined quoted form of any list of strings gives that list |
| `Systemd.Split` | internal/agent/selfupdate/systemd.go:169-206 | the loop computes that split |
| `Systemd.LastExecStart` | internal/agent/selfupdate/systemd.go:136-155 | the line loop gives the last ExecStart with arguments |
| `Systemd.DropInReadsBack` | internal/agent/selfupdate/systemd.go:57-84 | the written drop-in reads back as the same path and arguments exactly when no argument holds a line feed, the last one does not end bare in whitespace the quoting overlooks, and the line fits the scanner |
| `Systemd.DropInReplaces` | internal/agent/selfupdate/systemd.go:59-73 | whatever commands the unit had, read by systemd's rule that an empty ExecStart takes back those before it, the drop-in leaves the service exactly the one written, if no argument holds a line feed |
| `Systemd.LineBreakIsLost` | internal/agent/selfupdate/systemd.go:57-84 | an argument with a line feed does not read back |
| `Systemd.SystemdController.SetBinPath` | internal/agent/selfupdate/systemd.go:57-84 | the drop-in is replaced whole or not at all, and a failed reload leaves it replaced |
| `Systemd.SystemdController.Config` | internal/agent/selfupdate/systemd.go:33-52 | after a readable SetBinPath, the path and arguments set; without a drop-in, what systemd says; an error exactly when the drop-in cannot be opened or read or systemd cannot say |
| `SystemdUpdates.StepKeepsTelling` | internal/agent/selfupdate/systemd.go:33-84 | every protocol step, a SetBinPath that failed after replacing the drop-in included, keeps: Config answers the path the service is wired to and its arguments |
| `SystemdShow.ShowReadsBack` | internal/agent/selfupdate/systemd.go:117-132 | what systemctl shows of a command line reads back as it exactly when every word is non-empty and without space, none after the first begins with a semicolon, and the path does not hold the marker |
| `SystemdShow.SpaceIsLost` | internal/agent/selfupdate/systemd.go:117-132 | an installed argument that holds a space does not |
| `SystemdUpdates.ArgumentsSurvive` | internal/agent/selfupdate/systemd.go:33-84 | from a unit as installed whose shown command line reads back, through any updates and rollbacks, overlapping or failing, Config answers the wired path and the arguments the unit was installed with, if the command lines written are readable |
| `SystemdUpdates.ArgumentsSurviveExactly` | internal/agent/selfupdate/systemd.go:33-132 | they survive every run exactly when the installed command line reads back from what systemctl shows of it |
| `SystemdUpdates.FirstUpdateKeepsArgumentsExactly` | internal/agent/selfupdate/systemd.go:33-132 | with the record's arguments as Config answered them, and a path that reads back, the service has its installed arguments after its first update exactly when the installed command line reads back from what systemctl shows |
| `SystemdShow.PathReadsBack` | internal/agent/selfupdate/systemd.go:117-132 | a path that is one word and does not hold the marker is read right whatever the arguments are |
| `PolicyPlan.Plan` | internal/agent/policy/engine.go:74-105 | the grouping loops compute the plan of the claims |
| `PolicyPlan.CompareAll` | internal/agent/policy/engine.go:108-123 | true exactly when every claim asks for the same |
| `PolicyPlan.OneActionEach` | internal/agent/policy/engine.go:74-105 | an identity has an action exactly when something claims it, and never two |
| `PolicyPlan.ConflictExactly` | internal/agent/policy/engine.go:97-101 | an identity conflicts exactly when two claims on it differ |
| `PolicyPlan.ClaimantsExactly` | internal/agent/policy/engine.go:90-96 | an action's profiles are exactly its claimants |
| `PolicyPlan.PlanIgnoresOrder` | internal/agent/policy/engine.go:66-105 | the same claims in any order give the same conflicts and the same settings |
| `Policy.Reconciler.Apply` | internal/agent/policy/reconcile.go:144-205 | test, remember, set, test again, on its own identity only; nothing is touched unless Set is reached |
| `Policy.Reconciler.ApplyPlan` | internal/agent/policy/reconcile.go:73-109 | every action is applied once to what was there, and every claimant is told its result |
| `Policy.Reconciler.Revert` | internal/agent/policy/reconcile.go:249-275 | exactly the record's identities that nothing claims, have a recorded state and can be reverted go back to it |
| `Policy.Reconciler.ForgetRemoved` | internal/agent/policy/reconcile.go:217-245 | in whatever order removed profiles are visited, exactly what they wanted undone and could be is undone, up to a record that cannot be deleted |
| `Policy.Reconciler.Reconcile` | internal/agent/policy/reconcile.go:73-140 | the store afterwards, identity by identity, is a function of the store before, the assignment and the answers, with no order of visiting in it; and so is what each profile is told |
| `PolicyHistory.ReconcileIgnoresOrder` | internal/agent/policy/reconcile.go:73-109 | permuting the assigned profiles changes neither any cell, nor any recorded state, nor any status |
| `PolicyHistory.ConflictIsNeverWritten` | internal/agent/policy/reconcile.go:144-156 | two active profiles that disagree leave the cell and its recorded state alone and are told conflict |
| `PolicyHistory.ClaimedIsNeverUndone` | internal/agent/policy/reconcile.go:217-275 | an identity of any assigned profile, held ones included, changes only by Set and keeps its recorded state |
| `PolicyHistory.HeldAloneIsUntouched` | internal/agent/policy/reconcile.go:75-102 | an identity only held profiles claim is neither written nor undone |
| `PolicyHistory.DroppedSettingStays` | internal/agent/policy/reconcile.go:217-245 | what no removed profile asked to have undone stays as it is: neither a setting dropped by a newer version nor one of a profile removed without revert is undone |
| `PolicyHistory.RemovalRestores` | internal/agent/policy/reconcile.go:249-275 | a successful revert leaves exactly the recorded state and forgets it if the store lets it |
| `PolicyHistory.StatusIsTruthful` | internal/agent/policy/reconcile.go:144-190 | compliant and remediated are said only of a matching cell, remediated only after a write, conflict and not applicable only without one |
| `PolicyHistory.EnforcedExactly` | internal/agent/policy/reconcile.go:144-205 | for every setting of an active profile, exactly when its status is conflict, not applicable, compliant or remediated, exactly what its cell is afterwards, and exactly what is on record of it |
| `PolicyHistory.RecordsSayWhatToUndo` | internal/agent/policy/reconcile.go:115-129 | afterwards each active profile that could be stored has a record of exactly its settings' identities, its revert option and its version, a held one keeps the record it had, and no other profile has one |
| `PolicyHistory.AssignThenRemoveRestores` | internal/agent/policy/reconcile.go:73-140 | assigned, written, drifted, unassigned: the cell is what it was before the profile came |
| `PolicyHistory.RecordedIsOriginal` | internal/agent/policy/reconcile.go:192-205 | over any history of assignments, conflicts, holds, removals and drift, the state on record is the cell just before Retune's first write since none was on record |
| `PolicyHistory.RecordedExactlyWhenAlwaysRecorded` | internal/agent/policy/reconcile.go:166-170 | that holds at every moment exactly when recording worked at every write that found nothing on record |
| `PolicyHistory.RemovalRestoresTheOriginal` | internal/agent/policy/reconcile.go:249-275 | so an undo puts back what was there before that first write |
| `PolicyHistory.Converges` | internal/agent/policy/reconcile.go:144-190 | if Set does what it promises, a second reconcile of the same assignment writes nothing, undoes nothing, and says compliant wherever the first said remediated and the same everywhere else |
| `PolicyHistory.OneResultPerSetting` | internal/agent/policy/reconcile.go:88-109 | every profile is told exactly as many results as it has settings, held or not |
| `PolicyHistory.ReportSays` | internal/agent/policy/reconcile.go:88-109 | and they are exactly, for a held profile, an error for each of its settings, and otherwise what each setting's identity came to |
| `Commands.StepKeepsInv` | internal/agent/session/session.go:383-475 | every step of check-in loop, worker and flush, and a crash between any two, keeps: in flight is exactly queued plus running, nothing queued is in the ledger, and nothing finished is silent |
| `Commands.RunKeepsInv` | internal/agent/session/session.go:383-475 | the same in every reachable state |
| `Commands.AtMostOncePerPrune` | internal/agent/session/session.go:432-463 | under repeated delivery, a full queue and failed writes, two executions of one command, those a panic or a crash cut off included, are separated by a prune that forgot it |
| `Commands.StartsAreFarApart` | internal/agent/state/state.go:131-181 | with a clock that never goes back, two starts of one command are more than the 30 day retention apart |
| `Commands.NeverSilent` | internal/agent/session/session.go:465-475 | in every reachable state a completed command has a result queued or one the server accepted or rejected for good |
| `Commands.StaysCompleted` | internal/agent/state/state.go:131-149 | completed stays completed until a prune forgets it |
| `Commands.RedeliveryResolves` | internal/agent/session/session.go:400-409 | a command found started after a restart is, on redelivery and whatever the other threads do meanwhile, completed with a result queued or answered, and stays so until pruned |
| `Commands.StartedIsNeverQueued` | internal/agent/session/session.go:383-419 | a command the ledger knows is never queued again |
| `Sessions.Session.PruneLedger` | internal/agent/state/state.go:165-181 | the cursor loop removes exactly the entries older than the retention and counts them |
| `Sessions.Session.Start` | internal/agent/session/session.go:206-213 | on a new store or after a crash: memory is empty, the results stay, and exactly the expired entries go if the store lets them |
| `Sessions.Session.Crash` | internal/agent/session/session.go:421-475 | at any point the other threads have reached, memory goes and ledger and results stay |
| `Sessions.Session.Enqueue` | internal/agent/session/session.go:383-419 | in flight or completed: untouched; started: given up; otherwise queued if there is room; each a step or steps of the protocol |
| `Sessions.Session.Finish` | internal/agent/session/session.go:467-475 | the ledger is completed only after the result is stored |
| `Sessions.Session.FlushResults` | internal/agent/session/session.go:355-379 | sends the results in order, each as it was queued when the flush looked, up to the first that cannot be sent or dropped; drops exactly those before it, and what it took from the queue the server has answered with that very result |
| `Sessions.Session.RunNext` | internal/agent/session/session.go:432-463 | the command leaves flight in every case and is executed exactly if its start could be recorded; once its result is stored, that very result is in the queue or was answered by the server, never another, and every other queued result is kept or was sent as it was |
| `MaintenanceWindows.ParseClockExactly` | internal/protocol/window.go:54-60 | a start is a time of day exactly when it is an hour below 24 of two digits, or of one if one will do, a colon, and a minute below 60 of two digits |
| `MaintenanceWindows.OpensAtExactly` | internal/protocol/window.go:70-79 | an opening begins on its day at exactly its hour and minute of the clock |
| `MaintenanceWindows.WeekdaysExactly` | internal/protocol/window.go:19-20 | the names of the week in order, anchored at Monday 1 January 2024, for every day before and after |
| `MaintenanceWindows.Contains` | internal/protocol/window.go:63-85 | for every acceptable start and length, looking at today and yesterday answers exactly whether some day at all has an opening covering the instant; it is never wrong the other way |
| `MaintenanceWindows.OnlyTodayOrYesterday` | internal/protocol/window.go:68-79 | an opening of at most a day that covers an instant began that day or the day before |
| `MaintenanceWindows.LongerWindowsReachFurther` | internal/protocol/window.go:68-79 | a three day window covers an instant on whose day and the day before it does not open |
| `MaintenanceWindows.Validate` | internal/protocol/window.go:31-52 | accepts exactly sound hours and day names, and normalises the days |
| `MaintenanceWindows.DayNameExactly` | internal/protocol/window.go:41-45 | a name means a day exactly when, spaces around it aside, it is that day's three letters in either case |
| `MaintenanceWindows.NamedExactly` | internal/protocol/window.go:38-50 | a day is among the normalised ones exactly when some name sent means it |
| `MaintenanceWindows.NamedDistinct` | internal/protocol/window.go:38-50 | normalised days do not repeat, and none disappears |
| `MaintenanceWindows.NormalisedMeansTheSame` | internal/protocol/window.go:83-85 | the normalised window opens on the days the window sent means |
| `MaintenanceWindows.WindowsFrom` | internal/protocol/window.go:98-112 | collects the valid windows; one that cannot be read counts as assigned |
| `MaintenanceWindows.Open` | internal/protocol/window.go:115-125 | open with none assigned, otherwise exactly while one valid window is |
| `MaintenanceWindows.MayChange` | internal/protocol/window.go:98-125 | end to end: with any window assigned, changes may be made exactly while one that can be read has an opening on a day it means; with none, always |
| `Scripts.Scheduler.SyncOne` | internal/agent/scripts/runner.go:82-125 | runs exactly when due and fetched, stores before it reports, and touches no other item |
| `Scripts.DueExactly` | internal/agent/scripts/scheduler.go:24-58 | due exactly when a user it needs is signed in and it never ran, or is of a new version that is to run again, or is recurring, below its retries and its interval has passed |
| `Scripts.OnceRunsOnce` | internal/agent/scripts/scheduler.go:24-58 | an unchanged version set to once runs at most once over any check-ins, whatever happens to its reports |
| `Scripts.RecurringRunsApart` | internal/agent/scripts/scheduler.go:24-58 | a recurring one leaves its interval between the end of a run and the start of any later one |
| `Scripts.IntervalHonouredExactly` | internal/protocol/deployment.go:64-66 | the interval asked for is honoured exactly when it fits a 64 bit duration; validation does not bound it |
| `Scripts.OverlongIntervalIsAlwaysDue` | internal/protocol/deployment.go:89-113 | an interval of 2562048 hours is accepted and always due |
| `Scripts.StreakIsRemembered` | internal/agent/scripts/runner.go:100-117 | the failures remembered are the failed runs since the last success, never more than max(1, max_retries) |
| `Scripts.StopsForGood` | internal/agent/scripts/scheduler.go:43-46 | after that many it never runs again |
| `Scripts.UnsavedRunRepeats` | internal/agent/scripts/runner.go:118-120 | a run that could not be stored is repeated |
| `Apps.Syncer.SyncOne` | internal/agent/apps/syncer.go:159-195 | keeps, over any check-ins with any versions, intents, answers and failed writes: settled implies installed matches the intent; no success is reported while it still stands; and, while every outcome could be stored, InstalledByAgent is the agent's own last install not since removed and at most three installer runs in a row fail under one version and intent |
| `Apps.DecideExactly` | internal/agent/apps/scheduler.go:36-69 | exactly when an app is looked for, installed and uninstalled |
| `Apps.RunsExactly` | internal/agent/apps/syncer.go:159-358 | exactly the installer runs of a check-in: none unless the app is out of place, remembered or just seen, not held back and its version usable; then that version's own run, after removing the agent's previous version exactly where it must go first, and not at all if that fails |
| `Apps.WorkingVisitSettles` | internal/agent/apps/syncer.go:159-358 | with every call working, one check-in of an app not held back leaves it remembered as asked for, settled unless there was nothing to do, and a success reported exactly if it acted or newly found it so |
| `Apps.StoredBeforeTold` | internal/agent/apps/syncer.go:360-424 | a report is the last thing a check-in does, after storing the state it speaks of; an installer run whose outcome could be stored is always reported |
| `Apps.UnavailableIsToldOnce` | internal/agent/apps/syncer.go:125-136 | over any check-ins under one version, once a failure of it is remembered nothing but installer runs is reported as failed, until a run of it succeeds |
| `Apps.UnavailableIsToldExactly` | internal/agent/apps/syncer.go:125-157 | a look that finds a version unusable reports it exactly if the last outcome remembered is not a failure of that version; found out only when about to act, exactly if the last outcome remembered, of whatever version, is not a failure |
| `Apps.UnavailableIsNotTold` | internal/agent/apps/syncer.go:125-157 | a history from nothing, with everything stored, in which version 3 cannot be acted on and nobody is told |
| `Apps.DeclineIsSound` | internal/agent/apps/syncer.go:132-157 | reporting an app as unavailable keeps the invariant: nothing counts as settled that is not, no success is reported, and what the agent installed stays known |
| `Apps.FinishIsSound` | internal/agent/apps/syncer.go:364-424 | after any installer run whose effect is in the log, what is stored and reported keeps the invariant, and if it could not be stored only the knowledge of the own install is lost |
| `Apps.ActKeepsOwn` | internal/agent/apps/syncer.go:272-358 | through install, uninstall and removing the previous version first, InstalledByAgent follows what the installer did |
| `Apps.NotedIsSound` | internal/agent/apps/syncer.go:205-270 | what a detection stores keeps the invariant; one that finds the app out of place ends any standing report, and one that settles it may be reported exactly if it was not settled before |
| `Apps.SettledMatchesIntent` | internal/agent/apps/syncer.go:205-336 | in every history settled implies that installed matches the intent |
| `Apps.InstalledByAgentIsOwn` | internal/agent/apps/syncer.go:272-336 | in every history with stores succeeding, InstalledByAgent is the agent's last successful install not since removed by it |
| `Apps.SecondSuccessNeedsUnsettling` | internal/agent/apps/syncer.go:234-262 | between two success reports of one version and intent a state was stored that did not count as reached |
| `Apps.VisitCounts` | internal/agent/apps/scheduler.go:42-68 | a failing installer run adds one to the failures on disk and is only begun below three |
| `Apps.NeverMoreThanThree` | internal/agent/apps/scheduler.go:42-68 | failing installer runs under one version and intent never exceed three in a row |
| `Apps.StopsAfterThree` | internal/agent/apps/scheduler.go:49-51 | after three the installer is not run again while the assignment stays |
| `Apps.InheritsExactly` | internal/agent/apps/syncer.go:132-157 | after the first look at a new version or intent the count on disk includes failures that are not its own exactly when the look ended in a stored report that this machine cannot use it while failures were on disk |
| `Apps.CountedWithBurden` | internal/agent/apps/syncer.go:205-230 | over such check-ins the count on disk is the failures in a row among them and those it began with or inherited, at every one |
| `Apps.HeldBackEarlyExactly` | internal/agent/apps/scheduler.go:42-51 | over any check-ins in a row under one assignment, if it is held back it has failed fewer than three times in them exactly when its first stored look put another one's failures under its name, or they began with failures there, and no run of its own has succeeded since |
| `Apps.OneFailureOfItsOwn` | internal/agent/apps/syncer.go:132-157 | a history from nothing in which version 2 is held back after one failure of its own |
| `Apps.FreshIsHeldBackExactly` | internal/agent/apps/syncer.go:138-143 | exactly when a new version or intent is held back at once, untried: its first look is such a report and three failures are on disk already |
| `Apps.UnstoredRunRepeats` | internal/agent/apps/syncer.go:417-419 | an outcome that could not be stored leaves the decision as it was, so the installer is run again without bound |
| `Apps.UnstoredInstallIsNotOwn` | internal/agent/apps/syncer.go:417-419 | and an install that worked is then not known as the agent's own |
| `Apps.ReachedIsLeftForAnHour` | internal/agent/apps/scheduler.go:64-67 | once a check-in has stored that the assignment is reached, nothing is done about it for an hour |
| `Apps.ReachedIsRechecked` | internal/agent/apps/scheduler.go:64-67 | it is looked at again exactly when the hour is over, unless failures hold it back |
| `LogRotation.NewRotatingFile` | internal/agent/logging/rotate.go:27-56 | fails exactly on a bad limit, a bad count, a directory that cannot be made or a file that cannot be opened; what was found is kept, byte for byte |
| `LogRotation.RotatingFile.Rotate` | internal/agent/logging/rotate.go:74-101 | exactly when it succeeds; then every file is one number up, its contents as they were, the oldest gone and the live one empty; failing anywhere it loses no more and leaves the handle closed |
| `LogRotation.RotatingFile.ShiftAll` | internal/agent/logging/rotate.go:90-99 | the renames, stopped at any of them, keep all contents in order |
| `LogRotation.RotatingFile.Write` | internal/agent/logging/rotate.go:58-70 | keeps: numbered files oldest to newest and then the live one are a suffix of everything ever written, no record split, a file over the limit only if a single record or found so, at most keep files if none was found numbered higher; a handle once left closed stays closed and nothing is written any more |
| `LogRotation.RotatingFile.Close` | internal/agent/logging/rotate.go:104-113 | nothing on disk changes, and from then on nothing is written |
| `LogRotation.ShiftKeeps` | internal/agent/logging/rotate.go:90-99 | a rename into a free number moves nothing out of order |

## Left out

- Ed25519, SHA-256, base64, JSON and X.509: functions handed in; what is stored reads back equal, and equality of settings stands for equality of their JSON.
- HTTP clients and servers, the admin API, the console, command-line parsing and configuration loading; a call to the server is an answer the caller is given.
- Windows, launchd, winget, PowerShell and the individual policy handlers and installers: only the interfaces, as calls that may fail.
- Docker Compose updates of the server; the database backup is a call that works or does not.
- What systemctl prints of a unit is taken as parseShowExecStart's own comment describes it; Config on its own is given what that answers.
- The loop of the self-update `Sync` over a check-in's items, its mutexes, and its reports to the server; each item is one SyncOne, and reports never influence staging.
- An agent with no service controller, which reports every build as unavailable before it does anything.
- Path spelling: two spellings of one path are one value, where the source compares cleaned paths without regard to case.
- Staging another file between the hash check and the swap of a server update, by somebody other than the updater.
- `ClassifyAsset`, `ParseTrustList` and key encoding: easy members.
- Sleeping, polling intervals, retries of a rename on Windows, and ticks: Supervise is given the turns of its polling loop, the last of them past the deadline.
- Interleaving inside one method of Supervision, Syncing and Sessions: the methods run undisturbed there except for the new build's check-in, and a session crashes only between them; the theorems of the protocols they are steps of cover every interleaving.
- Daylight saving: the local clock has a fixed offset, and calendar dates are day numbers.
- The script executor, detection scripts and operations signatures of scripts and apps: an outcome, and for apps an access that may be refused.
- Remote shell, log archives, inventory and compliance statements.
- Entries of a store that cannot be decoded, and unenrolment, which deletes the store.
- Policy.Reconciler.Apply: a handler that panics is a Set or a Test that fails.
- Policy.Reconciler.Revert: a Revert that fails leaves its cell alone, and one identity listed by several removed profiles gets the same answers from each in one cycle; a cell a failed Revert did move is drift before the next cycle.
- Policy.Reconciler.Reconcile: the texts of details and the sending of the reports; profiles of one id twice in one assignment are covered for the machine but not for what they are told.
- Commands.NeverSilent: some result survives, not which one, because a result queued again while an older one of the same command is being sent may be dropped with it; Sessions.Session.RunNext says which one for a run no other result comes between.
- Supervision.Supervisor.Supervise: assumes that no other update writes the record meanwhile; with others, the protocol's own theorems hold.
- Syncing.Syncer.MarkReported: assumes that no supervisor writes the record between its read and its write; FailingRuns.MarkingIsSafeExactly says when that is so.
- ServerUpdate.Host.RunAll: assumes that a build a published manifest names says that manifest's version, and for its order that the versions seen have canonical identifiers.
- LogRotation.RotatingFile.Write: files numbered keep or more, left from a larger keep, are never touched and come on top of keep.
- MaintenanceWindows.Validate: names of days are folded only as far as folding can yield a day's name.
