# A verified model of the TiDB provider

The provider is a set of repeated passes over a shared store of Kubernetes
objects. A pass reads, decides and writes one object at a time, and may stop
after any write. Between its steps TiDB Operator, BR, users and the garbage
collector take theirs. This project models those passes in Dafny and proves what
holds in every run, and where a promise does not hold in every run, exactly when
it does.

`dafny verify dfyconfig.toml` checks everything.

## How it is built

Where interleaving matters a component has a *run* module: a `World` of the stored
objects and the pass in progress, an `Action` for every step anybody can take, a
total `Apply` (a step that is not enabled changes nothing), and `Exec` over a list
of actions. Main results speak of `Exec` from a fresh world, so of every
interleaving of these steps. In SessionTokenRun, LogBackupRun, Tls and Teardown a
step of the provider is one read or write of a pass, so passes are cut off
anywhere and others act between a check and what it allows; in BackupRun,
RootPasswordRun and Prefixes a step is one check and its write together. Fields
named as history record what the world's objects cannot show; they decide no step.

Code that changes objects step by step is a class whose methods have the source's
loops and writes. A ghost `world` ties the fields to the run module: each method
ends in the state that steps of a run reach, so the results on runs hold of it.

| component | files |
|---|---|
| session token signing rollout | SessionToken, SessionTokenRun, SessionTokenStore |
| backup scheduler and retention | Slots, Calendar, Retention, BackupRun, BackupRunInvariant, BackupRunResults, ScheduledNames, Scheduler |
| log backup and point-in-time recovery | Pitr, RecoveryWindow, LogBackupRun, LogBackupLimits, LogBackupStore, Prefixes |
| root password | Credentials, RootPasswordRun, RootPasswordLimits, RootPasswordStore |
| certificates | Tls, TlsStore |
| upgrade validation | Semver, Versions |
| teardown | Teardown, Cleanup |
| pruning before an apply | Prune |
| edits of config files | NestedTables, TikvSizing, TikvConfig, TiproxyConfig |

## Where the code does less than it says

Each of these is proved, most with a concrete run, and with the exact condition
beside it.

- Turning TiProxy on may restart TiDB twice (internal/provider/session_token.go:175-180
  says both changes land in one roll): if the operator replaces an instance between
  a pass's Cluster write and its group write, the graceful wait causes a second
  restart (`SomeRunRollsTwice`, `RollInWindowRollsTwice`). Otherwise there is at
  most one.
- A pass cut off between those writes loses the graceful wait for good
  (`CutOffInWindow`).
- The published earliest time of the restorable window, stored to the second, is
  refused unless the oldest base was taken on the first TSO of a second
  (`EarliestItselfIsRefused`); a window may be published in which no date can be
  restored, only the latest point (`WindowWithoutDates`).
- A restore and a log backup that exclude each other may run at once
  (internal/provider/pitr.go:126-127 and 194-195): a log backup is created under a
  restore, as only seeding is waited for, or between a restore's check and its BR
  Restore (`SomeRunConflicts`, `SomeRestoreStartsUnderALog`, `ConflictStep`).
- A log backup that somebody else deletes in the middle of a pass is created again
  without the check for a ready cluster (`SomeRunSkipsTheCheck`,
  `UnreadyBirthStep`), and one whose BackupStorage is edited moves to another
  bucket during its life (`SomeRunMovesTheBucket`, `BucketStep`).
- A CA may be generated beside certificates of another one when the certificates
  asked for shrink, as they do when TiProxy is turned off (`SomeRunMixes`,
  `PassMixesExactly`); internal/provider/tls.go:204-206 says it is not.
- A Secret may hold another password than the database
  (internal/provider/credentials.go:173-177):
  - when a Backup and an Instance have one name, and so one Secret
    (`NamesMeetExactly`, `SharedNameIsRightExactly`, `SomeNameIsShared`,
    `InstanceTakesTheRecord`, `NamesakeCloneIsRightExactly`);
  - after a backup recorded before a completed restore was adopted
    (`RecordIsRightExactly`, `OverlappingBackupBreaksTheClone`);
  - after a restore that completed between a backup's record and its snapshot
    (`SnapshotIsRightExactly`, `OpenBackupBreaksTheClone`);
  - after a restore that completed in the second of the one adopted last
    (`PassFollowsExactly`, `SameSecondIsLost`).

  In runs of the model without any of the four it does not, once the completed
  restores are adopted (`SecretFollowsDatabase`).
- An accepted edit that resolves no version for a component lets the next one
  downgrade it, and only such an edit does (`ForgetsExactly`). The shipped
  definition/versions.yaml names a default bundle with every component, so it takes
  a ProviderSpec without a default bundle or a bundle that lacks the component.
- The hash in a scheduled Backup's name does not keep schedules apart from ones
  that carry the hash in their own name (`HashedMeetsPlain`, `SchedulesMeet`).
- Setting a TiKV key replaces a value that stands where a table is needed
  (`SettingKeepsExactly`, `ValueIsReplaced`); the edit for TiProxy never does.
- The version that lets a restore run next to a log backup is compared as written:
  without its "v" it is taken for an old one, although upgrade validation accepts
  it (`RestoreNextToLogNeedsTheV`).

## Model

| member | source | states |
|---|---|---|
| `SessionToken.NextClusterIsAdmitted` | internal/provider/session_token.go:80-106 | every Cluster a pass derives from an existing one passes the CRD's freeze on feature gates, keeps the gates it had, never signs without FeatureModification, and adds signing only when TiProxy is on, everything is ready and FeatureModification was there |
| `SessionToken.SigningNeedsModificationFirst` | internal/provider/session_token.go:18-36 | adding signing to a Cluster is admitted if and only if FeatureModification is on already: the reason for the stages |
| `SessionToken.GracefulWaitIsOneShot` | internal/provider/session_token.go:202-222 | a config that parses and lacks the key gets it with 15 seconds and keeps every other key; any other is left alone, and the edit is idempotent |
| `SessionToken.SigningGroupConfigIsStable` | internal/provider/session_token.go:181-197 | over a Cluster that already signs, a pass applies again the config the group has, with or without the wait |
| `SessionTokenRun.GatesNeverDropped` | internal/provider/session_token.go:80-106 | in every reachable state no step drops a gate, and no Cluster write of a pass is refused by the freeze, whatever happened since the pass read |
| `SessionTokenRun.SigningIsSafe` | internal/provider/session_token.go:80-141 | in every run (passes cut off anywhere, TiProxy toggles, operator steps) a Cluster that signs has every TiDB instance carrying FeatureModification, and the signing Secret exists if the Cluster was created without signing |
| `SessionTokenRun.SigningClusterNamesItsSecret` | internal/provider/session_token.go:61-106 | in every run from a fresh Instance the Cluster names the signing Secret if and only if it has SessionTokenSigning |
| `SessionTokenRun.ReferenceIsKept` | internal/provider/session_token.go:90-96 | from any reachable state, whatever follows, a Cluster that signs goes on signing and its reference to the Secret does not change |
| `SessionTokenRun.CreatedAtOnce` | internal/provider/session_token.go:67-75 | the step that creates the Cluster gives it both gates and the reference at once when its pass found TiProxy on, and none of them otherwise |
| `SessionTokenRun.PairChangesInAtMostOnePass` | internal/provider/session_token.go:181-212 | in every run with one user config the pair (signing gate, group config) changes in at most one pass once the group exists |
| `SessionTokenRun.TidbRollsAtMostOnce` | internal/provider/session_token.go:175-197 | in every run in which the operator replaces nothing between the Cluster and the group write of a pass, each TiDB instance is replaced at most once |
| `SessionTokenRun.RollInWindowRollsTwice` | internal/provider/sync.go:71-116 | from any reachable state, an instance replaced between the two writes is replaced a second time once the pass ends: the condition of TidbRollsAtMostOnce is sharp |
| `SessionTokenRun.SomeRunRollsTwice` | internal/provider/sync.go:71-116 | a run from a fresh Instance in which enabling TiProxy replaces a TiDB instance twice |
| `SessionTokenRun.CutOffInWindow` | internal/provider/session_token.go:181-197 | from any reachable state between the Cluster and the group write: cut off there, the pass leaves a group that never gets the wait; gone on to its group write, one that keeps it |
| `SessionTokenRun.CrashLosesTheWait` | internal/provider/session_token.go:181-193 | once the Cluster signs, no pass that turned it on is under way and the group is without the wait, no continuation ever adds it |
| `SessionTokenRun.WaitIsKept` | internal/provider/session_token.go:181-197 | once the group has the wait while the Cluster signs, every continuation keeps it |
| `SessionTokenRun.TwoPassesTurnSigningOn` | internal/provider/session_token.go:80-141 | from any reachable state with TiProxy on, two passes with the operator's feature syncs between them turn signing on |
| `SessionTokenRun.FullPassOutcome` | internal/provider/sync.go:71-116 | what the writes of one undisturbed pass add up to |
| `SessionTokenStore.HasFeatureGate` | internal/provider/session_token.go:55-57 | membership of a gate in the list, by the loop |
| `SessionTokenStore.Store.ReadyForSessionTokenSigning` | internal/provider/session_token.go:112-141 | ready if and only if the Secret exists and the group, if there is one, and every instance, looked at in any order, carry FeatureModification |
| `SessionTokenStore.Store.ExistingClusterSessionTokenSigning` | internal/provider/session_token.go:80-106 | when each gate is on afterwards; a Cluster that signs keeps the reference it has, and any other names the Secret if and only if signing is added |
| `SessionTokenStore.Store.AddTiDBGracefulWait` | internal/provider/session_token.go:181-197 | exactly when the template is given the wait: the Cluster signs, and did not before or the group has the key |
| `SessionTokenStore.Store.SyncTiDB` | internal/provider/sync.go:71-116 | the pass is five provider steps of a run; on the stored objects: what a new Cluster has, which gates and which reference an existing one has afterwards, when the Secret exists, and the features and config of the group |
| `Slots.NextIsLeastActivation` | internal/provider/backup_schedule.go:234-240 | Next is the least element of one fixed, minute-aligned set of activations |
| `Slots.LatestSlot` | internal/provider/backup_schedule.go:234-240 | the search ends, with the greatest activation in (now - window - 1s, now], or none if there is none |
| `Slots.DueSlotIsStable` | internal/provider/backup_schedule.go:147-167 | a slot that is due has been due ever since it came up |
| `Retention.NameOrder` | internal/provider/backup_schedule.go:320-334 | the tie-break by name is a strict total order, so the sort does not depend on the order of the list |
| `Retention.ExpiredBackups` | internal/provider/backup_schedule.go:311-366 | which backups expire, stated without the sort or the scan; the same for every order of the list |
| `Retention.ExpiredExactly` | internal/provider/backup_schedule.go:311-366 | which backups expire, on the stored fields: later is by creation, then by the first character of the names that differs |
| `Retention.ExpiredByCount` | internal/provider/backup_schedule.go:335-345 | the count branch: exactly the finished backups with N newer successes expire |
| `Retention.ExpiredByWindow` | internal/provider/backup_schedule.go:346-363 | the window branch: the newest success and everything in the window stay |
| `Retention.CountKeepsTheNewest` | internal/provider/backup_schedule.go:335-345 | for N >= 1 exactly min(N, successes) successes stay, all newer than those that go; for N < 1 nothing expires |
| `Retention.EnoughSuccessesStay` | internal/provider/backup_schedule.go:335-345 | deleting expired backups leaves every other expired one enough newer successes to stay expired |
| `Retention.RetentionConverges` | internal/provider/backup_schedule.go:192-210 | delete any part of what expired and compute again: exactly the rest expires, and after all of it nothing does |
| `Retention.ExpiredStaysExpired` | internal/provider/backup_schedule.go:311-366 | what has expired stays so as backups finish and appear, so a decision from an older list is safe |
| `Retention.LaterCutoffExpiresMore` | internal/provider/backup_schedule.go:346-363 | time only adds to what expires |
| `BackupRun.DueBackupIsNeverExpired` | internal/provider/backup_schedule.go:147-187 | no retention expires the Backup of a slot that is still inside its starting deadline |
| `BackupRunResults.EachSlotFiresAtMostOnce` | internal/provider/backup_schedule.go:138-187 | in every run (time, restarts, retention and BR interleaved) a slot of a schedule creates at most one Backup |
| `BackupRunResults.AtMostOneUnfinished` | internal/provider/backup_schedule.go:147-167 | in every run a schedule has at most one unfinished Backup |
| `BackupRunResults.CreationOrderIsSnapshotOrder` | internal/provider/backup_schedule.go:138-187 | in every run a schedule's successful backups are in the same order by creation and by snapshot |
| `BackupRunResults.FireExactly` | internal/provider/backup_schedule.go:147-187 | a pass creates a Backup if and only if some slot is the latest activation of the last ten minutes, its name is free, the Instance can back up and every Backup of the schedule is finished or being deleted; it is that slot's, pending, created now in whole seconds, and every other stays |
| `BackupRunResults.DueSlotFiresOnce` | internal/provider/backup_schedule.go:138-187 | in every run a pass that finds such a slot gives it its Backup, and the slot has exactly one for the rest of the run |
| `Scheduler.BackupScheduler.BackupsOfSchedule` | internal/provider/backup_schedule.go:280-288 | the list of a schedule's Backups |
| `Scheduler.BackupScheduler.InProgressBackup` | internal/provider/backup_schedule.go:290-297 | whether a run of the schedule is in progress |
| `Scheduler.BackupScheduler.FireDueSlot` | internal/provider/backup_schedule.go:138-187 | one Fire step of a run; on the stored Backups: exactly when one is created, which, and that nothing else changes; and the time the schedule wants another look |
| `Scheduler.BackupScheduler.ApplyRetention` | internal/provider/backup_schedule.go:192-210 | the deletes are steps of a run and leave exactly what has not expired |
| `Scheduler.BackupScheduler.Reconcile` | internal/provider/backup_schedule.go:85-132 | the pass is steps of a run, gives every slot that may fire its Backup, prunes every running schedule, and asks to be run again strictly later, at the least of the times the schedules ask for |
| `Scheduler.NoSlotIsSleptPast` | internal/provider/backup_schedule.go:102-131 | the pass is due again before or at the next activation of every running schedule |
| `Scheduler.HeldSlotIsRetried` | internal/provider/backup_schedule.go:147-167 | a held slot is looked at again within the retry interval |
| `Scheduler.WakeHasAReason` | internal/provider/backup_schedule.go:102-187 | the pass is due again only at the next activation of a running schedule, or in a minute for one whose due slot is held |
| `Slots.EveryMinuteIsCron` | internal/provider/backup_schedule.go:234-240 | what is relied on of a cron schedule is met by one of every minute |
| `Calendar.StampTells` | internal/provider/backup_schedule.go:43-43 | the minute of a slot in UTC as year, month, day, hour and minute: twelve digits, different for all minutes of the years 1970 to 9999 |
| `Calendar.StampIsTheDate` | internal/provider/backup_schedule.go:43-43 | read off its digits, a stamp is the date of the Gregorian calendar and the minute of the day that the time is in |
| `ScheduledNames.NameIsLabel` | internal/provider/backup_schedule.go:244-273 | every scheduled Backup name is a DNS label of at most 56 characters |
| `ScheduledNames.NamesMeet` | internal/provider/backup_schedule.go:244-260 | two names are equal if and only if the slots' minutes are and their stems are: the raw name when it is a short label, else shortened and with its hash |
| `ScheduledNames.SchedulesMeet` | internal/provider/backup_schedule.go:244-260 | exactly when two schedules of an Instance share their names: never when neither needs a hash |
| `ScheduledNames.HashedMeetsPlain` | internal/provider/backup_schedule.go:251-260 | every short name that needs a hash is also the name of another schedule, so the hash does not keep all schedules apart |
| `ScheduledNames.SlotsNeverShareAName` | internal/provider/backup_schedule.go:244-260 | the names the scheduler gives meet what its runs need of names, whatever the hash |
| `ScheduledNames.SlotsFireOnceUnderTheirNames` | internal/provider/backup_schedule.go:138-187 | with these names, in every run, no slot creates a second Backup and no schedule has two unfinished ones |
| `Semver.CompareIsPrecedence` | internal/provider/validate_versions.go:159-203 | the comparison is the precedence of section 11 of Semantic Versioning 2.0.0, stated by the first of major, minor and patch that differs, the first identifier that differs and, in words, the first character that differs |
| `Semver.PrecedenceIsTotal` | internal/provider/validate_versions.go:159-203 | of two versions exactly one comes before the other, or they are equal |
| `Semver.PrecedenceIsTransitive` | internal/provider/validate_versions.go:159-203 | and precedence is transitive |
| `Versions.TargetVersions` | internal/provider/validate_versions.go:79-103 | the requested version of every component: explicit before bundle, none for a disabled TiFlash |
| `Versions.CheckUpgradeOrder` | internal/provider/validate_versions.go:159-178 | accepts if and only if all versions are semantic and no component targets more than an earlier one; what the refusal names is at fault |
| `Versions.OrderedIsPrecedence` | internal/provider/validate_versions.go:159-178 | what it accepts, in the words of section 11 of Semantic Versioning: no target comes after that of a component upgraded before it |
| `Versions.CheckNoDowngrade` | internal/provider/validate_versions.go:182-195 | accepts if and only if no wanted component that runs a version has a target that is none or comes before it by section 11; what the refusal names is at fault |
| `Versions.AcceptedTargetsRollOut` | internal/provider/validate_versions.go:159-178 | an accepted set is rolled out from every state on the way, in at most as many rolls as components are behind |
| `Versions.NoRollIsADeadEnd` | internal/provider/validate_versions.go:159-178 | whatever rolled so far, something can roll until all is at its target |
| `Versions.OvertakingComponentIsStuck` | internal/provider/validate_versions.go:18-20 | a component that targets more than an earlier one never rolls |
| `Versions.DisorderedTargetsGetStuck` | internal/provider/validate_versions.go:159-178 | every set refused for its order has a state on the way that never completes |
| `Versions.AcceptanceIsExact` | internal/provider/validate_versions.go:159-178 | accepted if and only if the operator can complete the rollout from every state on the way |
| `Versions.VersionsNeverDecrease` | internal/provider/validate_versions.go:123-195 | over every run of accepted edits that name a component's version it never decreases |
| `Versions.ForgetsExactly` | internal/provider/validate_versions.go:79-195 | an accepted edit keeps every next one from going back if and only if it resolves a version for the component (unless the group runs the least version of all) |
| `Versions.UnversionedEditForgets` | internal/provider/validate_versions.go:123-195 | an edit without a version lets the next one go back to any version |
| `Pitr.TsTimeRounding` | internal/provider/pitr.go:368-370 | how dropping the counter of a TSO compares with making one from a date |
| `Pitr.OpenLogStream` | internal/provider/pitr.go:231-261 | on the fields of the object named after the Instance: exactly when a stream runs and where it is, why there is none, and when it cannot be read |
| `Pitr.RestoreBlockedByLogBackup` | internal/provider/pitr.go:196-220 | when a log backup lets a restore into the Instance go on, by its version and section 11 of Semantic Versioning, and when the restore has to wait |
| `Pitr.PitrBases` | internal/provider/pitr.go:270-300 | exactly the complete snapshots of the Instance on the storage from the start and the truncation of the stream on, oldest first |
| `Pitr.NewestBaseAtOrBefore` | internal/provider/pitr.go:453-458 | the greatest base at or before the target, or none if there is none |
| `Pitr.PitrWindow` | internal/provider/pitr.go:326-357 | on the stored fields: a window is published if and only if some point can be restored, from the oldest base to the checkpoint; exactly when each reason is given for none, and when it cannot be read |
| `Pitr.StartPointInTimeRestore` | internal/provider/pitr.go:411-469 | on the stored fields: exactly when a restore starts, waits, is refused or has to be tried again, and that it starts at the right point from the newest base at or before it that the stream covers |
| `Pitr.WindowAndDecisionAgree` | internal/provider/pitr.go:326-469 | a restore to the latest point starts if and only if a window is published; one to a date if and only if it is after the published earliest time, or exact, and not after the latest |
| `Pitr.WholeSecondsInTheWindowRestore` | internal/provider/pitr.go:326-370 | every whole second after the published earliest one, up to the latest, can be restored |
| `Pitr.SecondsRestore` | internal/provider/pitr.go:326-469 | exactly which whole seconds, as dates are stored, can be restored: those after the second the published earliest time is shown in, and that one if the oldest base was taken on its first TSO, up to the latest |
| `Pitr.EarliestItselfIsRefused` | internal/provider/pitr.go:359-370 | the published earliest time, stored to the second, is accepted if and only if the oldest base was taken on the first TSO of a second |
| `Pitr.WindowWithoutDates` | internal/provider/pitr.go:326-357 | exactly when a published window holds no date that can be restored: its ends show the same second and that one is refused |
| `Pitr.RestoreNextToLogNeedsTheV` | internal/provider/pitr.go:207-219 | of the targets upgrade validation accepts, which does not look at the v, those with TiKV at v8.5.5 or above can be restored into next to a log backup with the v, and are refused without it |
| `RecoveryWindow.ExpiredIsOlder` | internal/provider/backup_schedule.go:311-366 | given what every run keeps of two Backups, one that expires has an earlier snapshot than the newest success of its schedule |
| `RecoveryWindow.RetentionKeepsTheWindow` | internal/provider/pitr.go:270-300 | in every run, whatever part of the expired backups is deleted, every point from the newest success on is restored from the same base as before |
| `RecoveryWindow.RetentionKeepsTheWindowUnderItsNames` | internal/provider/backup_schedule.go:192-210 | the same with the names the scheduler gives |
| `LogBackupRun.StreamHasItsSecret` | internal/provider/pitr.go:85-124 | in every run (passes of the Instance and of restores cut off anywhere) the log backup is on the storage it was created on, and until it is gone its Secret holds that storage's credentials |
| `LogBackupRun.StorageNeverChanges` | internal/provider/pitr.go:92-124 | a log backup is on the same storage at any two points of a run, although every pass applies it again |
| `LogBackupRun.CreatedAfterReady` | internal/provider/pitr.go:101-133 | in every run in which nobody else deletes it, each log backup is created after a state of the run with the cluster ready and no seeding pending, and from that state to its creation there is none |
| `LogBackupRun.UnreadyBirthStep` | internal/provider/pitr.go:92-124 | exactly which step creates one without that: the apply of a pass that had found the predecessor, when it has gone since |
| `LogBackupLimits.SomeRunSkipsTheCheck` | internal/provider/pitr.go:92-124 | a run with such a step: somebody else deletes the log backup in the middle of a pass |
| `LogBackupRun.BucketNeverChanges` | internal/provider/pitr.go:105-152 | while BackupStorages keep their buckets, a log backup streams to one bucket all its life |
| `LogBackupRun.BucketStep` | internal/provider/pitr.go:105-152 | exactly which step moves a log backup to another bucket: an apply of one read from its BackupStorage |
| `LogBackupLimits.SomeRunMovesTheBucket` | internal/provider/pitr.go:105-152 | a run that moves it: the BackupStorage is edited |
| `LogBackupRun.ConflictStep` | internal/provider/pitr.go:196-220 | exactly which step makes a restore and a stream that exclude each other run at once; a BR Restore does only next to a log backup created after its check |
| `LogBackupRun.ConflictsComeFromCreation` | internal/provider/pitr.go:85-133 | in every run they do only if a log backup was created while a restore was under way, from its check on |
| `LogBackupLimits.SomeRunConflicts` | internal/provider/pitr.go:126-133 | a run in which they do: recovery is turned on while a restore started by hand runs |
| `LogBackupLimits.SomeRestoreStartsUnderALog` | internal/provider/backup.go:215-267 | a run in which a BR Restore is created next to a log backup that excludes it, made between its check and its creation |
| `LogBackupRun.PassSettles` | internal/provider/pitr.go:85-124 | what an undisturbed pass makes of the log backup and its Secret, from any state |
| `LogBackupStore.Store.PitrStorage` | internal/provider/pitr.go:69-79 | the storage with point-in-time recovery enabled that has none before it, if there is one |
| `LogBackupStore.Store.ReadyForLogBackup` | internal/provider/pitr.go:128-133 | the cluster is ready and the data source, if there is one, done |
| `LogBackupStore.Store.SyncLogBackup` | internal/provider/pitr.go:85-124 | the pass on the stored objects is steps of a run; where there is no log backup exactly when one is created (cluster ready, no seeding pending, an S3 storage wanted) and which, where there is one when it is deleted; when it ends with a configuration error |
| `LogBackupStore.Store.ApplyLogBackup` | internal/provider/pitr.go:123-152 | creates the log backup, or updates the one that is there |
| `LogBackupStore.Store.RestoreBlocked` | internal/provider/pitr.go:196-220 | when a log backup holds a restore up, and when it only has to wait |
| `LogBackupStore.Store.SyncRestore` | internal/provider/backup.go:215-267 | the check, the Secret and the BR Restore are steps of a run; a restore that started is not held up again |
| `Credentials.RestoredAtNeverGoesBack` | internal/provider/credentials.go:178-203 | the stored restored-at time never goes back, and without a later one nothing changes |
| `Credentials.AdoptAllOutcome` | internal/provider/credentials.go:178-203 | what any passes leave of any Secret: it is unchanged, or it is the latest of those that may override it |
| `Credentials.LatestRestoreWins` | internal/provider/credentials.go:173-203 | over any passes, in any order and with repeats, the Secret ends with the password of the latest-completing restore whose password is known, at whole seconds |
| `Credentials.PassOrderDoesNotMatter` | internal/provider/credentials.go:173-203 | for restores of distinct seconds the order and number of passes make no difference |
| `Credentials.NamesMeetExactly` | internal/provider/credentials.go:32-35 | an Instance's root Secret and a Backup's record are the same Secret if and only if Instance and Backup have one name |
| `Credentials.CredentialStore.CurrentSecret` | internal/provider/credentials.go:49-67 | a Secret of a previous owner is marked deleted and never returned |
| `Credentials.CredentialStore.EnsureRootPassword` | internal/provider/credentials.go:72-96 | a password is generated only when there is none; nothing else changes |
| `Credentials.CredentialStore.ReadRootPassword` | internal/provider/credentials.go:100-109 | the stored password when there is a Secret of this Instance, and only then |
| `Credentials.CredentialStore.RecordBackupRootPassword` | internal/provider/credentials.go:120-148 | the record is written once, with the password at that time, and not at all without one |
| `Credentials.CredentialStore.RestoredRootPassword` | internal/provider/credentials.go:153-171 | the first Secret of the list that holds a password |
| `Credentials.CredentialStore.AdoptRestoredRootPassword` | internal/provider/credentials.go:178-203 | the Secret is overwritten if and only if the password is known and the restore completed in a later second than the one adopted last, with that second; tells whether the password is known |
| `RootPasswordRun.SecretFollowsDatabase` | internal/provider/credentials.go:111-203 | in every run of creations, backups, restores and clones of clones, with no Backup named like an Instance, no backup recorded before a completed restore is adopted, no restore completing during a backup, and restores completing in distinct seconds, an Instance whose restores were all adopted has its database's root password in its Secret |
| `RootPasswordRun.ReconciledSecretIsRight` | internal/provider/backup.go:274-293 | the invariant of those runs gives the right password as soon as all completed restores are adopted |
| `RootPasswordLimits.SharedNameIsRightExactly` | internal/provider/credentials.go:111-171 | from any state of those runs: a Backup named like an Instance and restored into it leaves that Instance's old password in its Secret, right if and only if the two Instances have the same one |
| `RootPasswordLimits.SomeNameIsShared` | internal/provider/credentials.go:111-171 | a run, as it should be but for such a name, that ends with a wrong Secret although its restore is adopted |
| `RootPasswordLimits.InstanceTakesTheRecord` | internal/provider/credentials.go:49-67 | an Instance named like a Backup deletes its record; the backup then passes for carrying its source's present password, right if and only if that is the one in it |
| `RootPasswordLimits.NamesakeCloneIsRightExactly` | internal/provider/credentials.go:49-171 | an Instance seeded from the Backup of its own name keeps the password it generated, right if and only if that is the one in the backup |
| `RootPasswordLimits.RecordIsRightExactly` | internal/provider/credentials.go:117-148 | a record is right if and only if the Secret was adopted from the restore that completed last, or that one brought the same password |
| `RootPasswordLimits.OverlappingBackupBreaksTheClone` | internal/provider/credentials.go:117-148 | from any state of those runs with a Secret that lags behind, a backup of it gives a clone whose Secret is wrong although adopted |
| `RootPasswordLimits.SomeSecretLags` | internal/provider/backup.go:274-293 | such a state is reached by a run that meets the conditions |
| `RootPasswordLimits.SnapshotIsRightExactly` | internal/provider/backup.go:117-139 | recorded for an Instance whose restores are adopted, a backup's record and data agree if and only if the database's password is the same at the snapshot, whatever happened in between but the creation of an Instance of its name |
| `RootPasswordLimits.OpenBackupBreaksTheClone` | internal/provider/backup.go:117-139 | from any state of those runs, a backup that a restore overtakes gives a clone whose Secret is wrong although adopted |
| `RootPasswordLimits.SomeBackupIsOvertaken` | internal/provider/backup.go:117-139 | that state is reached by a run that meets the conditions |
| `RootPasswordLimits.PassFollowsExactly` | internal/provider/credentials.go:178-203 | a completed restore is followed by its pass if and only if it completed in a later second than the one adopted last, or brings the same password |
| `RootPasswordLimits.SameSecondIsLost` | internal/provider/credentials.go:184-190 | from any state of those runs, a restore that completes in the second of the one adopted last leaves a wrong password although adopted |
| `RootPasswordLimits.SomeSecondIsShared` | internal/provider/credentials.go:184-190 | the state of SameSecondIsLost is reached by a run that meets the conditions |
| `RootPasswordStore.Store.SyncInstance` | internal/provider/credentials.go:72-96 | the pass on the stored Secrets is a step of a run, and gives the Instance's password |
| `RootPasswordStore.Store.SyncBackup` | internal/provider/credentials.go:120-148 | the pass on the stored Secrets is a step of a run |
| `RootPasswordStore.Store.SyncRestore` | internal/provider/backup.go:274-293 | the pass on a completed restore is a step of a run; tells whether the password is known |
| `Tls.SecretNamesDiffer` | internal/provider/tls.go:57-84 | no two certificates of an Instance share a Secret |
| `Tls.LeavesAreNeeded` | internal/provider/tls.go:96-143 | exactly which certificates are asked for under which settings |
| `Tls.LeavesGrow` | internal/provider/tls.go:162-168 | turning TiProxy on, and then signing, only adds certificates; the CA is never among them |
| `Tls.MixingStep` | internal/provider/tls.go:207-245 | exactly which step gives a Cluster certificates of two CAs: generating one beside a certificate the pass does not ask for |
| `Tls.OneCaPerCluster` | internal/provider/tls.go:158-261 | in every run (passes cut off anywhere, any Secret deleted at any time, Clusters created again) all certificates of the current Cluster and its CA Secret, put back by hand or not, carry one CA, if the certificates asked for only grow while a Cluster lives |
| `Tls.NeverReissued` | internal/provider/tls.go:158-202 | in every run a certificate whose Secret is not removed stays what it is |
| `Tls.PassMixesExactly` | internal/provider/tls.go:207-245 | an undisturbed pass mixes CAs if and only if the CA and all certificates asked for are missing and another of the Cluster is there |
| `Tls.SomeRunMixes` | internal/provider/tls.go:207-245 | a run that mixes them: TiProxy is turned off, and then the CA and the remaining certificate are deleted |
| `TlsStore.Store.CurrentSecret` | internal/provider/credentials.go:49-67 | what is found, a Secret without a controller included, and that only one of another Cluster is marked deleted |
| `TlsStore.Store.CreateOwnedByCluster` | internal/provider/tls.go:250-261 | creates, and never overwrites |
| `TlsStore.Store.EnsureCa` | internal/provider/tls.go:207-245 | the CA of the Cluster, by steps of a run: exactly when there is one or it may be generated; no certificate is replaced |
| `TlsStore.Store.IssueLeaves` | internal/provider/tls.go:178-201 | issues what is missing, signed by the CA that is there, and is done if and only if none of it is another Cluster's |
| `TlsStore.Store.EnsureTlsSecrets` | internal/provider/tls.go:162-202 | the pass is steps of a run; exactly when it is done, and then every certificate asked for and the CA are there; what is new is the Cluster's and signed by its CA, and nothing is replaced |
| `Teardown.TeardownIsOrdered` | internal/provider/provider.go:139-189 | in every run the Cluster is deleted only once the log backup is gone, the finalizer dropped only once the Cluster is gone, and the Instance let go only when nothing is left |
| `Teardown.NothingSetsBack` | internal/provider/provider.go:144-189 | without a crash no step of anyone sets the teardown, or the pass, back |
| `Teardown.StepIsAhead` | internal/provider/provider.go:144-189 | no step of anyone, a crash included, sets the teardown back |
| `Teardown.DutyGetsOn` | internal/provider/provider.go:144-189 | in every reachable state there is a step that gets on with it |
| `Teardown.PassGetsOn` | internal/provider/provider.go:144-189 | a completed pass, with others acting in between, gets on with it whenever it is the provider's turn |
| `Teardown.FairTeardownEnds` | internal/provider/provider.go:144-189 | after any run, every infinite continuation in which the operator and the collector act, and passes complete, again and again lets the deleted Instance go, however often the provider crashes |
| `Teardown.CrashFreeTeardownEnds` | internal/provider/provider.go:144-189 | without crashes it is enough that the provider steps again and again |
| `Cleanup.Store.StopLogBackup` | internal/provider/pitr.go:156-183 | what becomes of the log backup, and that it counts as stopped only when it was gone |
| `Cleanup.Store.DeleteCluster` | internal/provider/provider.go:153-166 | the Cluster is deleted, and counted while it is there |
| `Cleanup.Store.CountLeft` | internal/provider/provider.go:167-184 | zero if and only if no group and no member of any kind is left |
| `Cleanup.Store.Cleanup` | internal/provider/provider.go:144-189 | the pass is steps of a run; succeeds if and only if nothing was left; leaves the Cluster alone while there is a log backup |
| `Prune.KeyWise` | internal/provider/sync.go:281-312 | the in-place pass over the fields, inlined ones on the same map, does to each key what its own field asks and nothing else |
| `Prune.EveryPath` | internal/provider/sync.go:248-312 | what is at every path afterwards: what is left of what was there, unless it is the {} of a non-pointer omitempty struct |
| `Prune.PruneIsAFixpoint` | internal/provider/sync.go:205-220 | after both passes no map holds null and no such {} is left, and another pass changes nothing |
| `Prune.ScalarsStay` | internal/provider/sync.go:229-312 | a scalar is at a path after the passes if and only if it was before |
| `Prune.EmptiesStay` | internal/provider/sync.go:248-252 | a {} goes if and only if it is of a non-pointer omitempty struct; those under pointers, map keys and list indexes stay |
| `Prune.NullsPath` | internal/provider/sync.go:229-246 | the first pass removes nulls under keys and nothing else |
| `Prune.SharedKeyLeavesAnEmpty` | internal/provider/sync.go:281-301 | two fields of one key spoil both the fixpoint and the pruning |
| `Prune.DropNulls` | internal/provider/sync.go:231-246 | the loop, visiting keys in any order, is PruneNulls |
| `Prune.PruneEmptyStructs` | internal/provider/sync.go:253-279 | the recursion ends and is PruneEmpty |
| `Prune.PruneStructFields` | internal/provider/sync.go:281-301 | the loop over the fields is PruneFields |
| `Prune.PruneMapValues` | internal/provider/sync.go:303-312 | the loop over the values, in any order, is PruneEmpty of a map |
| `NestedTables.SetViewAt` | internal/provider/tikv_sizing.go:135-145 | what is at every path after setting a key: the key's value, tables above it, nothing below, and the rest as it was |
| `NestedTables.SettingKeepsExactly` | internal/provider/tikv_sizing.go:135-145 | setting an absent key keeps every value if and only if only tables or nothing are on the way to it |
| `NestedTables.SetAllAddsExactly` | internal/provider/tikv_sizing.go:86-97 | setting several absent keys only adds to a config if and only if the way to each is free of values |
| `NestedTables.Config.HasKey` | internal/provider/tikv_sizing.go:119-133 | whether the path leads to something, by the loop over the tables |
| `NestedTables.Config.SetKey` | internal/provider/tikv_sizing.go:135-145 | the edit in place of shared, identified tables changes the view as SetView says |
| `TikvSizing.SizesFit` | internal/provider/tikv_sizing.go:15-24 | for every limit from 4 to 8 GiB reserve, block cache and write buffers fit in the usage limit, which leaves at least 384 MiB |
| `TikvSizing.SizesGrow` | internal/provider/tikv_sizing.go:86-92 | every size grows with the limit |
| `TikvConfig.EditAddsExactly` | internal/provider/tikv_sizing.go:58-97 | the edit only adds keys the user left unset if and only if no value is on the way to them |
| `TikvConfig.EditIsIdempotent` | internal/provider/tikv_sizing.go:72-108 | editing the edited config changes nothing |
| `TikvConfig.ValueIsReplaced` | internal/provider/tikv_sizing.go:135-145 | a value on the way to the disk reserve is lost to it |
| `TikvConfig.HasAnyKey` | internal/provider/tikv_sizing.go:110-117 | whether any of the keys is set |
| `TikvConfig.EditSizes` | internal/provider/tikv_sizing.go:72-108 | with the bounds and sizes as numbers: exactly when the edit sets the three memory keys and the disk reserve, and to what; a key it does not set stays |
| `TikvConfig.ConfigFor` | internal/provider/tikv_sizing.go:72-108 | the config of a group for a limit and a volume, in place: which keys are set to what, and that it changes exactly when one is |
| `TiproxyConfig.EditOnlyAdds` | internal/provider/tiproxy_config.go:16-34 | whatever the user's config holds stays, and skip-ca is there afterwards if and only if it was or nothing is in the way |
| `TiproxyConfig.EditIsIdempotent` | internal/provider/tiproxy_config.go:16-34 | editing the edited config changes nothing |
| `TiproxyConfig.SubTable` | internal/provider/tiproxy_config.go:49-58 | the table under a key, added when missing, and not ok when something else is there |
| `TiproxyConfig.WithOptionalClientCerts` | internal/provider/tiproxy_config.go:16-34 | the edit in place, and when the user's text is kept |
| `Prefixes.ObjectTellsBackup` | internal/provider/backup.go:47-51 | no object is under the prefixes of two backups, of any namespaces and Instances |
| `Prefixes.ObjectTellsLog` | internal/provider/pitr.go:60-65 | no object is under a log prefix and a backup prefix, nor under two log prefixes |
| `Prefixes.EveryRestoreReadsItsBackup` | internal/provider/backup.go:239-241 | in every run of backups, streams, deletions and restores sharing buckets, a restore reads the snapshot its backup or base was taken as, and its source's log |

## Left out

- Kubernetes client, caches, watches, RBAC, server-side apply: an abstract store with atomic reads and writes; reads within a pass are of the current state.
- TOML: tables are the decoded ones; that what is encoded decodes to the same tables is assumed where it is needed. A config that does not parse is returned as it is in SessionToken, and is not part of the other two edits.
- Cron expressions: a schedule is its Next function, the least element after a time of a fixed set of whole minutes; `@every` is left out. A schedule's expression does not change over a run.
- Calendars: a retention window reaches at least 23 hours back; clocks are between the second hour of 1970 and the year 10000, in UTC without leap seconds.
- ScheduledNames: the hash of a name is any function to at most eight hexadecimal digits.
- Parsing of version texts: a version is given parsed, with whether it carries its "v".
- RSA, X.509, PEM, certificate names and random passwords: opaque values; a certificate is known by its CA and a number.
- cert-manager: another controller writes those Secrets.
- Monitoring objects, status reporting, image and replica resolution, TiProxy's own version line and the storage, replica and TLS validators.
- The mapping of BR phases to states, and messages.
- Cleanup of the objects of Backups and Restores (CleanupBackup, CleanupRestore).
- SessionTokenRun: the user's TiDB config is fixed over a run, and nobody deletes the signing Secret.
- BackupRun: nobody but the scheduler deletes Backups, and a finished Backup stays finished.
- RootPasswordRun: Instances and Backups are not deleted, Secrets only by the provider, and nobody changes a password outside it; Instances and Backups are of one namespace. A restore brings what is in its backup's snapshot: the log that a point-in-time restore replays after its base may bring a password that a restore into the source changed later. BR stamps every completion; the time of creation that stands in for a missing stamp is not modelled.
- Tls: nobody but the provider creates Secrets under these names, except for putting back the CA that was there, with an owner or without.
- Teardown: a Sync pass still under way when the Instance is deleted: the provider creates objects only while the Instance is live.
- Versions: a group's version is the resolved target of the last accepted edit, and a component rolls at once; members of a group are not told apart.
- Prune: the trees are values; the source edits maps in place, and that no map is shared between two places of an object is taken for granted. Keys of a struct's fields, inlined ones included, are assumed distinct, which SharedKeyLeavesAnEmpty shows to be needed.
- Prefixes: Kubernetes names contain neither "/" nor "_"; buckets hold one entry per prefix.
- Pitr: Unix times are not negative.
- LogBackupRun: data sources are their Done flag, which any step may set or clear, as reconcileDataSource clears it while the cluster is not ready; TiKV's version does not go back below the first that restores next to a log backup; a restore's check reads the log backup and the version together. No Backup bears the BR name of the log backup, the Instance's with "-pitr": syncLogBackup does not look at an object's mode, and would delete it.
- BackupRun, RootPasswordRun, Prefixes: what happens between the check and the write of one step, which these do not take apart.
- Time limits, requeue delays and retries other than the scheduler's.
