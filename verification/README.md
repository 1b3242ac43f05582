# Verification of webkvm's stateful cores

A Dafny model of the parts of webkvm whose correctness is a matter of state: protocols with locks
and rollback, accounting over runs, and a few algorithms. Each property is proved for all inputs,
all runs and all interleavings that the statement names. Run `dafny verify dfyconfig.toml`.

libvirt, the kernel's `ip` commands, the file system, downloads, clocks and random numbers appear as
answers the proofs quantify over: a call may fail at any point, and a failed call changes nothing
unless the code says otherwise. Where the program changes state step by step the model has a step
function, and a class whose methods are proved to take those steps.

| file | models |
|---|---|
| `DeployLock.dfy` | the per-name deploy lock, as a transition system and as a heap of shared entries |
| `Paths.dfy`, `Deploy.dfy`, `DeployRuns.dfy`, `DeployJob.dfy`, `DeployTable.dfy` | the appliance deploy job: any number of jobs interleaved with each other and with an environment; the job as straight-line code; the exact table of its outcomes |
| `DiskNaming.dfy`, `DiskMigration.dfy`, `MigrationSafety.dfy`, `MigrationResults.dfy`, `MigrationExact.dfy`, `MigrationQuiet.dfy`, `MigrationRuns.dfy`, `Migrator.dfy` | the migration to VM-name-based disk names |
| `HostBond.dfy`, `BondOrdering.dfy`, `BondContinuity.dfy`, `BondTeardown.dfy`, `BondGuard.dfy`, `BondHost.dfy` | bond creation, rollback and deletion, command by command |
| `Quota.dfy`, `QuotaChecks.dfy`, `QuotaRules.dfy`, `QuotaRuns.dfy`, `QuotaReport.dfy` | quota accounting, admission, the rules written out, runs and the report |
| `HostUpdates.dfy` | refresh and upgrade exclusion, cache freshness |
| `SerialTakeover.dfy` | serial console takeover |
| `EventVisibility.dfy` | the visibility set of an event stream |
| `BaseImageCache.dfy`, `BaseImageRules.dfy` | the base image cache and its backing-file guard |
| `Arithmetic.dfy`, `PasswordSampling.dfy`, `ByteUnits.dfy`, `FlagParser.dfy` | rejection sampling, unit scaling, flag parsing |

## Where the code does not do what it says

The model follows the code. Each of these is a theorem with its exact condition or a family of inputs.

- The deploy pre-flight treats any stat error as "absent", so a job that gets to placing while it cannot
  see its target overwrites it; the multi-job result is exact (`NeverOverwritesExactly`).
- A release trims the registry before it unlocks, so exclusion per name ends where the release
  starts (`OldMutexMayOutliveTheName`); the deploy results hold all the same.
- A failed copy whose target cannot be unlinked either leaves a partial image, and a create that fails
  after it defined the domain leaves a VM whose image the rollback then removes (`ExitIsClean`).
- The migration replaces text, not paths, and writes each definition from the text captured at the
  start. A path inside a longer path is rewritten too, and a disk renamed earlier gets its old path
  back; it is safe exactly without both (`SafeExactly`, `ErrorFreeExactly`), and where a domain has two
  disks to rename, a second run with orphan cleanup deletes the first (`SecondRunDeletes`).
- The migration ignores a failure to move a file back, which loses the disk (`StrandingLoses`).
- Of several bond members attached to the target bridge only the last is enslaved (`SortedIsPermutation`,
  `DroppedExactly`); in modes without a primary, deletion returns the wrong member to the bridge
  (`OtherModesDoNotReverse`); the uplink guard looks at members one at a time (`GuardOverlooks`).
- Moving the uplink last keeps the bridge connected only if a secondary really came up, and one that does
  not is ignored (`ForwardContinuity`, `OneFailureCutsOff`). The rollback takes each member off
  its master before it puts it back, which cuts off any bridge whose request is not covered
  (`RollbackSafeExactly`, `RollbackSafeWhateverFails`).
- A comment says that a negative disk delta is always allowed; that holds exactly from within the
  limits (`ShrinkAdmittedExactly`).
- The global and per-pool disk figures fall back to the legacy field under different tests
  (`ViewsAgree`), so admitted disks can push the global figure past its cap; when, and by how much, is
  exact (`AddDiskGlobalExactly`, `GlobalCapPassed`, `GlobalViewBounded`).
- Creating over an existing disk, attaching one and resizing as an admin are not checked, or not on what
  they bring, and can leave the limits (`RunStaysWithin`, `AttachCanLeave`, `CreateOverCanLeave`,
  `AdminResizeCanLeave`).
- The backing-file guard passes everything when there is no compute backend or the pools cannot be
  listed (`UnguardedWithoutBackend`, `UnlistedPoolsUnguarded`), and overlapping pulls defeat the guard
  against a second copy (`OverlappingPullsDuplicate`).

## Model

| member | source | states |
|---|---|---|
| DeployLock.LockDiscipline | backend/internal/api/handler.go:80-119 | in every state any number of threads can reach, for any names and interleaving: one holder per name between acquire and release, entries and counts exact, captured entry current, nobody queued on a removed entry, empty when idle |
| DeployLock.NobodyStranded | backend/internal/api/handler.go:91-118 | without new arrivals every run has a length fixed in advance, and one that cannot go on has released everything |
| DeployLock.SomebodyCanMove | backend/internal/api/handler.go:105-117 | a thread that is not idle can step, or waits for one that can |
| DeployLock.OldMutexMayOutliveTheName | backend/internal/api/handler.go:107-117 | the release trims before it unlocks, so an old mutex can still be held while a newcomer already holds the name |
| DeployLock.StepKeepsInv | backend/internal/api/handler.go:91-118 | each atomic step keeps the lock invariant |
| DeployLock.RunKeepsInv | backend/internal/api/handler.go:91-118 | every run keeps the lock invariant |
| DeployLock.IdleMeansEmpty | backend/internal/api/handler.go:107-115 | the registry is empty once all threads are idle |
| DeployLock.InvImpliesExclusive | backend/internal/api/handler.go:91-118 | the invariant excludes two holders of one name |
| DeployLock.InvImpliesNoWaiterOnRemovedEntry | backend/internal/api/handler.go:107-115 | an entry out of the registry has no waiter |
| DeployLock.Handler.FindOrCreate | backend/internal/api/handler.go:93-100 | finds the entry of a name or allocates a new one |
| DeployLock.Handler.RegisterOn | backend/internal/api/handler.go:92-104 | the registering section on the heap is the Register step |
| DeployLock.Handler.LockEntry | backend/internal/api/handler.go:106 | locking the captured mutex is the Lock step |
| DeployLock.Handler.TrimName | backend/internal/api/handler.go:108-115 | the trimming section on the heap is the Trim step |
| DeployLock.Handler.UnlockEntry | backend/internal/api/handler.go:116 | unlocking the captured mutex is the Unlock step |
| Deploy.CandidatesDisjoint | backend/internal/api/appliances.go:679-681 | distinct VM names never share a candidate file name |
| Deploy.InodeGuard | backend/internal/api/appliances.go:919-964 | one effect of a job that recorded an inode unlinks no other inode and defines no VM over one |
| Deploy.GuardedForever | backend/internal/api/appliances.go:919-1048 | the same for the whole rest of the job, with any interference between any two effects |
| Deploy.AdvanceOk | backend/internal/api/appliances.go:782-1096 | one effect, a stuck copy and a half-failed create included, keeps what the job relies on and touches only its own target, for jobs that place nothing or can see their target |
| Deploy.WorkKeepsInv | backend/internal/api/appliances.go:782-1096 | a job effect keeps the system invariant, lock discipline included, for jobs that place nothing or can see their target |
| Deploy.StepKeepsInv | backend/internal/api/appliances.go:782-1096 | so does every lock step and every environment step that leaves held targets alone, for jobs that place nothing or can see their target |
| DeployRuns.NeverOverwritesExactly | backend/internal/api/appliances.go:753-819 | for any jobs: no effect of any of them in any reachable state overwrites or removes what is not its own if and only if every job that may place can see its target, by stat or by a refreshed volume list |
| DeployRuns.NeverOverwrites | backend/internal/api/appliances.go:783-819 | in every interleaving of such jobs with each other and the environment, step by step |
| DeployRuns.ExitIsClean | backend/internal/api/appliances.go:940-1096 | how a job ended decides exactly what it left; that is one VM over its one image or nothing if and only if the exit is not untidy: a stuck copy, a replaced file, a failed unlink or stat, or a create that failed after defining the domain, for jobs that place nothing or can see their target |
| DeployRuns.VMOverItsImage | backend/internal/api/appliances.go:1048-1096 | a job that completes, or whose seed fails, leaves its VM over the very file it placed, for jobs that place nothing or can see their target |
| DeployRuns.DeploysConserve | backend/internal/api/appliances.go:782-1096 | with only deploys writing, files and domains are always the initial ones plus exactly the images and VMs the jobs account for, each its own, for jobs that place nothing or can see their target |
| DeployJob.SoloExit | backend/internal/api/appliances.go:782-1096 | a job that runs alone leaves foreign files and all domains alone and adds at most its image and VM, if it places nothing or can see its target |
| DeployJob.LuckyDeployCompletes | backend/internal/api/appliances.go:782-1096 | on a free target with every call answered the job completes |
| DeployJob.PreservesExactlyWhenSighted | backend/internal/api/appliances.go:753-777 | a job that runs alone is sure to keep existing files if and only if it cannot get to placing or its pre-flight can see the target, by stat or by a refreshed volume list |
| DeployJob.BlindPreflightOverwrites | backend/internal/api/appliances.go:765-777 | any stat error counts as absent, so an existing target nobody lists is replaced, or unlinked by a failed copy |
| DeployJob.DeployHost.VerifyTargetFree | backend/internal/api/appliances.go:730-777 | the pre-flight loop is the model run from the domain check to the download |
| DeployJob.DeployHost.MoveFile | backend/internal/api/appliances.go:1198-1239 | placement replaces the target, writes nothing, or after a failed copy unlinks it, or fails at that too and leaves it |
| DeployJob.DeployHost.AssertStillOurs | backend/internal/api/appliances.go:925-935 | true exactly when no inode was recorded or the inode is still there |
| DeployJob.DeployHost.RemovePoolImage | backend/internal/api/appliances.go:940-964 | the rollback closure |
| DeployJob.DeployHost.Provision | backend/internal/api/appliances.go:966-1096 | grow, register, re-check, create and seed, as the model run, whose end is `DeployTable.DeployEndsExactly`; a create may fail before or after it defined the domain |
| DeployJob.DeployHost.DeployApplianceJob | backend/internal/api/appliances.go:782-1096 | the whole job, statement by statement, is the model run that nobody interrupts, whose end is `DeployTable.DeployEndsExactly` |
| DeployTable.DeployEndsExactly | backend/internal/api/appliances.go:782-1096 | for a job that runs alone, on every host and for every pattern of answers: the outcome, the files, the domains and what libvirt lists of the image, as a table over the answers |
| DeployTable.CompletesExactly | backend/internal/api/appliances.go:782-1096 | on a free target a job completes if and only if every call it makes was answered and its owner is within quota |
| DeployTable.OverQuotaAlone | backend/internal/api/appliances.go:1005-1023 | on a free target an over-quota owner gets no VM and, once the rollback is answered, keeps no image |
| DeployTable.OutcomeTellsTheTruth | backend/internal/api/appliances.go:782-1096 | with any interference at all between any two effects: the outcome of a job tells the truth about the answers it got |
| DeployTable.VMOnlyWhenCleared | backend/internal/api/appliances.go:966-1048 | in every interleaving of any jobs with any environment: every VM a deploy defined belongs to a job whose image was placed, grown and registered and kept its owner within quota, and every job that ended did so for the reason it reports |
| DeployTable.OverQuotaLeavesNothing | backend/internal/api/appliances.go:1005-1023 | in every interleaving: an over-quota job has no VM and does not end as a success or in a failed create; for jobs that place nothing or can see their target it leaves no image either when its rollback is answered |
| DeployTable.BadNameExactly | backend/internal/api/appliances.go:730-736 | a name is refused if and only if it holds a slash, a backslash or two dots in a row |
| DiskNaming.DecRoundTrip | backend/internal/libvirt/disknaming.go:61-94 | decimal suffixes parse back to the number printed |
| DiskNaming.NextIsFresh | backend/internal/libvirt/disknaming.go:29-95 | the next disk name is new in the directory and in the format |
| DiskNaming.NextIsUnique | backend/internal/libvirt/disknaming.go:29-95 | and there is only one |
| DiskNaming.NextName | backend/internal/libvirt/disknaming.go:43-95 | the numbering loop over directory entries, in any order, finds it |
| DiskNaming.NewFormatExactly | backend/internal/libvirt/disknaming.go:43-45 | the names of the format are the bare one and those with a dash and a non-empty suffix of digits, and no others |
| DiskNaming.OtherSuffixIsOld | backend/internal/libvirt/disknaming.go:43-45 | a suffix with any other character in it is not in the format |
| DiskNaming.NextWhenNothingCounts | backend/internal/libvirt/disknaming.go:91-93 | the next name written out: the bare name when no file is the bare name or has a suffix of digits |
| DiskNaming.NextAfterTheMost | backend/internal/libvirt/disknaming.go:58-94 | and otherwise the number after the highest counted, the bare name counting for 1 and a suffix for its number |
| DiskNaming.SomethingIsTheMost | backend/internal/libvirt/disknaming.go:58-94 | one of the two always applies |
| DiskNaming.DigitsAreANumber | backend/internal/libvirt/disknaming.go:84-85 | a suffix of digits counts for the number it prints, leading zeros aside |
| DiskMigration.ReplaceFirst | backend/cmd/migrate-disk-names/main.go:237 | every occurrence is replaced, from the left |
| DiskMigration.NewPathIsFresh | backend/cmd/migrate-disk-names/main.go:202-216 | the path a file is moved to is free, in the new format and in the same directory |
| DiskMigration.RefsCount | backend/cmd/migrate-disk-names/main.go:60-76 | two disk sources with a base name give two references to it |
| DiskMigration.RefsSound | backend/cmd/migrate-disk-names/main.go:60-76 | a reference comes from a disk source with that base name |
| DiskMigration.RunSplit | backend/cmd/migrate-disk-names/main.go:132-248 | migrating pools one after the other is one run over all their entries |
| MigrationSafety.FailedDefineRestores | backend/cmd/migrate-disk-names/main.go:239-245 | a failed define leaves the world as it was before the entry if the file can be moved back, and otherwise the file under its new name and the old definition |
| MigrationSafety.Outcomes | backend/cmd/migrate-disk-names/main.go:163-248 | an entry is left alone, removed as an orphan, moved with its definition, or, when define and undo both fail, moved without it |
| DiskMigration.RewriteExactly | backend/cmd/migrate-disk-names/main.go:234-236 | the text replacement redirects exactly the sources that are the old path if and only if the old path occurs in no other source |
| MigrationExact.StepIsSound | backend/cmd/migrate-disk-names/main.go:163-248 | one entry that is not stranded keeps every source on its file, given that none is harmful |
| MigrationExact.MigrationKeepsDisks | backend/cmd/migrate-disk-names/main.go:132-260 | whatever fails, in whatever pattern, every disk source that resolved still resolves to the same content, unless a rewritten entry has both its define and its undo fail; no overlapping disk and no renamed disk redefined again later, both seen before the first rename |
| MigrationExact.SafeExactly | backend/cmd/migrate-disk-names/main.go:132-260 | over all patterns of failures: a run keeps every disk exactly when no define fails together with its undo, if and only if no old path occurs in another disk of the domain and no disk is renamed before a later entry redefines its domain |
| MigrationExact.SafeWhenUndoWorks | backend/cmd/migrate-disk-names/main.go:132-260 | safe under all failures with working undo if and only if the same holds |
| MigrationExact.StrandingLoses | backend/cmd/migrate-disk-names/main.go:239-245 | a define and an undo that fail together lose the disk, whatever follows |
| MigrationExact.OverlapLoses | backend/cmd/migrate-disk-names/main.go:236 | any disk whose path contains the old path is lost when the entry is renamed |
| MigrationExact.ClashLoses | backend/cmd/migrate-disk-names/main.go:234-240 | a disk renamed before a later entry redefines its domain gets its old path back and is lost |
| MigrationResults.RunKeepsContents | backend/cmd/migrate-disk-names/main.go:163-248 | without orphan cleanup the multiset of file contents never changes |
| MigrationResults.RenamesExactly | backend/cmd/migrate-disk-names/main.go:196-248 | an entry mentioned once, when nothing fails: left alone if and only if its name is the bare one or has a suffix of digits, and otherwise moved to a free name of that kind |
| MigrationResults.RestoredIsNotSettled | backend/cmd/migrate-disk-names/main.go:1-12 | the pattern of restored disks is one of those renamed |
| MigrationResults.CountedExactly | backend/cmd/migrate-disk-names/main.go:201-248 | which counter an entry to rename moves, for every pattern of failures |
| MigrationResults.CountersAddUp | backend/cmd/migrate-disk-names/main.go:158-248 | the counters of any run, whatever fails, add up to the entries of each kind |
| MigrationQuiet.ErrorFreeExactly | backend/cmd/migrate-disk-names/main.go:132-260 | where no path occurs in another disk's: a run in which nothing fails keeps every disk if and only if no disk is renamed before a later entry redefines its domain |
| MigrationQuiet.ClashAlwaysLoses | backend/cmd/migrate-disk-names/main.go:234-240 | such a disk is lost for good, whatever entries follow |
| MigrationQuiet.SecondRunDeletes | backend/cmd/migrate-disk-names/main.go:163-185 | two disks of a domain: after an error-free run, a second run with orphan cleanup deletes the content of the first |
| MigrationQuiet.OverlapArises | backend/cmd/migrate-disk-names/main.go:159-236 | a domain with disks p and p.qcow2 of which p is to be renamed overlaps and loses the other |
| MigrationRuns.DryRunFaithful | backend/cmd/migrate-disk-names/main.go:225-229 | a dry run reports the counters of the error-free real run and changes nothing |
| MigrationRuns.SecondRunRenamesNothing | backend/cmd/migrate-disk-names/main.go:196-248 | after an error-free run over whole directories, with or without orphan cleanup, a second run renames nothing and changes nothing, whatever fails in it |
| MigrationRuns.NothingLeft | backend/cmd/migrate-disk-names/main.go:159-199 | in the world an error-free run leaves, no file of its directories is to be renamed nor, with cleanup, removed |
| Migrator.Migration.AddMentions | backend/cmd/migrate-disk-names/main.go:71-75 | adds a domain once per disk source under its base name |
| Migrator.Migration.BuildReferences | backend/cmd/migrate-disk-names/main.go:60-76 | the reference maps built before the first rename |
| Migrator.Migration.MigrateEntry | backend/cmd/migrate-disk-names/main.go:163-248 | one directory entry is one step of the model |
| Migrator.Migration.RenameEntry | backend/cmd/migrate-disk-names/main.go:201-232 | choosing the new name, the dry run and the rename |
| Migrator.Migration.MoveAndRedefine | backend/cmd/migrate-disk-names/main.go:227-247 | rename, rewrite, define, and undo on failure |
| Migrator.Migration.MigratePool | backend/cmd/migrate-disk-names/main.go:132-260 | the loop over a directory is a run over its entries |
| Migrator.Migration.MigrateAll | backend/cmd/migrate-disk-names/main.go:60-122 | capturing once and visiting every pool is one run over all entries |
| HostBond.StepsConcat | backend/internal/api/host_interfaces.go:504-598 | command sequences compose, giving up where the first part gives up |
| HostBond.StepsTouchMembers | backend/internal/api/host_interfaces.go:522-598 | no forward or undo command touches a link other than the members and the bond |
| HostBond.UndoMembersEffect | backend/internal/api/host_interfaces.go:522-532 | undoing the members puts every master back and brings every member up |
| HostBond.RollbackEffect | backend/internal/api/host_interfaces.go:522-532 | rolling back from any state the forward commands can reach |
| HostBond.RollbackRestores | backend/internal/api/host_interfaces.go:504-598 | whatever command fails first, once the rollback commands work every master is what it was and the bond is gone |
| BondOrdering.SortedIsPermutation | backend/internal/api/host_interfaces.go:550-562 | the enslavement order is a permutation of the request if and only if at most one position is attached to the target |
| BondOrdering.DroppedExactly | backend/internal/api/host_interfaces.go:551-562 | the members left out are exactly the attached ones other than the last |
| BondOrdering.EnslaveAllEffect | backend/internal/api/host_interfaces.go:564-574 | what enslaving a list of members leaves of every link |
| BondOrdering.LuckyCreate | backend/internal/api/host_interfaces.go:504-610 | the networks a creation on a bridge passes through when every command works |
| BondContinuity.ForwardContinuity | backend/internal/api/host_interfaces.go:534-574 | whatever commands fail while the members move, the bridge has an up uplink after each if and only if an attached link that is up is not enslaved, or some enslaved secondary is up by the time the uplink is taken off, if it is |
| BondContinuity.RollbackContinuity | backend/internal/api/host_interfaces.go:522-532 | a rollback from whatever the forward commands left keeps an uplink after each command if and only if, at each member, another link already put back or still carrying holds the bridge |
| BondContinuity.RollbackSafeExactly | backend/internal/api/host_interfaces.go:522-574 | for a request: every rollback keeps an uplink, whatever failed before, if and only if at each member another attached link can hold the bridge: one earlier in the request, or one that is up and not the uplink |
| BondContinuity.RollbackSafeWhateverFails | backend/internal/api/host_interfaces.go:522-532 | if the rollback's own commands may fail too: every rollback keeps an uplink if and only if an attached link that is up is not requested |
| BondContinuity.CreateContinuity | backend/internal/api/host_interfaces.go:504-598 | the whole creation, forward and rollback, as one exact condition |
| BondContinuity.ContinuityExact | backend/internal/api/host_interfaces.go:534-574 | with every command working: if and only if an attached link that is up is not requested, or another member than the uplink is up or not attached |
| BondContinuity.OneFailureCutsOff | backend/internal/api/host_interfaces.go:564-574 | one ignored failure, the only secondary not coming up, cuts the bridge off although the request succeeds |
| BondTeardown.DeleteEffect | backend/internal/api/host_interfaces.go:661-684 | deletion frees every member but the chosen one, which returns to the bridge, and touches nothing else |
| BondTeardown.CreateThenDelete | backend/internal/api/host_interfaces.go:504-684 | create then delete restores all masters if and only if the chosen member was the uplink and all others had no master |
| BondTeardown.ActiveBackupReverses | backend/internal/api/host_interfaces.go:472-484 | with active-backup, default primary and one attached member only foreign masters of the others prevent it |
| BondTeardown.OtherModesDoNotReverse | backend/internal/api/host_interfaces.go:629-675 | in other modes the first secondary is returned to the bridge instead of the uplink |
| BondTeardown.PortsAfterCreate | backend/internal/api/host_interfaces.go:460-470 | after creation the default-route bridge keeps a port if and only if it was the target or a port was not requested |
| BondTeardown.GuardOverlooks | backend/internal/api/host_interfaces.go:236-295 | the member-by-member guard stops a request for all ports of that bridge only when there is a single one |
| BondGuard.UplinkExactly | backend/internal/api/host_interfaces.go:236-295 | a link is the primary uplink if and only if the default-route device is the link, its master or its master's master, unless that device is a bridge, the link a physical port of it, and there is another |
| BondGuard.RefusedExactly | backend/internal/api/host_interfaces.go:406-470 | exactly which requests are refused, by that path relation, and that a refusal issues no command |
| BondGuard.DeviceOnlyToItself | backend/internal/api/host_interfaces.go:464-469 | the default-route device, a slave of it that is no bridge port, and a member of a bond on it are enslaved only into a bond on that device |
| BondGuard.PrimaryExactly | backend/internal/api/host_interfaces.go:472-484 | the primary asked for, else in active-backup the first member on the target, else the first member |
| BondGuard.OrderExactly | backend/internal/api/host_interfaces.go:550-562 | the order as requested, with the one member on the target last, and nobody singled out without a target |
| BondGuard.BondIsMadeFirst | backend/internal/api/host_interfaces.go:504-512 | the first command makes the bond, with a primary only in active-backup |
| BondGuard.CreatedExactly | backend/internal/api/host_interfaces.go:504-598 | exactly which commands must work for an accepted request to succeed, of all those it issues |
| BondGuard.RollbackIssues | backend/internal/api/host_interfaces.go:522-532 | a rollback never gives up, and how many commands it issues, whatever fails |
| BondGuard.DeletedExactly | backend/internal/api/host_interfaces.go:661-684 | a deletion succeeds if and only if the last of its commands does, and which one that is |
| BondHost.Kernel.SortMembers | backend/internal/api/host_interfaces.go:550-562 | the sorting loop |
| BondHost.Kernel.ReadMasters | backend/internal/api/host_interfaces.go:514-520 | the loop recording previous masters |
| BondHost.Kernel.ChoosePrimary | backend/internal/api/host_interfaces.go:472-484 | the default primary |
| BondHost.Kernel.CheckMembers | backend/internal/api/host_interfaces.go:460-470 | validation and uplink guard of every member |
| BondHost.Kernel.EnslaveMember | backend/internal/api/host_interfaces.go:564-574 | five commands, of which only joining the bond may fail the request |
| BondHost.Kernel.EnslaveMembers | backend/internal/api/host_interfaces.go:564-574 | the enslavement loop, command for command |
| BondHost.Kernel.RollBack | backend/internal/api/host_interfaces.go:522-532 | the rollback closure, command for command |
| BondHost.Kernel.CreateHostBond | backend/internal/api/host_interfaces.go:406-610 | the handler issues exactly the commands of the model and ends in its network and verdict |
| BondHost.Kernel.DeleteHostBond | backend/internal/api/host_interfaces.go:613-690 | the deletion handler, command for command |
| Quota.ViewsAgree | backend/internal/api/quota.go:38-85 | the per-pool map of a VM sums to its total if and only if it is not a VM whose countable disks are all empty while the legacy figure is not |
| Quota.DiskConserved | backend/internal/api/quota.go:90-132 | for every owner the global figure is the sum over pools plus the legacy figures of those VMs |
| Quota.VMTotalDiskGB | backend/internal/api/quota.go:38-50 | the summing loop and its fallback |
| Quota.VMTotalDiskByPool | backend/internal/api/quota.go:66-85 | the grouping loop and its other fallback |
| QuotaRules.MediaIsFree | backend/internal/api/quota.go:61-63 | a cdrom, a read-only disk, a block device or a zvol changes neither the total nor any pool of any VM |
| QuotaRules.DiskIsBilled | backend/internal/api/quota.go:61-85 | any other disk adds its size to the total and to its pool, the first one dropping the legacy figure |
| QuotaRules.NoDisksBilled | backend/internal/api/quota.go:46-85 | without disks the legacy figure is the bill, in the pool without a name |
| QuotaRules.PausedStillRuns | backend/internal/api/quota.go:335-342 | pausing or crashing a running VM frees none of its vCPUs and RAM, any other state frees all |
| Quota.UsageOfOwner | backend/internal/api/quota.go:90-109 | the usage loop |
| Quota.AddAll | backend/internal/api/quota.go:128-130 | adding one map to another adds pool by pool and in total |
| Quota.DiskUsageByPool | backend/internal/api/quota.go:114-132 | usage pool by pool, with exactly the pools some VM is billed for |
| Quota.RunningUsageOf | backend/internal/api/quota.go:321-344 | running usage without one VM |
| QuotaChecks.EnforceDiskQuota | backend/internal/api/quota.go:205-229 | admits exactly the deltas that keep the global cap and every pool cap |
| QuotaChecks.ShrinkAdmittedExactly | backend/internal/api/quota.go:198-229 | every non-positive delta is admitted if and only if the usage is within the limits already |
| QuotaChecks.CheckDiskQuota | backend/internal/api/quota.go:236-259 | who is exempt, who is refused, and the disk check for the rest |
| QuotaChecks.BytesToGB | backend/internal/api/quota.go:411-420 | always enough gigabytes, and one too many exactly at whole gigabytes |
| QuotaChecks.RecheckDiskQuota | backend/internal/api/quota.go:291-315 | the re-check against the real size of the volume |
| QuotaChecks.CheckQuota | backend/internal/api/quota.go:428-462 | admits exactly what keeps all four dimensions |
| QuotaChecks.CheckStartQuota | backend/internal/api/quota.go:364-409 | templates, missing VMs, exemptions, running limits and disk limits on start |
| QuotaRules.AdmitsExactly | backend/internal/api/quota.go:428-462 | written out over limits and totals: who is let through unchecked, refused for want of a record, refused because usage cannot be listed, or held to the four limits |
| QuotaRules.DiskAdmitsExactly | backend/internal/api/quota.go:205-259 | the same for the disk limits, in total and pool by pool |
| QuotaRules.RecheckExactly | backend/internal/api/quota.go:266-315 | the re-check with the space the volume uses, and its capacity only while it uses none, in gigabytes rounded up to the next whole one above |
| QuotaRules.StartExactly | backend/internal/api/quota.go:350-409 | written out: never a template; within the running limits with the owner's other running VMs, and with disks within theirs |
| QuotaRules.RefusedStartIsKnown | backend/internal/api/quota.go:364-372 | only a VM that can be looked up is refused |
| QuotaRuns.ChecksAreBounds | backend/internal/api/quota.go:428-462 | for a limited owner the checks are the plain inequalities, quota enabled or not |
| QuotaRuns.GoodStep | backend/internal/api/quota.go:205-462 | one step keeps an owner within every limit if and only if it is checked, or, being a creation over an existing disk, an attachment or a resize by an admin, what it really brings fits |
| QuotaRuns.RunStaysWithin | backend/internal/api/quota.go:205-462 | an owner within quota is within it after every step of a run if and only if each unchecked step fits where it is taken |
| QuotaRuns.AttachCanLeave | backend/internal/api/vm_devices.go:160-180 | attaching an existing disk is unchecked and can leave the limits wherever there is a disk limit |
| QuotaRuns.CreateOverCanLeave | backend/internal/api/vms.go:137-166 | so can a creation over an existing disk, for which only the declared size is checked |
| QuotaRuns.AdminResizeCanLeave | backend/internal/api/vms.go:290-316 | so can a resize by an admin |
| QuotaRuns.RunKeepsGlobal | backend/internal/api/quota.go:428-462 | the global disk figure stays under its cap over runs that bring in no disk but a new VM's own |
| QuotaRuns.GlobalFollows | backend/internal/api/quota.go:38-85 | from a state without exceptional VMs it stays under its cap over every run that stays within the pooled limits and attaches no empty disk |
| QuotaRuns.AddDiskGlobalExactly | backend/internal/api/quota.go:38-85 | for a VM and a pool: every admitted new disk keeps the global figure under its cap if and only if there is no cap, no room under the pooled caps, or the room and what the other exceptional VMs keep off the pools fit together |
| QuotaRuns.GlobalCapPassed | backend/internal/api/quota.go:38-85 | otherwise a disk that fills the room is admitted, keeps every pooled limit and passes the global cap, by exactly that figure |
| QuotaRuns.GlobalViewBounded | backend/internal/api/quota.go:38-85 | within the pooled limits it passes its cap by at most what the two fallbacks differ |
| QuotaRuns.DiskAdds | backend/internal/api/quota.go:66-85 | what a new disk changes in the bill of its VM, pool by pool and in total |
| QuotaRuns.StepRunningBelow | backend/internal/api/quota.go:321-409 | from any state, limits lowered or not, a step keeps running vCPUs and RAM from passing the limit in force if and only if it is not an admin's resize of a running VM that does not fit |
| QuotaRuns.StartBelow | backend/internal/api/quota.go:364-409 | an admitted start ends within the running limits |
| QuotaReport.SortPoolUsage | backend/internal/api/quota_usage.go:103-109 | insertion sort by swaps sorts and permutes |
| QuotaReport.SortedStrictly | backend/internal/api/quota_usage.go:80-109 | sorting the rows gives a strictly increasing, duplicate-free report |
| QuotaReport.UsedRows | backend/internal/api/quota_usage.go:80-92 | the rows of named pools in use, adding up to the usage but for the unnamed part |
| QuotaReport.CappedRows | backend/internal/api/quota_usage.go:93-99 | the rows of pools that only carry a limit |
| QuotaReport.BuildQuotaUsage | backend/internal/api/quota_usage.go:50-101 | rows strictly sorted, exactly the named pools in use and the pools with a limit, each with its own figures |
| QuotaReport.ReportAddsUp | backend/internal/api/quota_usage.go:50-101 | the disk figure is the rows, the unattributed part and the legacy figures together |
| QuotaReport.ReportedLimits | backend/internal/api/quota_usage.go:62-78 | an admin, and a user without a record, sees no limits and only pools in use; everybody else sees their own |
| QuotaReport.BeforeExactly | backend/internal/api/quota_usage.go:103-109 | the order of the rows is the byte-wise order of pool names |
| HostUpdates.WorkIsExclusive | backend/internal/api/host_updates.go:264-361 | in every run at most one refresh or upgrade is active and the flags say which; idle means both down |
| HostUpdates.GetTellsTheTruth | backend/internal/api/host_updates.go:241-261 | whatever a get answers, its upgrade flag is right and, with no upgrade running, the list was made after the last upgrade from the packages as they are, when nothing else installs packages |
| HostUpdates.AtMostOnceAMinute | backend/internal/api/host_updates.go:245-250 | while gets follow each other less than 60 seconds after the list was made, it is not made again |
| HostUpdates.ListedAgain | backend/internal/api/host_updates.go:245-261 | a later get makes it anew, and when that fails answers with an error and keeps what there was |
| HostUpdates.RunKeepsInv | backend/internal/api/host_updates.go:241-361 | the invariant behind both |
| HostUpdates.Updates.Get | backend/internal/api/host_updates.go:241-261 | the cached and the fetching branch |
| HostUpdates.Updates.BeginRefresh | backend/internal/api/host_updates.go:271-283 | refused while either flag is up |
| HostUpdates.Updates.StoreListing | backend/internal/api/host_updates.go:318-321 | the storing section |
| HostUpdates.Updates.EndRefresh | backend/internal/api/host_updates.go:285-289 | the deferred section |
| HostUpdates.Updates.BeginUpgrade | backend/internal/api/host_updates.go:339-351 | refused while either flag is up |
| HostUpdates.Updates.EndUpgrade | backend/internal/api/host_updates.go:356-361 | clears the flag and the cache |
| SerialTakeover.NewestViewerWins | backend/internal/api/console_serial.go:69-76 | in every interleaving the registered session is the latest to swap in, or none; every earlier one has departed, was closed by its successor, or is its pending victim |
| SerialTakeover.EvictedOnceBySuccessor | backend/internal/api/console_serial.go:69-75 | a session is evicted at most once, and only by the one right after it |
| SerialTakeover.LeavingIsPrivate | backend/internal/api/console_serial.go:76 | a departing session unregisters nobody else |
| SerialTakeover.StepKeepsInv | backend/internal/api/console_serial.go:69-76 | each step keeps the invariant behind them |
| SerialTakeover.SerialSessions.Swap | backend/internal/api/console_serial.go:69 | the swap and what it displaces |
| SerialTakeover.SerialSessions.CompareAndDelete | backend/internal/api/console_serial.go:76 | the deferred compare-and-delete |
| EventVisibility.InViewAfter | backend/internal/api/events.go:94-107 | how one event changes what the history puts in view |
| EventVisibility.Subscriber.Receive | backend/internal/api/events.go:81-120 | the incremental set is exactly what the history puts in view, and an event goes out exactly when it is due |
| EventVisibility.Subscriber.Stream | backend/internal/api/events.go:73-122 | over a whole connection exactly the due events go out |
| EventVisibility.InitialVisibleVMs | backend/internal/api/events.go:128-141 | the starting set |
| EventVisibility.ForgottenStaysForgotten | backend/internal/api/events.go:94-107 | after a denied state event or a removal no further removal leaks |
| EventVisibility.SeenGetsItsRemoval | backend/internal/api/events.go:94-107 | a removal after a state event goes out exactly if that event or the removal itself has access |
| EventVisibility.DueByAccess | backend/internal/api/events.go:81-120 | events about no VM go to everybody; a state event goes by the access there is now |
| BaseImageCache.OrderedExact | backend/internal/api/image_hub.go:84-115 | the eligible pools are exactly those listed, the default one first |
| BaseImageCache.CopiesExact | backend/internal/api/image_hub.go:138-165 | the search finds exactly the candidate files that are there and large enough |
| BaseImageCache.RefusedChangesNothing | backend/internal/api/image_hub.go:513-556 | a refused delete changes no file |
| BaseImageCache.DeleteRemovesEveryCopy | backend/internal/api/image_hub.go:513-570 | a successful delete removes every listed copy and nothing else |
| BaseImageCache.DeleteOrphansNobody | backend/internal/api/backing_guard.go:27-73 | complete or broken off half way, it leaves no overlay without its backing file, assuming that a backend that names no dependent is right |
| BaseImageCache.DeleteOrphansExactly | backend/internal/api/image_hub.go:513-570 | with or without a backend: no delete, wherever it breaks off, orphans an overlay if and only if it is refused or every file layered on a copy is itself a copy removed no later |
| BaseImageCache.HonestExactly | backend/internal/libvirt/backing_guard.go:42-93 | the connector's answers are right if and only if, for every backing file, it fails, or the volume has a path and the search finds a file layered on it, in a directory it listed with a header it could read |
| BaseImageCache.ConnectorOrphansExactly | backend/internal/libvirt/backing_guard.go:177-215 | what it lets be deleted: no delete orphans an overlay if and only if the connector fails on a copy or finds a file layered on one, or every file layered on a copy is a copy removed no later |
| BaseImageCache.UnlistedPoolsUnguarded | backend/internal/libvirt/backing_guard.go:201-215 | when listing the pools fails the guard lets through every delete whose volumes the connector knows |
| BaseImageCache.UnguardedWithoutBackend | backend/internal/api/backing_guard.go:62-65 | without a compute backend the guard lets everything through |
| BaseImageCache.RunKeepsOne | backend/internal/api/image_hub.go:392-409 | over any run of pulls and deletes that do not overlap, at most one copy stays at most one |
| BaseImageCache.OverlappingPullsDuplicate | backend/internal/api/image_hub.go:392-409 | two overlapping pulls into different directories leave two copies |
| BaseImageCache.ImageHub.ListPools | backend/internal/api/image_hub.go:84-115 | the pool loop |
| BaseImageCache.ImageHub.FindCopies | backend/internal/api/image_hub.go:138-165 | the search loop |
| BaseImageCache.ImageHub.DeleteBaseCloudImage | backend/internal/api/image_hub.go:513-570 | check every copy, then remove every copy |
| BaseImageCache.ImageHub.PullBaseCloudImage | backend/internal/api/image_hub.go:339-491 | the guard against a second copy, and the placement |
| BaseImageRules.ServingExactly | backend/internal/api/image_hub.go:84-115 | over the pools as listed: eligible are those of the right purpose that are usable or report no state |
| BaseImageRules.NamedRequest | backend/internal/api/image_hub.go:185-208 | a request that names a pool takes it if and only if it serves and its directory can be read |
| BaseImageRules.UnservedRequest | backend/internal/api/image_hub.go:185-208 | and takes nothing when no serving pool has that name |
| BaseImageRules.DefaultRequest | backend/internal/api/image_hub.go:185-208 | a request that names none takes the default pool if and only if that serves and can be read |
| BaseImageRules.FallbackRequest | backend/internal/api/image_hub.go:185-208 | and the first that serves when the default pool does not |
| BaseImageRules.CopiesWrittenOut | backend/internal/api/image_hub.go:138-165 | what counts as a copy, over the listed pools and the file itself |
| BaseImageRules.PullWritesWhereItMay | backend/internal/api/image_hub.go:339-491 | a pull changes at most one file, the download, in the directory of a serving pool, the one asked for if one was |
| BaseImageRules.PullVerdictExactly | backend/internal/api/image_hub.go:392-409 | it goes ahead if and only if there is no copy anywhere, and otherwise says whether one is in a serving pool of that name |
| BaseImageRules.UnresolvedPull | backend/internal/api/image_hub.go:372-376 | a request that takes no pool is told so, and changes nothing |
| BaseImageRules.DownPoolsUntouched | backend/internal/api/image_hub.go:98-107 | in a directory that belongs only to pools that are down, or of another purpose, no copy is found, nothing is deleted and nothing is written |
| PasswordSampling.GeneratePasswordString | backend/internal/api/console_serial.go:516-534 | length and content are the sample of the words read, none read in vain at the end, failing exactly when the source runs out |
| PasswordSampling.EveryResidueEqual | backend/internal/api/console_serial.go:519-530 | for any number of words and any charset size every residue gets the same number of accepted words |
| PasswordSampling.EveryCharEqual | backend/internal/api/console_serial.go:519-530 | every character comes from the same number of 32-bit words |
| PasswordSampling.EveryPasswordEqual | backend/internal/api/console_serial.go:516-534 | every password of a length comes from the same number of accepted word sequences |
| PasswordSampling.PreimagesExact | backend/internal/api/console_serial.go:516-534 | which sequences those are |
| PasswordSampling.SampleOfAccepted | backend/internal/api/console_serial.go:526-531 | accepted words give their residues, one character each |
| ByteUnits.FormatBytesHuman | backend/internal/api/host_disks.go:1272-1286 | no overflow, the divisor is the largest power of 1024 not above the count, and the unit letter exists |
| ByteUnits.ScaleUnique | backend/internal/api/host_disks.go:1280-1284 | there is only one such power |
| ByteUnits.LetterOf | backend/internal/api/host_disks.go:1280-1284 | the unit letter, by the count itself |
| FlagParser.EveryArgumentOnce | backend/cmd/cli/main.go:2161-2187 | every command line is its items printed: each argument is consumed exactly once |
| FlagParser.ReadsBack | backend/cmd/cli/main.go:2161-2187 | printed items are read back as themselves |
| FlagParser.MapRoundTrip | backend/cmd/cli/main.go:2161-2187 | a flag map printed and mixed with positionals parses back to both |
| FlagParser.NextArgument | backend/cmd/cli/main.go:2152-2182 | what the argument after a flag is: a switch takes only true or false, any other flag whatever does not start with two dashes |
| FlagParser.SwitchLeavesPositional | backend/cmd/cli/main.go:2152-2182 | a switch such as --force leaves the next argument a positional |
| FlagParser.ReadFlag | backend/cmd/cli/main.go:2165-2182 | one dashed argument |
| FlagParser.ParseFlags | backend/cmd/cli/main.go:2161-2187 | the loop |

## Left out

- DeployRuns.ExitIsClean: assumes jobs that place nothing or can see their target, the exact condition of `DeployRuns.NeverOverwritesExactly`; `moveFile` is one placement, although a copy across file systems is visible half written.
- DeployRuns.DeploysConserve: has the same assumption.
- MigrationExact.MigrationKeepsDisks: takes the captured sources as the extraction finds them; its pattern misses a `source` element with further attributes, as a running domain's text has, an XML-escaped path and a backing file, and with orphan cleanup a file referenced only so is deleted as an orphan.
- Migrator.Migration.BuildReferences: the same holds of the sources it counts.
- MigrationExact.SafeExactly: has the same limit, and takes files to differ in content, so that a source which ends at another file has lost its own; cdrom references are not covered.
- MigrationRuns.SecondRunRenamesNothing: is stated for base names that are unambiguous across pools, for one disk to rename per domain and for paths that do not overlap; with two disks a second run with cleanup deletes a file (`MigrationQuiet.SecondRunDeletes`), and a path rewritten inside a dead source may come to name a stray file, which the second run then renames.
- BondContinuity.RollbackContinuity: assumes that the rollback's own commands work; what holds without is `BondContinuity.RollbackSafeWhateverFails`.
- BondContinuity.OneFailureCutsOff: `up` stands for a link that is up with a carrier, and a command that brings a link up counts as failed when it gets none; that Linux opens a link when it joins a bond and closes it when it leaves is not modelled, the `up` that follows decides.
- HostBond.RollbackRestores: claims masters, the bond and the up state; flushed addresses are not restored by the code and not modelled.
- QuotaRuns.RunStaysWithin: takes each check and its effect as one step, which the code does not enforce; growing a disk in place, which the code checks by its delta, is not a step.
- HostUpdates.GetTellsTheTruth: assumes that only upgrades through this API change the installed packages, while an administrator or a timer may; repository metadata fetched by a refresh that then fails is not modelled.
- BaseImageCache.DeleteOrphansNobody: assumes an honest backend; when the connector is one is `BaseImageCache.HonestExactly`.
- DiskNaming.NextName: disk numbers are unbounded, the code's 64-bit suffix arithmetic is not modelled.
- ByteUnits.FormatBytesHuman: the floating-point rendering of the quotient is not modelled.
- Quota totals are unbounded integers; the code's int64 sums would wrap only beyond physical sizes.
- HTTP decoding, status codes, audit logging, job progress and authentication.
- The container branch of deploys, and downloads, decompression and image validation (one fallible step).
- A deploy's scratch files in the data directory, which no other job sees under the lock.
- Domain definitions other than their source paths; files are known by their path, and pool directories are taken as distinct, cleaned paths.
- Failure to read a pool directory during migration, and the skipping of ISO and non-directory pools.
- The netplan branch of bond creation and deletion, name and address syntax, and the parsing of sysfs and of `ip` output.
- VLAN, isolation and single-interface configuration of the same file.
- Who may change quotas, and quota checks at the other endpoints that call the same functions.
- The parsing of package manager output.
- The byte pump, retries and close codes of the serial proxy, and the wire format of the event stream.
- Pool purposes are a flag; the rename of a finished download is one step.
- Read errors of the random source other than the end of its words.
