# scripthut: a verified model of cleanup, polling, instance tracking and usage accounting

scripthut submits tasks to Slurm, PBS and EC2, follows them to a verdict, and cleans up after them
on remote disks. This project models the parts of it where a mistake is expensive or hard to see,
and proves what they guarantee:

* **Disk cleanup** (`RemotePaths`, `Directories`, `DiskModel`, `Classify`, `DiskEntries`, `Cleanup`,
  `CleanupSafety`, `CleanupDirectories`, `CleanupVerdicts`, `CleanupConfirmation`). Runs are turned into
  reference tables, scanned entries are classified against them, and a plan decides what reaches
  `rm -rf`. Proved: what is deleted, exactly, from the runs, the request and the paths; work of a pending
  or running run never is, with the exact condition under which that holds; knowing more runs never
  deletes more; executing a confirmed plan deletes what was shown.
* **The disk scan** (`Scan`, `ScanService`, `ScanProtocol`, `CacheSweep`, `ScanRoots`). The line protocol
  and its parser, and the test that keeps the cache sweep from reporting what other sections report, from the
  configured roots on.
* **Polling** (`Poll`, `PollSafety`). One poll as loops over item objects, and every history of
  polls interleaved with moves of the run manager; what a poll decides, and on what evidence.
* **The EC2 tracker** (`Ec2`, `Ec2Protocol`, `Ec2Safety`, `Ec2Liveness`, `Ec2Limit`, `Ec2Lost`). The two maps
  of the backend object, and every interleaving of submissions, whose limit check and recording are separate
  steps, with cancellations, the steps of a poll between its awaits, and what EC2 does.
* **Slurm accounting** (`Sacct`, `SacctOrder`, `SacctRows`). The row loop and its seven dictionaries refine
  a specification per job that knows no order, down to the text of the rows.
* **Notifications** (`Notifications`, `NotificationHistory`, `NotificationScans`). The hub object, and
  announcements over every history of priming, scheduling and scanning: none too many, and none missing.
* **Usage accounting** (`Slices`, `Activity`, `Heatmap`, `Hourly`, `HourlyConservation`,
  `HourlySeries`, `HourlyClash`, `HourlyCharts`). Splitting intervals at local days and hours, the
  activity grid, its shading and layout, and the stacked hourly chart.
* **The Gantt chart and durations** (`Gantt`, `Durations`, `DurationTexts`).

`Wrappers`, `Lists`, `Text` and `Runs` hold what the others share. Code that updates objects, dictionaries or lists
in place is modelled by classes and loops, each proved against a function of its inputs or of its
old state; the theorems are about those functions and about histories of them.

Where the code does less than its comments or the interface suggest, the code is modelled as it is,
with the exact condition and an input that shows the failure:

* a clone root listed earlier than the matched one, and lying inside a directory to be deleted,
  hides active work in it (`ProtectionIsExact`, `ShadowedWorkIsDeleted`);
* a run path whose text does not lead the reference builder to its directory holds nothing: an active
  run's path protects a clone or workspace if and only if the first clone root above its text leads to
  that entry (or a clone of the same hash), which with one root is textual containment (`RunPathIsProtectedExactly`,
  `DirectoryIsProtectedExactly`, `LogDirIsProtectedExactly`). It happens with an empty segment or `.`
  below the root (`QuietSegmentIsDeleted`), and so wherever a clone dir is configured with a trailing
  slash, which the scan strips and the run manager does not (`TrailingSlashIsDeleted`,
  `SlashedCloneDirLosesWork`);
* a confirmed path with white space at its ends is not recognized when it is executed
  (`ConfirmationIsPinned`), and such a path can be planned (`UntrimmedPathIsRefused`,
  `UntrimmedLogIsRefused`);
* one line with a time of 2^63 or more aborts the parsing of a whole scan (`ScanRoundTrip`);
* the cache sweep double-counts exactly when a section root whose directory it meets is not shown by its
  text (`SweepIsDisjointExactly`, `NormalRootsExactly`): a clone dir with an empty segment or `.`
  (`QuietSegmentIsDoubleCounted`), or an absolute one where the home directory ends with a slash
  (`SlashedHomeIsDoubleCounted`);
* an item stays submitted or settling for ever when accounting keeps answering a final state that is
  neither COMPLETED nor a failure state; the shipped tables have such states
  (`UndecidedStateNeverResolves`, `ShippedTablesHaveUndecidedStates`);
* a cancellation under way overwrites a verdict that accounting confirmed meanwhile; a confirmed item is
  unchanged for ever exactly when none is under way (`ConfirmedIsForEverExactly`,
  `CancelledAfterCompletion`);
* an EC2 instance is in both maps exactly after it was completed between its launch and its recording
  (`OneMapExactly`, `LateRecordingLosesVerdict`), and a final verdict is safe exactly while its id is
  neither tracked again nor in flight (`VerdictSurvivesExactly`); the limit is exceeded by up to the number of
  overlapping submissions less one (`LimitHoldsExactly`); and a running instance is written off exactly
  when it was recorded while an answer given before its start was on the way (`LostExactly`,
  `RecordedMeanwhileIsLost`);
* two run ids, one of which starts with the other and a colon, share keys (`AnnouncedExactlyOnce`,
  `ClashLosesNotice`). Generated ids, eight hex digits or a year and week, hold no colon and always
  meet the condition (`ColonFreeIdsAreUnambiguous`);
* a source that is itself called "Other" stops the hourly chart, or makes its total, bars and stacks
  wrong, exactly as `ConservedExactly` says (`OtherLosesWork`, `OtherStopsTheChart`), and records whose
  offset is off by a broken hour are left out of it (`ChartIsCompleteExactly`);
* Gantt bars overflow for items submitted before the run was created, or submitted and neither
  started, finished nor in flight (`BarsFitExactly`).

## Model

| member | source | states |
|---|---|---|
| RemotePaths.AncestorsAreNested | src/scripthut/disk/classify.py:75-79 | two directories above the same path are nested one way or the other |
| RemotePaths.FirstComponentInside | src/scripthut/disk/classify.py:75-79 | every path inside root/name has that name as its first component under the root |
| Classify.NoteCloneChild | src/scripthut/disk/classify.py:99-113 | the run is recorded for exactly the clone or workspace that the first clone root above the path leads to, and all other references stay |
| Classify.NoteRun | src/scripthut/disk/classify.py:115-134 | a run of the backend adds exactly its commit hash, its log dir, the clone-root child of each of its paths and, while pending or running, its id |
| Classify.BuildRunReferences | src/scripthut/disk/classify.py:82-135 | the tables hold exactly the references of the backend's runs, whatever the order of the runs |
| DiskEntries.DiskEntry.ApplyRefs | src/scripthut/disk/classify.py:216-225 | an entry becomes active, used or orphaned by the runs that hold it; an orphaned one keeps its old run ids |
| DiskEntries.DiskEntry.ClassifyStack | src/scripthut/disk/classify.py:228-246 | readiness first, then the comparison of the hash dir with the declared stacks |
| DiskEntries.LogHolders | src/scripthut/disk/classify.py:162-166 | a log entry is held by exactly the runs whose log dir is that path or lies below it |
| DiskEntries.ClassifyEntries | src/scripthut/disk/classify.py:138-168 | every entry object is classified in place, independently of the others |
| Cleanup.FreshCopies | src/scripthut/disk/cleanup.py:184-199 | new objects, classified now; the cached entries are not touched |
| Cleanup.IndexByPath | src/scripthut/disk/cleanup.py:281-302 | a request path resolves to the last copy with that path, or to none |
| Cleanup.PlanCleanup | src/scripthut/disk/cleanup.py:261-340 | the loops compute the plan that the theorems below are about, in bulk and in explicit mode |
| CleanupSafety.PlanForBackend | src/scripthut/disk/service.py:497-540 | a plan is made under references built from the runs known at that moment, and spares their active work and logs |
| CleanupSafety.SafeShape | src/scripthut/disk/cleanup.py:202-238 | a clone or workspace that passes the last check is a direct child of the first matching clone root and carries a name of its kind |
| CleanupSafety.InsideIsAttributed | src/scripthut/disk/classify.py:99-113 | reference building and the last check pick the same root for everything inside an entry, unless an earlier root hides in it |
| CleanupSafety.ShadowHides | src/scripthut/disk/classify.py:99-113 | if an earlier root hides in it, some path inside is attributed to nothing |
| CleanupSafety.ActiveWorkIsNeverDeleted | src/scripthut/disk/cleanup.py:202-340 | no planned deletion of a clone or workspace contains a working dir or log dir of a pending or running run of the backend, unless an earlier clone root hides in it |
| CleanupSafety.ActiveLogsAreNeverDeleted | src/scripthut/disk/cleanup.py:202-340 | no planned log deletion contains the log dir of such a run |
| CleanupSafety.ActiveDirectoriesAreNeverDeleted | src/scripthut/disk/cleanup.py:202-340 | the same for paths read as directories, when the path of the run is in normal form: absolute, with no segment empty, `.` or `..` |
| CleanupSafety.ProtectionIsExact | src/scripthut/disk/cleanup.py:202-340 | for an entry that passes the last check, active work inside is kept under all runs if and only if no earlier clone root equals it or lies inside it |
| CleanupSafety.ShadowedWorkIsDeleted | src/scripthut/disk/cleanup.py:202-340 | with such a root there is an active run whose working dir a bulk plan deletes |
| CleanupDirectories.RunPathIsProtectedExactly | src/scripthut/disk/classify.py:99-133 | whatever else is known, a working dir or log dir of active runs keeps a clone or workspace that passes the last check if and only if the first clone root above the text of the path leads to that entry, or to a clone of the same hash |
| CleanupDirectories.DirectoryIsProtectedExactly | src/scripthut/disk/classify.py:99-133 | with one clone root, if and only if the path contains the entry's as text; for a path in normal form, if and only if its directory is or lies in the entry's |
| CleanupDirectories.LogDirIsProtectedExactly | src/scripthut/disk/classify.py:162-166 | a log dir of active runs keeps a log entry if and only if the entry's path contains it as text, or as a directory when it is in normal form |
| CleanupDirectories.QuietSegmentIsDeleted | src/scripthut/disk/classify.py:99-113 | with an empty segment or `.` right below the clone root a bulk plan deletes the directory a running item works in |
| CleanupDirectories.TrailingSlashIsDeleted | src/scripthut/disk/scan.py:173-179 | wherever the only clone dir is configured with trailing slashes, a bulk plan deletes any clone or workspace in which a running item works by the path that the run manager makes of it |
| CleanupDirectories.SlashedCloneDirLosesWork | src/scripthut/runs/manager.py:1012 | every clone dir in normal form, at least two steps deep, is such a configuration once a slash is added |
| CleanupDirectories.TildeIsHome | src/scripthut/disk/classify.py:27-41 | a path below ~ is the path below the home directory once that is known, and else stays as it is |
| CleanupVerdicts.HoldersAreRuns | src/scripthut/disk/classify.py:82-168 | the runs found for a clone, workspace or log are just those whose commit hash starts with its name, one of whose paths the first clone root leads to it, or whose log dir it contains |
| CleanupVerdicts.ClassFromRuns | src/scripthut/disk/classify.py:138-225 | such an entry is active, referenced or orphaned by the runs that hold it, and carries all their ids |
| CleanupVerdicts.NamedIsDeletedExactly | src/scripthut/disk/cleanup.py:284-340 | an explicit request deletes an entry that passes the last check if and only if all of the request is scanned, it is named, no active run holds it, and no other run does unless it is opted in for; workspaces only after a check |
| CleanupVerdicts.NamedIsKeptExactly | src/scripthut/disk/cleanup.py:304-340 | what is named and kept is kept for the active runs that hold it, or for want of an opt-in, and the reason lists all the runs that hold it |
| CleanupVerdicts.BulkIsDeletedExactly | src/scripthut/disk/cleanup.py:284-340 | a bulk plan deletes such an entry if and only if no known run holds it |
| CleanupVerdicts.HeldByActiveRun | src/scripthut/disk/cleanup.py:304-340 | with distinct run ids, held actively means held by a pending or running run |
| CleanupVerdicts.UnsafeIsNeverDeleted | src/scripthut/disk/cleanup.py:304-340 | every deletion of any plan passes the last check, is of a known kind and was scanned |
| CleanupVerdicts.StackClassExactly | src/scripthut/disk/classify.py:228-246 | a stack dir is orphaned if and only if it is half-built or its name is not declared, and its detail says which; superseded ones count as in use |
| CleanupVerdicts.NamedStackIsDeletedExactly | src/scripthut/disk/cleanup.py:284-340 | an explicit request deletes a stack dir if and only if it is named, all is scanned, and the dir is orphaned so or opted in for |
| CleanupVerdicts.BulkStackIsDeletedExactly | src/scripthut/disk/cleanup.py:284-340 | a bulk plan deletes just the stack dirs that are half-built or undeclared |
| CleanupVerdicts.LastCheckExactly | src/scripthut/disk/cleanup.py:202-238 | the last check passes if and only if the path is in normal form, at least three steps deep, not the home directory, and below the first absolute root above it just what its kind calls for, names written out |
| CleanupConfirmation.PlanningIsAntitone | src/scripthut/disk/cleanup.py:284-340 | adding runs of any status deletes no path more often and changes no request error, in both modes |
| CleanupConfirmation.PlannedPathIsNormal | src/scripthut/disk/classify.py:27-41 | a planned path survives normalization if and only if it is trimmed |
| CleanupConfirmation.ConfirmationIsPinned | src/scripthut/cli.py:3371-3397 | over a scan with unique paths, executing the planned paths deletes them all again, in order, if and only if all are trimmed, and then without a request error |
| CleanupConfirmation.UntrimmedPathIsRefused | src/scripthut/disk/cleanup.py:284-302 | an untrimmed path that passes the last check, alone in a scan without runs, is planned for deletion in bulk, and executing that plan is a request error |
| CleanupConfirmation.UntrimmedLogIsRefused | src/scripthut/disk/cleanup.py:284-302 | the log "/a/b/x " under the log root /a/b is such a path |
| CleanupConfirmation.ConfirmationOnlyShrinks | src/scripthut/cli.py:3371-3397 | with more runs known at execution, still no request error, and a subset is deleted |
| Scan.ParseScanOutput | src/scripthut/disk/scan.py:232-269 | the loop raises exactly if some ENTRY line of the right shape has a time of 2^63 or more, and else folds the lines one at a time |
| Scan.ScannedKindsFitTheLastCheck | src/scripthut/disk/scan.py:304-338 | a child of a root gets the kind its section and name call for, and the last check on deletions accepts its name for that kind and for no other; nothing from the cache section is deletable |
| Scan.ReclassificationIsIdempotent | src/scripthut/disk/cleanup.py:166-199 | planning on a cached entry, whatever annotations and run ids it carries, classifies it as a first classification of the raw entry would, exactly when it is not a cache-sweep entry; so for every deletable kind |
| Scan.RawToEntries | src/scripthut/disk/scan.py:304-338 | a new entry object for each raw entry, in order |
| ScanService.ScanBackend | src/scripthut/disk/service.py:219-237 | one scan: entry objects for what was printed, classified under the runs known then; a plan made right away classifies every deletable one alike |
| ScanProtocol.ParseRendered | src/scripthut/disk/scan.py:67-84 | one printed line raises exactly on a time beyond representation, and else parses to what it means, with KiB turned into bytes and unknown times and sizes absent, and without an error |
| ScanProtocol.ScanRoundTrip | src/scripthut/disk/scan.py:232-301 | parsing everything the script prints succeeds exactly if all times can be represented, and then returns its entries in order and no error |
| ScanProtocol.LineOrderIsIrrelevant | src/scripthut/disk/scan.py:232-269 | any permutation of any lines, well formed or not, raises alike and else gives the same multisets of entries and errors |
| ScanProtocol.EntriesDoNotTouchTheRest | src/scripthut/disk/scan.py:232-269 | home and disk figures depend on the other lines only |
| ScanProtocol.EveryLineIsAccounted | src/scripthut/disk/scan.py:246-269 | any line that is not blank is understood or is itself reported as an error, and yields an entry exactly if it is an ENTRY line that is understood |
| ScanProtocol.EntryFieldsExactly | src/scripthut/disk/scan.py:272-301 | any understood ENTRY line yields its own section and path, and readiness just for a stack dir marked 1 |
| ScanProtocol.UnreadableIsUnknown | src/scripthut/disk/scan.py:283-296 | a size or time that cannot be read leaves the entry without it |
| CacheSweep.IsCovered | src/scripthut/disk/scan.py:105-113 | the shell loop decides whether a path is a scanned root, inside one, or above one |
| CacheSweep.ScanCache | src/scripthut/disk/scan.py:120-133 | the sweep prints exactly the uncovered children of its root |
| CacheSweep.CoveringIsSoundExactly | src/scripthut/disk/scan.py:105-113 | the covering test protects a root against every path if and only if the root is not "/" |
| CacheSweep.CacheNeverDoubleCounts | src/scripthut/disk/scan.py:89-150 | without "/" among the section roots, nothing the sweep prints equals, contains or lies in anything another section prints |
| ScanRoots.CoveredIsNestedExactly | src/scripthut/disk/scan.py:105-113 | between paths in normal form the covering test holds if and only if the path's directory is, contains or lies in that of some root |
| ScanRoots.BuildScanSpec | src/scripthut/disk/scan.py:154-189 | the clone roots are exactly the configured directories without trailing slashes, "/" left out, each once and in order of first mention; the stack roots likewise, of just those stacks that are declared for the backend or for all |
| ScanRoots.SweepIsDisjointExactly | src/scripthut/disk/scan.py:89-150 | for any roots, the sweep can print no directory that equals, contains or lies in one another section can print, whatever is on the disk, if and only if the covering test sees every section root below the cache root that starts with a visible name, and some root contains the cache root textually whenever a section above it comes upon it by visible names |
| ScanRoots.NormalRootsExactly | src/scripthut/disk/scan.py:105-133 | the only section root is protected by its text against every cache root in normal form if and only if it is in normal form itself: absolute, with no segment empty, `.` or `..`, one trailing slash aside |
| ScanRoots.NormalConfigurationIsClean | src/scripthut/disk/scan.py:105-133 | so a configuration with all roots in normal form never double-counts a directory |
| ScanRoots.QuietSegmentIsDoubleCounted | src/scripthut/disk/scan.py:154-189 | the clone dirs ~//.cache/scripthut/clones and ~/./.cache/scripthut/clones are double-counted under every home directory |
| ScanRoots.SlashedHomeIsDoubleCounted | src/scripthut/backends/utils.py:88-102 | where the home directory is / or otherwise ends with a slash, the default clone dir written as an absolute path is double-counted |
| Poll.CollectQueries | src/scripthut/main.py:248-277 | accounting is asked about exactly the unconfirmed, the long submitted and the settling jobs of the backend |
| Poll.RunItem.Resolve | src/scripthut/main.py:341-396 | the verdict of a row on an item in SETTLING or SUBMITTED |
| Poll.RunItem.ApplyRow | src/scripthut/main.py:302-424 | what one accounting row does to an item, corrections included |
| Poll.WriteRows | src/scripthut/main.py:291-424 | every item of a run whose job has a row is updated by it, and no other |
| Poll.DropUnknown | src/scripthut/main.py:444-470 | submitted items that neither queue nor accounting know are failed after the no-record timeout |
| Poll.SettleUnconfirmed | src/scripthut/main.py:481-508 | settling items without a row are completed, as unconfirmed, after their timeout |
| Poll.PollBackend | src/scripthut/main.py:248-511 | a whole poll acts on every item of the backend by itself and on no other; a failed fetch is an empty answer |
| PollSafety.OverdueIsDecidedByEvidence | src/scripthut/main.py:335-396 | past its timeout an item is queried, and one poll decides it if and only if the answer is no row, COMPLETED, or a failure state |
| PollSafety.VerdictsHaveEvidence | src/scripthut/main.py:335-511 | an item becomes COMPLETED, or FAILED, exactly on the row or the timeout that calls for it, with the marker for the latter |
| PollSafety.AskedExactly | src/scripthut/main.py:248-277 | accounting is asked about decided items without a confirmed state, settling ones, and submitted ones missing from the queue past the grace time, and about no other |
| PollSafety.VerdictIsCorrectedExactly | src/scripthut/main.py:321-424 | a poll turns COMPLETED into FAILED if and only if the row tells a failure state, for that reason, and FAILED into COMPLETED if and only if it tells COMPLETED and the job had vanished unobserved; any other verdict stays |
| PollSafety.WaitingVerdictSaysWhy | src/scripthut/main.py:341-511 | the error of a waiting item is its failure state's reason on a failure row and nothing on COMPLETED; on a timeout only status, error and, for a dropped job, its times change |
| PollSafety.OthersKeepTheirStatus | src/scripthut/main.py:302-511 | items neither waiting nor decided keep status and error |
| PollSafety.RowIsStamped | src/scripthut/main.py:302-320 | a row leaves its figures, its times and its exit code, and a final state as confirmed; a verdict it brings is dated |
| PollSafety.UndecidedStateNeverResolves | src/scripthut/main.py:341-396 | under any number of polls an undecided final state leaves an item as it is, submitted or settling |
| PollSafety.ShippedTablesHaveUndecidedStates | src/scripthut/backends/slurm.py:39-53 | DEADLINE and BOOT_FAIL, and SUCCEEDED of EC2, are such states |
| PollSafety.StepKeepsConfirmed | src/scripthut/main.py:251-433 | an item with a confirmed verdict and no row pending stays confirmed in every step, and only the end of a cancellation of it can change it |
| PollSafety.LockedIsForever | src/scripthut/main.py:251-433 | so over every history it never changes again, unless a cancellation of it was under way |
| PollSafety.CancellationOverwritesConfirmed | src/scripthut/runs/manager.py:2229-2249 | a cancellation under way turns a confirmed item, COMPLETED or FAILED, into FAILED by cancellation |
| PollSafety.ConfirmedIsForEverExactly | src/scripthut/main.py:251-433 | an item confirmed and with no row pending is unchanged in every history from there if and only if no cancellation of it is under way |
| PollSafety.CancelledAfterCompletion | src/scripthut/runs/manager.py:2229-2249 | under every valid policy, a history from a running item and no cancellation to its confirmed completion and then its failure by cancellation |
| PollSafety.CorrectionLocks | src/scripthut/main.py:311-420 | turning COMPLETED into FAILED or back confirms the verdict in the same step |
| PollSafety.AtMostOneCorrection | src/scripthut/main.py:291-433 | over every history each item is corrected at most once, the end of its own cancellation aside |
| Ec2.EC2Backend.AdmitTask | src/scripthut/backends/ec2.py:158-170 | a submission goes on exactly below the limit and with an image |
| Ec2.EC2Backend.RecordLaunch | src/scripthut/backends/ec2.py:202-213 | the launched id is tracked, whatever is known of it by then |
| Ec2.EC2Backend.CancelJob | src/scripthut/backends/ec2.py:303-316 | a tracked id is filed as terminated early, keeping an exit code it has; any other id changes nothing |
| Ec2.EC2Backend.Reconcile | src/scripthut/backends/ec2.py:346-379 | unknown live tagged instances are adopted, each once, and every tracked one is to be probed |
| Ec2.EC2Backend.StartProbe | src/scripthut/backends/ec2.py:406-440 | a missing or ending instance is filed as terminated early unless the probed record has a verdict; only a running one is asked for its sentinel |
| Ec2.EC2Backend.FinishProbe | src/scripthut/backends/ec2.py:441-458 | the sentinel's exit code decides the verdict that is filed |
| Ec2.EC2Backend.GetJobStats | src/scripthut/backends/ec2.py:541-562 | exactly the queried ids that are completed are answered, each with its verdict |
| Ec2Safety.OneMapExactly | src/scripthut/backends/ec2.py:152-220 | over every interleaving, up to any state, an id has been in at most one map if and only if that id has not been completed between its launch and its recording |
| Ec2Safety.RecordsAreWellFiled | src/scripthut/backends/ec2.py:303-458 | over every interleaving completed records are SUCCEEDED if and only if the exit code is 0, and tracked ones have no verdict |
| Ec2Safety.VerdictsArePermanent | src/scripthut/backends/ec2.py:346-458 | over every interleaving, an id that has not itself been recorded late is never tracked again once completed, and its SUCCEEDED or FAILED record never changes |
| Ec2Safety.VerdictSurvivesExactly | src/scripthut/backends/ec2.py:303-458 | in every reachable state, a SUCCEEDED or FAILED verdict survives every continuation if and only if its id is neither tracked nor in flight |
| Ec2Limit.LimitIsBounded | src/scripthut/backends/ec2.py:158-205 | with at most c submissions in flight at once, at most max_instances + c - 1 instances submitted here are tracked |
| Ec2Limit.LimitHoldsExactly | src/scripthut/backends/ec2.py:158-205 | that bound is the least one that holds over all histories, so the limit is kept just when submissions do not overlap |
| Ec2Safety.LateRecordingLosesVerdict | src/scripthut/backends/ec2.py:197-205 | a history in which an instance is adopted and finished before it is recorded, is then in both maps, and loses its verdict to a cancellation |
| Ec2Liveness.EndedIsFiled | src/scripthut/backends/ec2.py:377-436 | over every interleaving, when a poll that got its answer ends, every instance tracked on arrival that the answer lists as shutting-down, terminated, stopped or stopping, or does not list, is completed and not tracked, unless it was recorded again meanwhile |
| Ec2Liveness.SentinelDecides | src/scripthut/backends/ec2.py:438-458 | once its sentinel was read, the probe that finishes files just that code: SUCCEEDED for 0, else FAILED |
| Ec2Liveness.RunningIsAsked | src/scripthut/backends/ec2.py:422-458 | a poll that ends has asked every other tracked instance that is listed and not pending |
| Ec2Liveness.AdoptedExactly | src/scripthut/backends/ec2.py:346-372 | reconciling adds just the listed instances with a task tag that are not gone and in neither map, without a verdict |
| Ec2Lost.LostExactly | src/scripthut/backends/ec2.py:320-458 | over every interleaving a running, uncancelled instance is written off as terminated early if and only if it was recorded while an answer given before its start was on the way |
| Ec2Lost.WrittenOffIsFiled | src/scripthut/backends/ec2.py:406-420 | the probe of such an instance can always take its step, and files it |
| Ec2Lost.RecordedMeanwhileIsLost | src/scripthut/backends/ec2.py:320-420 | a history in which that happens |
| Sacct.DocumentedExitCodes | src/scripthut/backends/slurm.py:60-104 | for all exit and signal numbers, the text exit:signal indicates failure if and only if one is not zero, and yields the exit number |
| SacctOrder.CellStep | src/scripthut/backends/slurm.py:502-556 | one row changes what the dictionaries hold for its own job, as the rules for its kind say, and nothing of any other job |
| Sacct.GetJobStats | src/scripthut/backends/slurm.py:477-590 | the row loop and the report of the valid ids; a main or batch state of blanks raises |
| SacctOrder.CellIsSpecified | src/scripthut/backends/slurm.py:477-565 | after any rows the dictionaries hold, for a job with at most one main and one batch row, just what those say |
| SacctOrder.FoldRefinesSpecification | src/scripthut/backends/slurm.py:477-590 | the report of such a job is the batch failure state, else FAILED on a nonzero batch exit, else FAILED on COMPLETED with a nonzero exit, else the main state; the batch exit code is preferred, and memory is the maximum of all steps |
| SacctOrder.RowOrderIsIrrelevant | src/scripthut/backends/slurm.py:477-590 | permuting and interleaving the rows of any jobs changes no report |
| SacctRows.RowOfJobExactly | src/scripthut/backends/slurm.py:498-535 | for a job id without a dot, the row of that id is its main row, rows of the id, a dot and a step are its steps, a batch row just if .batch occurs in it, and no other row is its own |
| SacctRows.FirstWordOf | src/scripthut/backends/slurm.py:520-545 | a state is read up to its first blank |
| SacctRows.CancelledBySomeone | src/scripthut/backends/slurm.py:540-545 | CANCELLED by 1000 is read as CANCELLED |
| SacctRows.ExitFieldExactly | src/scripthut/backends/slurm.py:60-104 | any exit field: without a colon it says nothing; else it tells a failure if and only if a part is a nonzero number after numbers only, and the code is the number before the first colon |
| SacctRows.ReportByText | src/scripthut/backends/slurm.py:477-590 | the report from the texts of a main and a batch row, among steps and rows of other jobs in any order: the batch row's failure state or nonzero exit overrules, its exit code and CPU time are preferred, memory is the peak of all the job's rows |
| SacctRows.ReportWithoutBatch | src/scripthut/backends/slurm.py:477-590 | the report of a job without a batch row |
| SacctRows.NoMainNoReport | src/scripthut/backends/slurm.py:567-571 | a job without a main row is not reported |
| SacctRows.MaskedOutOfMemory | src/scripthut/backends/slurm.py:520-535 | COMPLETED 0:0 with a batch row OUT_OF_MEMORY 0:125 is reported OUT_OF_MEMORY with code 0 |
| Notifications.NotificationHub.Subscribe | src/scripthut/notifications.py:97-101 | a client gets an empty queue, and the others keep theirs |
| Notifications.NotificationHub.Unsubscribe | src/scripthut/notifications.py:103-104 | the queue of a client is dropped, and the others keep theirs |
| Notifications.NotificationHub.Broadcast | src/scripthut/notifications.py:106-114 | every queue is offered the message, and full ones drop it |
| Notifications.NotificationHub.PrimeHub | src/scripthut/notifications.py:121-132 | everything is recorded and nothing announced; every queue is offered one message with progress figures |
| Notifications.NotificationHub.RefreshStats | src/scripthut/notifications.py:217-220 | every queue is offered one message with progress figures, and nothing else changes |
| Notifications.NotificationHub.RunScheduled | src/scripthut/notifications.py:134-153 | the run's failures are forgotten, its status is recorded, and clients are told |
| Notifications.NotificationHub.ScanHub | src/scripthut/notifications.py:155-187 | the hub moves as specified, and every client is offered exactly what is announced |
| Notifications.DeliveredIsPrefix | src/scripthut/notifications.py:97-114 | an undrained client holds the first messages, announcements and progress figures alike, in order, up to a hundred |
| NotificationHistory.AnnouncedExactlyOnce | src/scripthut/notifications.py:121-187 | for runs with given ids, over every history each failure is announced once since its run was last scheduled if a scan saw it before it was primed, and otherwise never, if and only if no id followed by a colon starts another |
| NotificationHistory.RepeatsNeedRescheduling | src/scripthut/notifications.py:121-187 | two announcements of a failure have the run scheduled anew between them |
| NotificationHistory.ClashLosesNotice | src/scripthut/notifications.py:155-173 | for any two ids that clash so and any task of the second, a scan that sees its failure and never announces it |
| NotificationHistory.ColonFreeIdsAreUnambiguous | src/scripthut/runs/manager.py:723 | ids without a colon never clash, and generated ids have none |
| NotificationHistory.DoneNoticesAreEarned | src/scripthut/notifications.py:175-187 | a run-done notice follows the record of a terminal status, and the record before was active |
| NotificationHistory.DoneNoticesAreSeparated | src/scripthut/notifications.py:155-187 | two run-done notices of a run have an active record between them |
| NotificationScans.EndIsAnnouncedExactly | src/scripthut/notifications.py:155-187 | over every history, the scan of a run announces its end if and only if the status last recorded was pending or running and the one found is completed, failed or cancelled; then once, right after its record, and the notice stays |
| NotificationScans.FoundFailuresAreKnown | src/scripthut/notifications.py:155-173 | after a scan, the failures first known by sight, which is what announces them, are just those that it found and that were not known before |
| NotificationScans.PrimedFailuresAreKnown | src/scripthut/notifications.py:121-132 | after priming, every failure of its runs is known, and the new ones by priming, which keeps them from being announced |
| NotificationScans.LastReportIsOnRecord | src/scripthut/notifications.py:121-187 | the status on record for a run is the one last reported by priming, scheduling or scanning |
| Slices.IterSlices | src/scripthut/runs/activity.py:82-117 | the cursor loop ends, and its guard against a stalled cursor is never needed |
| Slices.SlicesIncrease | src/scripthut/runs/activity.py:82-117 | the periods strictly increase and every slice is positive |
| Slices.SlicesSumToLength | src/scripthut/runs/activity.py:82-117 | the slices sum to end minus start, or to 0 for an empty interval |
| Slices.SliceIsOverlap | src/scripthut/runs/activity.py:82-117 | each period is credited exactly its overlap with the interval |
| Slices.WindowIsOverlap | src/scripthut/runs/activity.py:82-117 | and each window of consecutive periods exactly its own |
| Activity.RecordSlices | src/scripthut/runs/activity.py:165-186 | a record has a slice on a day if and only if it ran on it, and then the whole of it |
| Activity.AddSlices | src/scripthut/runs/activity.py:172-185 | the inner loop adds work, task counts and run ids to the days of the slices and to no other |
| Activity.AddRecords | src/scripthut/runs/activity.py:165-186 | after the loop every day holds the cpu-weighted overlap of all records with it, the number of records and the set of runs on it |
| Activity.GridConservesWork | src/scripthut/runs/activity.py:165-208 | the days sum to every record's CPUs times its overlap with the window |
| Heatmap.AssignLevels | src/scripthut/runs/activity.py:120-149 | the loop assigns the quartile level of the sorted busy days |
| Heatmap.ShadingIsFaithful | src/scripthut/runs/activity.py:120-149 | the level is monotone in the work, 0 if and only if idle, and 4 for every busiest day |
| Heatmap.LevelByRank | src/scripthut/runs/activity.py:120-149 | a busy day has a level of at most q if and only if some day is busier and no more than q quarters of the other busy days, rounded down, are less busy |
| Heatmap.LayOut | src/scripthut/runs/activity.py:188-198 | the matrix has one column per week and one row per weekday, with the day of each cell or nothing |
| Heatmap.EachDayOnce | src/scripthut/runs/activity.py:188-198 | each day of the window stands in exactly one cell, in the row of its weekday |
| Heatmap.CellsAreChronological | src/scripthut/runs/activity.py:188-198 | reading columns left to right from Monday is reading the days in order |
| Heatmap.Busiest | src/scripthut/runs/activity.py:200-208 | the number of busy days, and a day than which none is busier |
| Heatmap.BuildActivityGrid | src/scripthut/runs/activity.py:152-208 | the grid as a whole: filled, shaded, laid out, its total the cpu-weighted overlap with the window, its active days counted |
| Hourly.Accumulate | src/scripthut/runs/activity.py:286-301 | the accumulation loops compute the tally that the theorems below are about |
| HourlyConservation.TallyIsOverlap | src/scripthut/runs/activity.py:286-301 | each hour's dictionary sums to the cpu-weighted overlap of the aligned records with that hour |
| HourlyConservation.ChartConservesWork | src/scripthut/runs/activity.py:275-355 | bars, series after folding, and the cpu-weighted overlap with the window have one sum; at most six series |
| HourlyConservation.ChartIsCompleteExactly | src/scripthut/runs/activity.py:290-296 | nothing is missing if and only if every record that overlaps the window has an offset a whole number of hours away |
| HourlyConservation.BarHeight | src/scripthut/runs/activity.py:324-346 | the segments of a bar stack up to its share of the largest bar |
| HourlyConservation.BarsFitTheChart | src/scripthut/runs/activity.py:324-346 | every bar's heights sum to at most 100, and the busiest bar's to exactly 100 |
| HourlySeries.WindowEndsNow | src/scripthut/runs/activity.py:275-290 | the hours of the window follow each other, and the present lies in the last |
| HourlySeries.ShownAreBusiest | src/scripthut/runs/activity.py:303-306 | when sources are folded, the five shown have each done at least as much as every folded one |
| HourlySeries.SeriesAreInOrder | src/scripthut/runs/activity.py:303-306 | the series come busiest first, ties in order of first appearance |
| HourlySeries.SegmentsExactly | src/scripthut/runs/activity.py:324-342 | a bar has a segment for each series with work in its hour, in stacking order, with its work and share, the last marked as top |
| HourlySeries.SourceIsShown | src/scripthut/runs/activity.py:286-355 | each shown source has in each bar and in the legend exactly the cpu-weighted overlap of its aligned records |
| HourlyClash.TotalIsConservedExactly | src/scripthut/runs/activity.py:308-355 | the chart's total is the work of all sources if and only if no folded chart shows a source called "Other", or that source and the tail have done just as much |
| HourlyClash.BarsAreConservedExactly | src/scripthut/runs/activity.py:308-346 | the bars sum to that work if and only if, besides, no hour holds work of both |
| HourlyClash.StackIsExact | src/scripthut/runs/activity.py:324-346 | a bar's segments stack up to the bar if and only if there is no clash or the bar shows no "Other", which is else drawn twice |
| HourlyClash.ConservedExactly | src/scripthut/runs/activity.py:275-355 | the three conditions for the chart of any records |
| HourlyClash.OtherLosesWork | src/scripthut/runs/activity.py:308-355 | six records for which total, bar and stack are all wrong |
| HourlyClash.OtherStopsTheChart | src/scripthut/runs/activity.py:308-355 | six records for which the chart cannot be drawn |
| HourlyCharts.OnlyOtherIsMissed | src/scripthut/runs/activity.py:308-355 | reading the totals of the series fails if and only if a source called "Other" is in the tail |
| HourlyCharts.BuildHourlyUsage | src/scripthut/runs/activity.py:275-355 | the chart as a whole, the KeyError included; without a clash it conserves work and no bar is higher than 100 |
| Gantt.FindAxisEnd | src/scripthut/main.py:2454-2490 | the two loops compute the end of the time axis |
| Gantt.AxisEndIsLatest | src/scripthut/main.py:2454-2490 | the axis ends at the least moment not before its start, any timestamp, or the end of any started bar |
| Gantt.ChooseInterval | src/scripthut/main.py:2496-2501 | the first nice interval that needs at most ten steps, or a day |
| Gantt.MarkersAreOrdered | src/scripthut/main.py:2503-2514 | marker percentages start at 0 and strictly increase within [0, 100] |
| Gantt.MarkersAreFew | src/scripthut/main.py:2496-2514 | at most eleven markers up to ten days, at least three beyond ten seconds |
| Gantt.BarIsToScale | src/scripthut/main.py:2531-2561 | a bar ends at its extent in seconds, the run segment starts where the wait segment ends, and it fits if and only if the extent is within the span |
| Gantt.BarMeasuresTime | src/scripthut/main.py:2531-2561 | start, wait and run segment of a bar in seconds of its own time stamps; an item never submitted has no bar |
| Gantt.WellStampedBarFits | src/scripthut/main.py:2465-2563 | 0 <= start <= end <= 100 for every well-stamped item, in every run and at every time |
| Gantt.BarsFitExactly | src/scripthut/main.py:2465-2563 | a bar fits in every run and at every time from the run's creation on if and only if its item is well stamped: submitted no earlier than the run and started, finished or in flight, or of no length |
| Gantt.ComputeGantt | src/scripthut/main.py:2454-2565 | bars and markers as a whole |
| Durations.ElapsedRoundTrip | src/scripthut/backends/ec2.py:741-745 | for every natural number of seconds the printed elapsed time parses back to it |
| Durations.DayClockMeaning | src/scripthut/backends/utils.py:32-54 | D-HH:MM:SS text means what its fields spell, for all field values and any padding |
| Durations.LongClockMeaning | src/scripthut/backends/utils.py:32-54 | HH:MM:SS text means what its fields spell |
| Durations.ClockMeaning | src/scripthut/backends/utils.py:32-54 | MM:SS text means what its fields spell |
| DurationTexts.DecimalsMeaning | src/scripthut/backends/utils.py:32-54 | seconds with decimals mean what their digits spell |
| DurationTexts.DecimalClockMeaning | src/scripthut/backends/utils.py:32-54 | MM:SS text with decimals means what its fields spell |
| DurationTexts.OtherTextsAreZero | src/scripthut/backends/utils.py:38-52 | placeholders, and texts without one or two colons, read as 0 |

## Left out

- Execution: SSH, boto3, subprocesses, remote deletion and git checks, shell quoting, log fetching; only returned values and the points at which control can change hands are modelled.
- Text for people: source labels, warnings and the wording of reasons and errors in plans, notification texts, marker labels, colours, formatted sizes. Reasons are values of a datatype.
- Cleanup.PlanCleanup: stack hashes and run references are inputs; run ids are sets, their sorted order being display only.
- Scan.ParseScanOutput: in numbers, digits other than ASCII are not recognized, and more than 4300 digits are read rather than rejected.
- ScanProtocol.ScanRoundTrip: paths hold no tab or line break, and come back without trailing slashes; the shell that prints them is represented by its line format.
- CacheSweep.ScanCache: what `*` expands to is a parameter.
- ScanRoots.SweepIsDisjointExactly: directories are read from the text of paths and the current directory; symbolic links are not followed, and `..` leads to the parent by name.
- Poll.PollBackend: `_after_item_completed`, `process_run`, persistence, and the revival of tasks that a wrong failure had blocked belong to the run manager, which is an environment that may do anything to undecided items, never changes an assigned job id, and apart from the cancellations modelled in PollSafety never touches COMPLETED or FAILED items; re-running a run in place is therefore excluded. The timeouts are parameters with the submit grace at most the no-record timeout.
- PollSafety.LockedIsForever: an item also has to have no accounting row pending in a poll in progress, since such a row still updates its figures, and no cancellation under way.
- PollSafety.AtMostOneCorrection: job ids are unique across items, and what `cancel_run` writes after its await is not counted as a correction.
- Ec2Lost.LostExactly: EC2 answers with every instance that runs at that moment; descriptions that lag behind are not modelled. Start and completion times, archived logs and SSH sessions are left out of the tracker.
- Sacct.GetJobStats: rows come with their durations and memory as numbers; splitting lines, parsing those fields, rounding and formatting are not modelled.
- SacctOrder.FoldRefinesSpecification: a job has at most one main and one batch row.
- Notifications.NotificationHub.Broadcast: clients draining their queues are not modelled, and of the progress figures only their messages.
- Ec2.EC2Backend.Reconcile: the jobs that a poll returns as active, and their displayed states, are not modelled.
- ScanService.ScanBackend: the order of the entries by size and the names of stack environments are not modelled.
- CleanupDirectories.DirectoryIsProtectedExactly: symbolic links are not followed, and `..` leads to the parent by name.
- Slices.IterSlices: times are whole seconds, and one offset holds for a whole record; changes of daylight-saving time within a record are not modelled.
- Activity.AddRecords: work is in CPU-seconds; CPU-hours are the same divided by 3600.
- HourlyConservation.ChartConservesWork: no source is called "Other" when a tail is folded, and misaligned records are left out; HourlyClash.ConservedExactly and ChartIsCompleteExactly say what happens otherwise.
- Gantt.ComputeGantt: arithmetic is exact; time stamps in microseconds and float rounding are not modelled.
- Durations.ElapsedRoundTrip: seconds with an exponent, `inf` and `nan` are rejected by the model's reader.
- Everything else: web routes and templates, the command line, authentication, stack preparation, submission scripts, PBS, pricing, project and environment configuration.
