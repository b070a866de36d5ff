# WebSync delivery core

WebSync sends web articles and books from several PCs to several e-readers. This project models the
machinery that keeps the PCs and the readers agreeing about what was delivered, and proves what that
machinery promises.

- **History** (`Lww`, `History`, `HistoryRows`): the database of deliveries (`synced_posts`) and deletions
  (`deleted_posts`), keyed by url and reader. `Lww` is the order of marks it is measured by: the newer
  mark wins and a deletion wins a tie. `HistoryRows` says what the rows hold besides.
- **Exchange** (`Replicas`, `ReplicaContents`, `Convergence`, `ConvergenceProofs`, `CanonicalFile`): snapshots in a shared folder and their
  reconciliation, and the protocol of marks, deletions, pushes, pulls, interrupted pushes, stale cloud
  views and rolled-back files, as a state machine over whole runs. `CanonicalFile` says what each step writes to
  the folder and when the canonical history file keeps it.
- **Site list** (`Sites`, `SiteProofs`, `SiteContents`): default filling, merging by url, deletion markers, and whose
  settings a merged site carries.
- **Reader identities** (`Ordering`, `UnionFind`, `DeviceRegistry`, `RegistryProofs`, `RegistryPrimary`, `RegistryRun`,
  `RegistryWrite`, `RegistryFixpoint`, `RegistryStable`, `RegistryRecords`, `RegistryExport`, `RegistryAdopt`,
  `IdentitySafety`): clustering records by shared
  hosts, ids and aliases with union-find and path halving, the guarded pass over primary readers, the
  export and the write-back. `DeviceRegistry` is the specification, `RegistryRun` and `RegistryWrite` the
  imperative operation proved equal to it, `RegistryStable` the fixpoint theorem. `RegistryRecords`, `RegistryPrimary`,
  `RegistryExport` and `RegistryAdopt` say in terms of readers, entries and records what goes in, which clusters
  result, what each of them exports and what is written back.
- **Delivery** (`Delivery`, `DeliveryProofs`, `DeliveryRuns`, `DeliveryRows`, `RecordKeys`, `Digest`): targets, grouping by the exact set of
  missing articles, uploading, recording, what planning again asks for, and the daily digest.
- **Watch** (`WatchQueue`, `WatchProofs`, `WatchEvents`, `WatchDelays`, `WatchRestarts`, `Debouncer`,
  `DebounceRetries`): the durable retry queue and the folder watcher in front of it, with observer threads, a worker, failing saves, stops and restarts in any interleaving.
- **Protocols** (`PipelineLocks`, `ConfigStore`, `ConfigEdits`, `ConfigRuns`, `Installer`): the pipeline locks over any
  number of processes and threads, the configuration's revision check with merge and retry, and the
  replacement of the executable under failures and crashes.
- **Crontab** (`Crontab`, `CrontabText`): the managed block editor.

Where the program changes state in place the model does too: the database, the union-find forest, the
configuration, the queue, the watcher, the install folder and the configuration file are classes whose
methods are proved against specification functions, and loops over lists and dictionaries are loops.
Where the point is what threads and processes do to each other, each atomic section is a function on the
state and a run is any sequence of them.

How values are modelled: times are natural numbers in a total order, with a blank stamp below all of
them; urls, hosts and ids are already normalised; fingerprints and hashes are compared for equality only;
the uploader, the clock, the file system's failures and the save callback's failures are arguments. A
transaction or an atomic file replacement is one step.

## Results that qualify what the program promises

- An imported post without a time stamp breaks order independence, because the database's clock stands in
  for it only when the key is new (`History.UndatedPostsDependOnOrder`). The import theorems therefore ask
  for dated posts.
- A local delivery or deletion stamped by a clock that is behind what the database holds is not a join
  (`History.MarkIsJoinIffClockAhead`, `History.BuryIsJoinIffClockAhead`); `ConvergenceProofs.ClockBehindForgets`
  is such a run. Convergence of a key asks each PC's clock to be past what that PC holds for this key, and
  nothing for other keys.
- The canonical history file does not keep what a push wrote whatever happens: a rollback takes it away, and so does a
  writer that knows it from nowhere (`CanonicalFile.CanonFallsIff` and `CanonicalFile.CanonKeptIff` say exactly when).
  The snapshots do keep it (`ConvergenceProofs.PushedIsKept`).
- In global history mode one acknowledged target settles an article for all of them
  (`DeliveryRuns.GlobalModeOneAckSettles`).
- A Watch record can be saved with a completed target that is not among its targets, when a shutdown
  handover falls between two assignments (`WatchProofs.TornSaveHappens`). `WatchProofs.SavedSubsetIffNeverTorn`
  says exactly when it cannot. The record is harmless: the next pass intersects it with the targets configured.
- Two flushes of the folder watcher busy with one path can lose an event at shutdown
  (`Debouncer.TwoFlushesLoseAnEvent`). `Debouncer.StopCompleteIff` and `Debouncer.UncoversIffShared` say exactly
  when: a flush ends on a path whose last event another flush took and has yet to deal with.
- A restart of the Watch queue forgets a finished file: its record is in memory only, so an event for the unchanged
  file sends it to every reader again (`WatchRestarts.RestartSendsAgain`). `WatchRestarts.ForgottenIff` and
  `WatchRestarts.NoRepeatIff` say exactly when; files not yet finished keep their acknowledgements.
- With no readers configured `needs_sync` and `pending_device_ips` disagree about a url nobody has
  (`History.NeedsIffPending`).
- The Watch queue's delays do not grow monotonically: a complete pass whose removal cannot be saved, or that an
  event disturbed, sets a shorter one (`WatchDelays.DelayCanFall`). `WatchDelays.DelayFallsIff` is the exact
  condition; between failed passes they never fall (`WatchDelays.DelaysNeverFall`). A restart starts them over
  (`WatchDelays.RestartResetsDelay`).
- A conflict merge can lose reader names that only the disk knows (`ConfigStore.DiskNamesCanBeLost`).
  `ConfigStore.MergedNames` and `ConfigStore.NoDiskNameLostIff` say exactly which names survive, and
  `ConfigRuns.HeldNames` says it for any number of conflicts. Names the form knew, and the primary reader's, are never lost.
- The comment at websync/core/process_lock.py:121-126 says the probe behind `is_pipeline_running` never
  occupies the lock. It does for a moment, and a job asked for meanwhile is turned down
  (`PipelineLocks.ProbeCanRejectAJob`). `PipelineLocks.JobTurnedDownIff` says exactly when a job is turned down at
  each check, and `PipelineLocks.NeedlessRejectionIff` that a probe is the only needless reason. The model follows the code.
- The comment at websync/core/update/installer.py:271-272 says an existing backup means the target was
  never replaced. After a crash between the second move and the check it was, and a second update under
  the same backup name loses the good executable (`Installer.FixedNameCanLose`).
  `Installer.GoodExecutableKeptIff` gives the exact condition, and `Installer.VersionedBackupsAreSafe` shows
  that the updater's way of naming backups meets it.
- Unregistering from an otherwise empty crontab leaves one blank line, not none
  (`Crontab.UnregisterGivesBack`).

## Model

| member | source | states |
|---|---|---|
| History.SyncHistoryDb.MarkSyncedMany | websync/db/history.py:238-285 | Every named entry is live, stamped now, and no longer deleted; unnamed entries are skipped and not counted; the tables stay disjoint |
| History.SyncHistoryDb.DeleteEntry | websync/db/history.py:346-365 | All live rows of the url, and only they, become deletions stamped now |
| History.SyncHistoryDb.ClearAll | websync/db/history.py:367-384 | Every live row becomes a deletion stamped now; older deletions stay |
| History.SyncHistoryDb.ImportDeletedPosts | websync/db/history.py:443-498 | The tables after the call are the fold of the deletions, one by one, and the count is the number of deletions that were newer than the one held when their turn came |
| History.SyncHistoryDb.ImportPostsUnion | websync/db/history.py:518-622 | The tables after the call are the fold of the posts, one by one, and the count is the number of posts that changed a row when their turn came |
| History.ChangesRowIff | websync/db/history.py:544-604 | A post is counted exactly when it changes `synced_posts`: it is new and not deleted since, strictly newer, or fills in an undated row |
| History.SyncHistoryDb.IsSyncedForAnyKey | websync/db/history.py:136-144 | True exactly when the url is live under one of the non-blank keys |
| History.SyncHistoryDb.NeedsSync | websync/db/history.py:146-178 | True exactly when some reader's key group has no delivery of the url, or in global mode none has; no groups falls back to the url |
| History.SyncHistoryDb.PendingDeviceIps | websync/db/history.py:180-217 | The first key of every group still missing the url, in order |
| History.NeedsIffPending | websync/db/history.py:146-217 | The two ways to ask agree when there is any reader: a url needs syncing exactly when some reader is pending; with no readers nothing is pending, yet a url nobody has counts as needed |
| History.MoreKeysNeverNeedMore | websync/db/history.py:136-178 | Adding keys to the groups never turns a delivered url into a needed one |
| History.TombIsJoin | websync/db/history.py:460-495 | One imported deletion joins its mark to the key's status (newest wins, deletion wins a tie) and keeps the tables disjoint |
| History.PostIsJoin | websync/db/history.py:544-604 | One imported dated post joins its mark to the key's status and keeps the tables disjoint |
| History.ImportTombsIsJoin | websync/db/history.py:443-498 | Importing a list of deletions joins all their marks, for every key |
| History.ImportPostsIsJoin | websync/db/history.py:518-622 | Importing a list of dated posts joins all their marks, for every key |
| History.ImportBatchesIsJoin | websync/db/history.py:443-622 | Any sequence of imports gives every key the join of what it held and everything imported |
| History.ImportOrderIrrelevant | websync/db/history.py:443-622 | Two sequences of imports with the same records, in any order, split and repetition, leave the same status and time per key |
| History.DeletionUndoneOnlyByLaterPost | websync/db/history.py:544-595 | After an import a deleted key is live exactly when some imported post for it is strictly later than the deletion; otherwise the deletion is as it was |
| History.UndatedPostsDependOnOrder | websync/db/history.py:575-583 | The counterexample behind the dating condition: two orders of an undated and a dated post leave different times |
| History.MarkAllStatus | websync/db/history.py:238-285 | A local delivery makes exactly the marked keys live at the given time and keeps the tables disjoint |
| History.BuryStatus | websync/db/history.py:346-384 | A local deletion turns exactly the chosen live keys into deletions and keeps the tables disjoint |
| History.MarkIsJoinIffClockAhead | websync/db/history.py:247 | A local delivery acts as a join exactly when the clock is at or past the live stamp and strictly past the deletion it overwrites |
| History.BuryIsJoinIffClockAhead | websync/db/history.py:354 | A local deletion acts as a join exactly when the clock has reached the stamp it buries |
| HistoryRows.MarkedRow | websync/db/history.py:238-285 | A local delivery writes the site and title of the last entry for the key, with the given time |
| HistoryRows.UnmarkedRow | websync/db/history.py:238-285 | Every row without an entry stays as it is |
| HistoryRows.ImportedNames | websync/db/history.py:544-604 | A row an import writes takes the post's names where it has any and keeps the old ones where it has none; no other row moves |
| HistoryRows.NewestNames | websync/db/history.py:518-622 | In any list of dated posts, in any order, the newest post for a key gives its row the time and every name it has |
| HistoryRows.PendingAre | websync/db/history.py:180-217 | The pending readers are exactly those that lack the url, in order, each under the first of its keys |
| HistoryRows.GroupsAre | websync/db/history.py:168-174 | Readers asked about: the non-empty alias groups in order when any are given, otherwise the non-blank targets in order |
| Replicas.MergeReplicaInputs | websync/backup/replicas.py:19-77 | The loops over canonical file and snapshots return the reconciled payload, or refuse too many snapshots or a nameless record |
| Replicas.CollectPosts | websync/backup/replicas.py:57-68 | The dictionary holds the newest post per key, in first-seen order; a nameless post is reported |
| Replicas.CollectTombs | websync/backup/replicas.py:57-68 | The dictionary holds the newest deletion per key; a nameless one is reported |
| Replicas.DropLosers | websync/backup/replicas.py:69-73 | Of a post and a deletion for one key only the winner stays, the deletion on a tie |
| Replicas.ReconcileKeepsMarks | websync/backup/replicas.py:54-75 | Reconciling keeps, for every key, the join of all marks that went in |
| Replicas.GatherMarks | websync/backup/replicas.py:45-52 | Concatenating canonical file and snapshots holds the join of their marks, for every key |
| Replicas.MergeRefinesRawImport | websync/backup/replicas.py:45-75 | Importing the reconciled payload leaves the same status and time per key as importing every raw record of every file, in any order and split |
| ReplicaContents.ReconciledPosts | websync/backup/replicas.py:54-74 | The reconciled posts: for every key whose newest post beats its deletions the first newest one, in the order in which the keys first appear |
| ReplicaContents.ReconciledTombs | websync/backup/replicas.py:54-75 | The reconciled deletions, likewise, a deletion winning a tie |
| ReplicaContents.GatheredInOrder | websync/backup/replicas.py:43-52 | The canonical file's records come first, then each snapshot's, so the canonical file wins ties |
| ReplicaContents.MergeOutcome | websync/backup/replicas.py:23-65 | No snapshot directory: the history passes as it is; otherwise a merge is refused exactly for too many snapshots or a nameless record in any file |
| ConvergenceProofs.ExportMarks | websync/db/history.py:398-441 | An export carries exactly the status and time of every key of the database |
| ConvergenceProofs.MergedIsJoin | websync/backup/service.py:264-276 | What a reader merges from the files it sees is the join of those files, for every key |
| ConvergenceProofs.StatusRises | websync/backup/service.py:226-380 | No step of the exchange lowers what a database knows about a key while clocks are ahead |
| ConvergenceProofs.NothingInvented | websync/backup/service.py:382-561 | Over every run no database and no version of any file ever knows more than the join of everything the PCs recorded |
| ConvergenceProofs.PushedIsKept | websync/backup/service.py:421-519 | Once a PC has completed a push, its own snapshot keeps what it knew, whatever else happens to the folder; `CanonicalFile` says the same of the canonical file, as far as it is true |
| CanonicalFile.PushWrites | websync/backup/service.py:421-519 | A push learns the join of every file it sees; it then writes all it knows to the canonical file and, when it completes, to its own snapshot, and touches nothing else; interrupted before the history file it leaves both alone |
| CanonicalFile.PullWrites | websync/backup/service.py:226-380 | A pull learns the join of every file it sees, touches no snapshot, and writes the canonical file only when it publishes the registry, with exactly what it saw |
| CanonicalFile.CanonFallsIff | websync/backup/service.py:499-507 | A step makes the canonical file forget a mark exactly when it rolls the file back to a version without it, or a push or publishing pull writes it that sees the mark in no file (and, for a push, does not know it) |
| CanonicalFile.CanonKeptIff | websync/backup/service.py:499-507 | Over every run, whatever the clocks do: the canonical file keeps a mark to the end if and only if no such step follows |
| CanonicalFile.PushReachesCanon | websync/backup/service.py:499-507 | In every run a push that reaches the history file leaves there for every key exactly the join of what its PC knew and saw, and the file keeps that if and only if no such step follows |
| CanonicalFile.PushedIsInCanon | websync/backup/service.py:421-519 | When later writers see the current files and nothing is rolled back, the canonical file ends up knowing all the PC started with and recorded before its push |
| ConvergenceProofs.ReadIsLearnt | websync/backup/service.py:226-380 | A PC that reads the current files knows afterwards everything any snapshot held |
| ConvergenceProofs.Converges | websync/backup/service.py:226-561 | Per key: after any run with interrupted pushes, stale views and rolled-back canonical files, once local changes stop, every PC completes a push and a PC then reads, its database holds exactly the join of everything recorded |
| ConvergenceProofs.AllAgree | websync/backup/service.py:226-561 | Under the same conditions all such databases hold the same status and time for every key |
| ConvergenceProofs.ClockBehindForgets | websync/db/history.py:247 | The counterexample behind the clock condition: a delivery stamped before a held deletion erases it from the run's join |
| ConvergenceProofs.TooManySnapshotsStopTheFolder | websync/backup/replicas.py:25-27 | Once the folder holds more snapshots than the limit, then after any further steps no pull and no push that sees the current files changes anything |
| Sites.DeepMerge | websync/config/manager.py:223-237 | The result is the current object filled recursively from the defaults, and the flag says exactly whether anything was filled in |
| Sites.FillIdempotent | websync/config/manager.py:223-237 | Filling defaults twice is filling them once, at every depth |
| Sites.FillKeeps | websync/config/manager.py:223-237 | A value the current object sets is kept, an object unchanged under a plain default and filled recursively under an object |
| Sites.FillKeepsPaths | websync/config/manager.py:223-237 | At every depth, exactly: settings stay where they are, objects keep their keys and get those of the default object in their place, and every place left open holds what the defaults have there |
| Sites.MergeSitesLoop | websync/backup/format.py:211-263 | The dictionary-and-order loop returns the fold of the local and remote sites |
| Sites.MergeTombsLoop | websync/backup/format.py:149-164 | The loop over all groups returns one newest marker per url, sorted by url |
| Sites.ApplyTombsLoop | websync/backup/format.py:166-185 | The loop keeps the sites that outlive their markers and the markers not used up |
| SiteProofs.LocalFirstOrder | websync/backup/format.py:211-263 | Merged urls are unique, local order first, then remote-only urls in their order of appearance |
| SiteProofs.PutLocalsUnique | websync/backup/format.py:231-246 | Local sites end up unique by url and filled with the defaults |
| SiteProofs.MergeTombsKeepsMarks | websync/backup/format.py:149-164 | Merging markers keeps the newest deletion of every url and nothing else |
| SiteContents.MarkersAre | websync/backup/format.py:149-164 | The merged markers are strictly sorted by url and are exactly the newest usable deletion of every url |
| SiteContents.MergeWinner | websync/backup/format.py:211-263 | The site held for a url is, filled with the defaults, the winner among the last local and all remote ones: the first of the newest when dated; undated, the first, or the last unstamped remote one when the remote list counts as newer |
| SiteContents.LocalsInOrder | websync/backup/format.py:231-246 | Local urls come in order of first appearance and every site without a url keeps its own place |
| SiteContents.NamelessStay | websync/backup/format.py:233-252 | Local sites without a url all stay, in order; remote ones are ignored |
| SiteContents.PullSettles | websync/backup/service.py:284-323 | A pull, url by url: the winning site stays exactly when it is newer than every deletion, and the newest deletion stays exactly when no site does; nothing to merge leaves the list alone |
| SiteProofs.PullIsJoin | websync/backup/service.py:284-323 | A pull holds per url the later of newest update and newest deletion, deletion winning a tie and unstamped or unreadable stamps counting as oldest, and never both a site and a marker, for all inputs |
| SiteProofs.PullAgain | websync/backup/service.py:284-323 | Pulling the same sites and markers again changes nothing, for all inputs, stamped or not |
| UnionFind.Forest.Find | websync/backup/device_registry.py:122-126 | Path halving ends at the root and leaves every class as it was |
| UnionFind.Forest.Union | websync/backup/device_registry.py:128-131 | Exactly the two classes are joined |
| UnionFind.RootIsFollowed | websync/backup/device_registry.py:122-126 | The root kept beside the links is where following them without halving ends |
| RegistryRun.GroupRecords | websync/backup/device_registry.py:133-141 | Each key lists exactly the records that carry it |
| RegistryRun.LinkRecords | websync/backup/device_registry.py:120-145 | After the host and id loops two records share a root exactly when a chain of shared hosts, ids or aliases connects them |
| RegistryRun.CountSlots | websync/backup/device_registry.py:149-152 | The count is the number of this PC's slots in the cluster, and counting changes no cluster |
| RegistryRun.JoinPrimaries | websync/backup/device_registry.py:154-161 | The guarded pass over the primaries, with its interleaved lookups, computes the specified partition |
| RegistryProofs.ClosureIsConnected | websync/backup/device_registry.py:133-145 | The closure labels two records alike exactly when a chain joins them |
| RegistryProofs.PrimaryPassSafe | websync/backup/device_registry.py:147-161 | For any records and any partition the primary pass only joins clusters and never puts two of this PC's slots together that were apart |
| RegistryProofs.PrimaryPassSettles | websync/backup/device_registry.py:147-161 | After the pass every primary is with the first one, or apart because two of this PC's slots would meet |
| RegistryProofs.BlockedIff | websync/backup/device_registry.py:151-160 | The count blocks a merge exactly when two of this PC's slots would be together |
| RegistryPrimary.PrimaryPassExact | websync/backup/device_registry.py:147-161 | The resulting partition exactly: a later primary joins the first if and only if it starts in a cluster already gathered or no two of this PC's slots would meet, and two records end together if and only if they started together or both were gathered |
| RegistryRecords.RecordsAre | websync/backup/device_registry.py:38-99 | The records in order: the primary reader's, one per extra reader with an address, one per shared entry with an id or a host, and what each says: id, hosts up to the limit, aliases, name, slot and flag |
| RegistryWrite.CollectAliases | websync/backup/device_registry.py:187-199 | The aliases are every other id and alias of the cluster, sorted, each once |
| RegistryWrite.BuildEntry | websync/backup/device_registry.py:170-208 | The loops over a cluster build the entry that describes it: least id, every other id and alias sorted, this PC's own hosts or else the shared file's in order of first appearance up to the limit, the first name on this PC or else the first, primary flag |
| RegistryFixpoint.EntryShape | websync/backup/device_registry.py:171-208 | An entry has a non-blank id of the cluster, sorted non-blank aliases without it, distinct non-blank hosts within the limit |
| RegistryFixpoint.EntryMentions | websync/backup/device_registry.py:171-208 | An entry's aliases and hosts are all its cluster's own |
| RegistryFixpoint.EntriesDistinct | websync/backup/device_registry.py:167-209 | No two exported entries share an id |
| RegistryFixpoint.EntryMembers | websync/backup/device_registry.py:163-209 | The export holds exactly one entry per cluster that has an id |
| RegistryExport.EntryHosts | websync/backup/device_registry.py:193-200 | When the cluster holds a slot of this PC with a host, the exported hosts are exactly those slots' hosts, first occurrences in order up to the limit; only otherwise are they the shared records' |
| RegistryExport.EntryDescribes | websync/backup/device_registry.py:170-208 | Id, aliases, hosts, name and flag of an entry in terms of the cluster's records |
| RegistryExport.DescribedOnce | websync/backup/device_registry.py:170-208 | Those terms fit one entry only |
| RegistryExport.ReconcileExplains | websync/backup/device_registry.py:163-242 | The export lists exactly one describing entry per cluster with an id, ordered by first host and then id |
| Ordering.LessMeans | websync/backup/device_registry.py:171 | The order of ids, aliases and hosts: by code point at the first difference, a proper prefix first |
| RegistryWrite.ConfigFile.AdoptEntry | websync/backup/device_registry.py:210-239 | One slot takes over the cluster's id and aliases; the flag says exactly whether it moved |
| RegistryWrite.ConfigFile.WriteBack | websync/backup/device_registry.py:210-239 | All slots of one cluster are written, no other slot is, and the flag tracks whether the configuration moved |
| RegistryWrite.ReconcileConfigDevices | websync/backup/device_registry.py:102-242 | The whole imperative operation equals the specification; the export lists exactly one describing entry per cluster with an id, by first host and id; `changed` holds exactly when the configuration moved |
| RegistryAdopt.DeviceAdopts | websync/backup/device_registry.py:224-239 | After a reconciliation every extra reader with an address carries the id of the exported entry that describes its cluster and that entry's aliases, its own list being left as written when it says the same already; a cluster without an id and a reader without an address are left alone |
| RegistryAdopt.PrimaryAdopts | websync/backup/device_registry.py:214-223 | The same for the primary reader |
| RegistryStable.AdoptRecords | websync/backup/device_registry.py:210-239 | After the write-back every slot carries its cluster's id and aliases, and nothing else of the record changed |
| RegistryStable.ClosureSameCluster | websync/backup/device_registry.py:133-145 | In a second run the closure groups the records exactly as the first run's clusters |
| RegistryStable.ClustersAgain | websync/backup/device_registry.py:147-161 | The second run's primary pass joins nothing |
| RegistryStable.EntryAgain | websync/backup/device_registry.py:169-209 | The second run gives every cluster the entry of the first |
| RegistryStable.ReconcileAgain | websync/backup/device_registry.py:116-242 | With a primary host and ids for all slots, reconciling again on the written configuration and the exported list gives the same list and the same configuration |
| IdentitySafety.ReconcileKeepsNames | websync/backup/device_registry.py:169-239 | After the write-back every reader of this PC is still known by every id and alias it had, at the same address |
| IdentitySafety.ReconcileNeverNeedsMore | websync/upload/device_ids.py:49-97 | Whatever the shared file holds, reconciling never turns a delivered article into a pending one |
| IdentitySafety.TargetsGood | websync/upload/device_ids.py:49-97 | Targets always have distinct addresses, and each looks up the key its deliveries are recorded under |
| Delivery.BuildTargetsWithKeys | websync/upload/device_ids.py:49-97 | The loop with its set of seen addresses returns the specified targets, which `RecordKeys.TargetsRight` describes |
| RecordKeys.TargetsRight | websync/upload/device_ids.py:49-97 | The targets are the readers with an address, one per address, first one winning, in order; each is recorded under its id, or under its address if it has none, and looked up under exactly id, aliases, address and, for the primary reader, the legacy host |
| RecordKeys.IdCarriesDelivery | websync/upload/device_ids.py:91 | What a run delivered to a reader with an id is owed to no target looked up under that id, in any configuration, for any later list and mode |
| RecordKeys.NewAddressOwesNothing | websync/upload/device_ids.py:72-91 | In particular a reader with an id that moves to another address is not sent again what was delivered to it |
| Delivery.CollectMissing | websync/upload/device_ids.py:237-250 | The list is the articles with a url that the target's keys do not show as delivered, in order |
| DeliveryRows.MissingInOrder | websync/upload/device_ids.py:237-250 | The missing articles are exactly those with a url not delivered yet, in the order given |
| Delivery.GroupArticlesByPendingTargets | websync/upload/device_ids.py:217-259 | The fingerprint dictionary yields the specified plan, in insertion order |
| Delivery.ResolvePendingUploadIps | websync/upload/device_ids.py:161-214 | Exactly the addresses, each once, at which some url is missing |
| DeliveryProofs.FingerprintsDecide | websync/upload/device_ids.py:253-258 | Targets with equal url fingerprints have equal missing lists, duplicates included |
| DeliveryProofs.PlanExact | websync/upload/device_ids.py:217-259 | A target at its own address is served by exactly the one parcel that is its missing list, when it misses any, and by none otherwise |
| DeliveryProofs.PlanComplete | websync/upload/device_ids.py:217-259 | Every pending target has a parcel with its missing list and its address |
| DeliveryRows.PlansInOrder | websync/upload/device_ids.py:253-259 | Addresses of a parcel come in the order of the targets, and parcels in the order of their first targets |
| DeliveryProofs.PlannedIffNeeded | websync/pipeline/sync_pipeline.py:155-168 | A url is in some parcel exactly when `needs_sync` lets it through |
| DeliveryProofs.PlannedAddresses | websync/upload/device_ids.py:161-259 | The addresses over all parcels are exactly those `resolve_pending_upload_ips` returns |
| Delivery.CollectMarkEntries | websync/pipeline/upload_results.py:21-55 | One entry per acknowledged address and article not yet recorded under its key |
| Delivery.SyncSite | websync/pipeline/sync_pipeline.py:190-257 | Plan, upload, record and count: the history afterwards is the run of the first parcels answered, the verdict follows the merged answers, and the count is the number of entries recorded |
| DeliveryRuns.RunRecordsAcknowledged | websync/pipeline/sync_pipeline.py:207-229 | A run adds exactly the acknowledged pairs of url and key and removes none |
| DeliveryRows.RunWritesRow | websync/pipeline/sync_pipeline.py:207-229 | A new row carries the title and site of the last article with its url in the first parcel that delivered it, the run's site where the article names none, and that parcel's time; older rows stay |
| DeliveryRows.CountIsNewRows | websync/pipeline/sync_pipeline.py:221-229 | The count reported is the number of rows added, when no parcel repeats a url and no two of its targets share a key |
| DeliveryRuns.StillOwed | websync/pipeline/sync_pipeline.py:190-229 | After a run a url counts as delivered to a target exactly when it did before or a target recorded under one of its keys acknowledged it |
| DeliveryRuns.ReplanIsFailedTargets | websync/pipeline/selected_sync.py:233-274 | In per-device mode with disjoint keys planning again, after a complete or cancelled run, gives the plan the failed targets alone would have had |
| DeliveryRuns.AckedOwedNothing | websync/pipeline/sync_pipeline.py:190-229 | A target that acknowledged is owed nothing more, in either mode |
| DeliveryRuns.NothingLeftWhenAllSucceeded | websync/pipeline/selected_sync.py:233-274 | When every target that missed something acknowledged, planning again gives nothing, in either mode |
| DeliveryRuns.NothingLeftIff | websync/pipeline/selected_sync.py:233-274 | In per-device mode with disjoint keys planning again gives nothing exactly then |
| DeliveryRuns.GlobalModeOneAckSettles | websync/upload/device_ids.py:243-250 | In global mode one acknowledgement settles the articles for every target, so failed targets are not retried |
| DeliveryRuns.SuccessIffAllAcknowledged | websync/pipeline/upload_results.py:7-18 | A complete run counts as a success exactly when every pending target acknowledged its parcel |
| DeliveryRows.FailureIffNoneAcknowledged | websync/pipeline/sync_pipeline.py:245-257 | A complete run counts as failed exactly when no pending target acknowledged anything |
| Digest.CollectMarkEntriesFromTriples | websync/pipeline/upload_results.py:58-87 | The loop over triples records what `collect_mark_entries` would for articles that name their site |
| Digest.DigestMissesTheSame | websync/pipeline/sync_pipeline.py:265-284 | The digest sends every target exactly what the sources one by one would have sent it, in order |
| DeliveryRows.DigestLists | websync/pipeline/sync_pipeline.py:281-287 | The digest lists every article of every source, source by source, under its own site name or its source's |
| Digest.SyncDigest | websync/pipeline/sync_pipeline.py:258-364 | The digest plans, records and counts its flattened list as a site its own; nothing to send counts as a success |
| WatchQueue.WatchRetryQueue.constructor | websync/watch/retry.py:64-83 | A new queue holds one job per saved record, none deferred |
| WatchQueue.WatchRetryQueue.Add | websync/watch/retry.py:85-112 | New path, duplicate event, deferred event, stopped queue and failing save, as one atomic section |
| WatchQueue.WatchRetryQueue.Pick | websync/watch/retry.py:174-189 | The job picked is due and none that waits is due earlier; otherwise nothing is due |
| WatchQueue.WatchRetryQueue.SavePlan | websync/watch/retry.py:143-150 | The plan carries over what was acknowledged for this content and these targets, and is saved before anything is sent |
| WatchQueue.WatchRetryQueue.Attempt | websync/watch/retry.py:152-155 | Only owed targets are attempted; with none owed there is no upload |
| WatchQueue.WatchRetryQueue.Recheck | websync/watch/retry.py:156-166 | Changed content forgets the record; unchanged content gets the current targets |
| WatchQueue.WatchRetryQueue.SetCompleted | websync/watch/retry.py:167 | The acknowledged targets are entered, as a step of its own |
| WatchQueue.WatchRetryQueue.SaveResult | websync/watch/retry.py:168-172 | The pass is complete exactly when the save succeeded and all of at least one current target acknowledged |
| WatchQueue.WatchRetryQueue.Conclude | websync/watch/retry.py:196-211 | A job is retired only when complete, undisturbed and durably removed; otherwise its next due time is set |
| WatchProofs.StepKeeps | websync/watch/retry.py:85-211 | Every step of observers, worker, stop and restart keeps the queue's invariant |
| WatchProofs.LeavesOnlyAcknowledged | websync/watch/retry.py:196-205 | A path leaves a running queue only after a saved removal, with no event since the pass began and every target of its last look acknowledged for unchanged content |
| WatchProofs.NeverDropsWork | websync/watch/retry.py:85-211 | Over whole runs: before a path is let go, a pass over it had begun after its last accepted event and ended fully acknowledged |
| WatchProofs.SavedLeavesOnlyComplete | websync/watch/retry.py:196-205 | The same for saved records, over runs with any number of restarts: a record is removed only at the end of a complete pass that began after the last accepted event |
| WatchProofs.EventKeepsJob | websync/watch/retry.py:85-112 | An accepted event keeps its path queued and makes the pass under way unable to retire it |
| WatchEvents.FreshEventWakes | websync/watch/retry.py:85-112 | A fresh event leaves its path queued, not put off, with another pass owed; a new or put-off job is due at once, any other keeps its delay and record |
| WatchEvents.PutOffIff | websync/watch/retry.py:93-107 | Over every run a queued path is put off exactly when `retain` brought it in and neither a fresh event nor a restart has woken it since |
| WatchEvents.RetainKeeps | websync/watch/retry.py:97-118 | `retain` saves the record it finds and leaves a queued job as it was but for the pass now owed |
| WatchEvents.EventIsLocal | websync/watch/retry.py:85-112 | An event, fresh or handed over, moves no other path, no finished record and not the worker |
| WatchEvents.PlanCarriesOver | websync/watch/retry.py:143-151 | A plan carries over exactly the acknowledgements recorded for the same content and targets still configured |
| WatchEvents.PassRecordsExactly | websync/watch/retry.py:160-170 | Over every run a pass over unchanged content records exactly those of the configured targets that its record listed or that acknowledged this upload |
| WatchEvents.AckNeedsUpload | websync/watch/retry.py:152-160 | Over every run a pass that owes nothing acknowledges nothing |
| WatchEvents.CompleteIff | websync/watch/retry.py:168-172 | A pass is complete exactly when its result could be saved and lists every one of at least one target as acknowledged |
| WatchEvents.CompleteIsSaved | websync/watch/retry.py:160-205 | Over every run a pass that counts as complete has its record on disk as it stands, until it ends |
| WatchEvents.ChangedIsSentAgain | websync/watch/retry.py:156-159 | Over every run: after a source changed during its upload the next plan owes every target, even if the content has changed back |
| WatchProofs.NoRepeatedDelivery | websync/watch/retry.py:146-155 | In every run, restarts included, no upload goes to a target that the job's record or the saved record lists as completed for this content and folder, and the record is saved first |
| WatchProofs.SkippedWasAcknowledged | websync/watch/retry.py:146-155 | In every run, restarts included, a skipped target had acknowledged exactly this content |
| WatchRestarts.DuplicateEventUploadsNothing | websync/watch/retry.py:103-172 | Over runs with any events, handovers, restarts, failed passes and other passes in between: while a finished file and its targets stay as they were and every restart finds its record saved, no pass over it owes anything, its record stays the same, and a saved result is complete |
| WatchRestarts.DuplicatePassFinishes | websync/watch/retry.py:103-172 | One such pass from beginning to end finishes with the same record |
| WatchRestarts.ForgottenIff | websync/watch/retry.py:75-83 | Of all steps only a restart that finds no saved record forgets a finished file, and it always does |
| WatchRestarts.RememberedIff | websync/watch/retry.py:75-112 | Over every run a finished file that stays as it was is remembered throughout if and only if every restart finds its record saved |
| WatchRestarts.ForgottenOwesAll | websync/watch/retry.py:140-151 | The first plan for a file after a restart that forgot it owes every target, whoever acknowledged it before |
| WatchRestarts.NoRepeatIff | websync/watch/retry.py:75-151 | Over every run no pass over a finished file that stays as it was asks for an upload, if and only if no pass over it follows a restart that finds its record unsaved |
| WatchRestarts.RestartSendsAgain | websync/watch/retry.py:196-205 | A run that finishes a file, restarts, and plans to send it to the same reader again at the next event |
| WatchProofs.RestartFindsSaved | websync/watch/retry.py:79-83 | Over every run a saved path outlives any number of restarts until a complete pass over it ends: each restart queues exactly the saved paths, with the records last saved |
| WatchProofs.SavedSubsetIffNeverTorn | websync/watch/retry.py:97-98 | Saved records list only configured targets as completed exactly as long as no `retain` falls between the two assignments of a record that lost a target |
| WatchProofs.TornSaveHappens | websync/watch/retry.py:166-167 | A run in which such a record is saved |
| WatchDelays.BackoffBounded | websync/watch/retry.py:208-211 | The delay after n failures grows with n and lies between base and cap |
| WatchDelays.BackoffDoubles | websync/watch/retry.py:208-211 | The delay starts at the base and doubles with every failure up to the cap |
| WatchDelays.DelayIs | websync/watch/retry.py:206-211 | Over every run the k-th incomplete pass since a path was queued sets the k-th delay of that series, and the thirtieth's from then on |
| WatchDelays.DelaySet | websync/watch/retry.py:196-211 | What each end of a pass sets: the backoff of one more failure, the base delay when the removal could not be saved, or due at once when an event came in between |
| WatchDelays.DelaysNeverFall | websync/watch/retry.py:196-211 | Over every run, while a path stays queued and there is no restart, the delays its incomplete passes set never fall and stay between base and cap |
| WatchDelays.DelayFallsIff | websync/watch/retry.py:198-207 | While a path stays queued, a later pass sets a shorter delay than an earlier one, whatever pass set that, exactly when it was complete and either its removal could not be saved and the base is shorter, or an event came in between |
| WatchDelays.FallsAfterFailureIff | websync/watch/retry.py:198-211 | The same after an incomplete pass, for any cap |
| WatchDelays.RestartResetsDelay | websync/watch/retry.py:79-83 | A restart resets the failures: the first incomplete pass after it sets the base delay again, at most the cap |
| WatchDelays.DelayCanFall | websync/watch/retry.py:200-203 | A run in which the delay falls from 4 to 2: two failed passes, then a complete one whose removal cannot be saved |
| Debouncer.CalibreWatcher.ScheduleDebounced | websync/watch/calibre.py:41-51 | An event is pending from now with its retry count reset, unless a stop was requested |
| Debouncer.CalibreWatcher.BeginFlush | websync/watch/calibre.py:75-83 | Exactly the paths quiet for long enough move from pending to checking |
| Debouncer.CalibreWatcher.SettleFlush | websync/watch/calibre.py:91-111 | Unstable paths go round again up to the limit, stable ones are handed on, failed handoffs stay pending |
| DebounceRetries.SettleIs | websync/watch/calibre.py:91-111 | What this does to each path: unstable ones wait again and have failed once more, unless too often; handed ones are forgotten, or wait again if that failed; others stay |
| DebounceRetries.GivesUpIff | websync/watch/calibre.py:93-99 | Over every run an unstable file waits for another look exactly until it has been found so sixty times since its last event; the next time it is given up |
| DebounceRetries.TakenOnce | websync/watch/calibre.py:75-83 | Over every run a flush takes exactly the paths quiet for long enough, and none is pending again before a new event or before the flush has looked at it |
| DebounceRetries.TakenIsMarked | websync/watch/calibre.py:83-122 | It stays marked as being checked until a flush that holds it ends or `stop` captures everything |
| Debouncer.CalibreWatcher.EndFlush | websync/watch/calibre.py:117-122 | The checking marks are removed unless a stop was requested |
| Debouncer.CalibreWatcher.Capture | websync/watch/calibre.py:169-179 | Everything pending or being checked is handed over and forgotten |
| Debouncer.StepKeeps | websync/watch/calibre.py:41-122 | Every step, whatever flushes share their paths: until a stop is requested every undelivered event is pending or in the hands of a flush that has yet to deal with it |
| Debouncer.StopCompleteIff | websync/watch/calibre.py:75-185 | In every run, `stop` hands over every path with an undelivered event whenever it comes, if and only if no flush takes the mark off a path whose last event is neither delivered nor pending |
| Debouncer.UncoversIffShared | websync/watch/calibre.py:117-122 | A flush does that exactly when it shares the path with another flush that took the last event and has yet to deal with it |
| Debouncer.StopHandsOverEverythingOwed | websync/watch/calibre.py:169-185 | In particular `stop` passes every such path to the durable callback as long as no two flushes are busy with one path |
| Debouncer.TwoFlushesLoseAnEvent | websync/watch/calibre.py:75-122 | A run with two flushes busy with one path in which `stop` misses its event |
| PipelineLocks.StepKeeps | websync/pipeline/service.py:258-300 | Every step of every thread of every process, and the death of any process, keeps the lock invariant |
| PipelineLocks.MutualExclusion | websync/gui/settings_tab/watch.py:115-142 | At most one job or Watch upload is in its critical section over all processes, in any state that keeps the invariant |
| PipelineLocks.OneAtATime | websync/pipeline/service.py:258-300 | The same in every state of every run that starts with no lock taken |
| PipelineLocks.FileHeldByThreadOwner | websync/core/process_lock.py:38-42 | The file lock is held only by the owner of the thread lock, so `acquire` never returns early as already held |
| PipelineLocks.OnlyAcceptanceClearsCancel | websync/pipeline/service.py:285-293 | A cancellation is cleared only by accepting a job, while nothing else is in a critical section and no shutdown was prepared |
| PipelineLocks.JobCancelledIff | websync/pipeline/service.py:285-293 | Over every run an accepted job starts with a clear flag, whatever was cancelled before, and while it runs the flag is set exactly when a cancellation or shutdown was asked for since |
| PipelineLocks.ActiveIff | websync/pipeline/service.py:290-300 | Over every run the active flag of a process is up exactly while one of its threads has an accepted job under way |
| PipelineLocks.RejectionChangesNoFlag | websync/pipeline/service.py:258-290 | A request turned down at any check changes no flag of any process, in or out |
| PipelineLocks.ShutdownIsFinal | websync/pipeline/service.py:126-130 | After a prepared shutdown cancellation stays requested and no step enters a critical section |
| PipelineLocks.NothingStartsAfterShutdown | websync/pipeline/service.py:126-130 | The same over every run, for as long as the process lives |
| PipelineLocks.PreparedShutdownHolds | websync/pipeline/service.py:126-130 | From the step that prepares the shutdown on, as long as the process lives, cancellation stays requested and nothing new starts |
| PipelineLocks.InactiveMeansNoJob | websync/pipeline/service.py:115-124 | When the active flag is down no job is in its critical section, so `shutdown_pipeline` reports the truth |
| PipelineLocks.JobRejectedAtThreadIff | websync/pipeline/service.py:258-290 | A job is turned down at the thread lock exactly when another thread of its process owns it |
| PipelineLocks.JobRejectedAtFileIff | websync/core/process_lock.py:38-79 | A job is turned down at the file exactly when some thread anywhere is at work under the file lock or probes it |
| PipelineLocks.JobTurnedDownIff | websync/pipeline/service.py:258-300 | Both, and the check for a shutdown, in every state of every run |
| PipelineLocks.NeedlessRejectionIff | websync/core/process_lock.py:114-134 | With nothing at work under the file lock anywhere, a job is turned down at the file exactly when a probe has it |
| PipelineLocks.ProbeCanRejectAJob | websync/core/process_lock.py:114-134 | A run in which the probe holds the file for a moment and a job is turned down although nothing runs |
| ConfigStore.ConfigManager.SaveConfig | websync/config/manager.py:369-387 | A checked save replaces the file only at the expected revision and raises it; otherwise the file is handed back unchanged |
| ConfigStore.ConfigManager.UpdateConfig | websync/config/manager.py:389-400 | Read, change and write in one step, one revision up |
| ConfigStore.UnionIdsLoop | websync/gui/app_core/helpers.py:38-45 | The loop returns every non-blank id of the groups except the excluded one, each once, and is the specified list |
| ConfigEdits.UnionInOrder | websync/gui/app_core/helpers.py:38-45 | That list is in order of first appearance |
| ConfigEdits.MergeFieldByField | websync/gui/app_core/helpers.py:285-331 | One conflict, setting by setting: a top-level key the form holds has the form's value, every other the disk's; Watch settings are the form's but for the background writers' keys; shared-folder settings are the disk's but for those the form edits; the revision is the disk's |
| ConfigEdits.MergedDeviceIs | websync/gui/app_core/helpers.py:48-71 | A merged device keeps the form's address and name; it has the matched device's id, or its own, and as aliases the disk's, the form's and the form's id, in this order, each once |
| ConfigEdits.MatchIsFirst | websync/gui/app_core/helpers.py:58-64 | The matched device is the first one on disk that goes by the form's id |
| ConfigStore.SafeSaveConfig | websync/gui/app_core/helpers.py:165-222 | The first attempt whose revision matches saves the form merged with every version met before; after four conflicts nothing is saved |
| ConfigStore.MergedDeviceKeepsNames | websync/gui/app_core/helpers.py:48-71 | A merged device goes by every name it had in the form and in its match on disk |
| ConfigStore.MergedDeviceNames | websync/gui/app_core/helpers.py:48-71 | Exactly the names of the form's device and of the first device on disk that goes by the form's id |
| ConfigStore.MergedNames | websync/gui/app_core/helpers.py:48-71 | The names known after a merge are exactly those the form knows and those of the disk's matched devices |
| ConfigStore.NoDiskNameLostIff | websync/gui/app_core/helpers.py:48-71 | No name of the disk is lost exactly when every name there is known to the form or belongs to a matched device |
| ConfigStore.DiskNamesCanBeLost | websync/gui/app_core/helpers.py:58-64 | Two merges that lose names: the form knows the disk's id as an alias only, and another writer added a device |
| ConfigStore.MergeLosesNoDeletion | websync/gui/app_core/helpers.py:311-331 | A conflict merge loses no site and no deletion of either side, unless superseded, whatever stamps the sites carry |
| ConfigStore.MergeJoinsSites | websync/gui/app_core/helpers.py:311-331 | The conflict merge is the join of both sides, per url, whatever stamps the sites carry |
| ConfigRuns.MergeClientOk | websync/gui/app_core/helpers.py:275-332 | A conflict merge undoes nothing the disk's version holds for others (Watch queue, push stamps, primary names, deletions), loses no name, site or deletion the form had and no site of the disk, and leaves every setting the form edited at the form's value |
| ConfigRuns.HeldEdits | websync/gui/app_core/helpers.py:285-331 | After any number of conflicts, setting by setting: the form's value, or for what the form lacks the first version's that has it; the last version's for what background writers own; the same readers under the same names and addresses; the primary reader known by exactly the names of all sides |
| ConfigRuns.HeldSite | websync/gui/app_core/helpers.py:311-325 | After any number of conflicts a site of the form that no deletion and no version met beats still has the form's settings |
| ConfigRuns.ConflictSettles | websync/gui/app_core/helpers.py:311-331 | One conflict, url by url: which site wins, the form's list counting as the newer one, and which deletion is left |
| ConfigRuns.HeldNames | websync/gui/app_core/helpers.py:48-71 | After any number of conflicts the readers' names are exactly those the form opened with and those that entered by a match with a version it met |
| ConfigRuns.AcceptedSaveReplacesItsBasis | websync/config/manager.py:369-443 | Every write raises the revision by one, and an accepted save replaces exactly the version its form was last based on |
| ConfigRuns.GuiSaveLosesNothing | websync/gui/app_core/helpers.py:165-332 | A successful GUI save, after any number of conflicts, keeps the replaced version's Watch queue fields, push stamps, primary names and deletions; every setting the form edited has the form's value, setting by setting; it loses no name, site or deletion of the form; its readers' names are exactly those of the form and of its matches |
| ConfigRuns.SavesNeverLoseUpdates | websync/gui/app_core/helpers.py:165-332 | The compare-and-swap and the GUI guarantee over every interleaving of updates and forms, from any configuration |
| Installer.ReplaceWithRetry | websync/core/update/installer.py:121-132 | The outcome is that of the first of the fifty attempts that meets no permission error: moved, or any other error raised at once; if all meet one, still locked |
| Installer.Folder.ApplyStagedUpdate | websync/core/update/installer.py:309-377 | Each outcome exactly when it should be: refused unless recovered, present and matching; not changed when the first move fails; installed when both moves and the check succeed; otherwise rolled back or rollback failed as the move back does; and where all three files are then |
| Installer.GoodExecutableKeptIff | websync/core/update/installer.py:309-377 | Over any number of updates, failures and crashes the last good executable stays at the target or in a backup if and only if no run moves an unverified target over its only backup |
| Installer.VerifiedStartIsSafe | websync/core/update/installer.py:351-356 | Over every run an update that starts from a verified executable overwrites no only copy for as long as it is under way |
| Installer.VersionedBackupsAreSafe | websync/core/update/service.py:150-155 | With backups named after the running version, and versions naming one file each, the good executable survives every run |
| Installer.FixedNameCanLose | websync/core/update/installer.py:271-273 | A run with one backup name in which it is lost: a crash before the check, then another update |
| Installer.NextRunRecovers | websync/core/update/installer.py:332-334 | In every run a crash between the two moves is undone by the next run, which puts back exactly what was installed before the first move |
| Installer.RollbackReinstalls | websync/core/update/installer.py:369-377 | In every run a rollback that succeeds reinstalls exactly what the first move of that update took away and leaves the other backups |
| Installer.ExchangeEnds | websync/core/update/installer.py:350-377 | In every run an update that has made its first move ends only with a passed check, after an attempt to roll back, or with a crash |
| Installer.CheckInstalls | websync/core/update/installer.py:344-368 | In every run a passed check leaves installed exactly what was staged at the first move |
| Crontab.StripManagedCronLines | websync/scheduler/manager.py:194-218 | The flag-driven loop computes the specified lines |
| Crontab.StripKeepsUserLines | websync/scheduler/manager.py:194-218 | Exactly the lines outside blocks that are neither markers nor the command after a legacy marker are kept, unclosed blocks included |
| Crontab.MergeCrontab | websync/scheduler/manager.py:220-229 | The written text is the stripped lines plus the new block |
| Crontab.StripMerged | websync/scheduler/manager.py:194-229 | Stripping a merged table gives what stripping the original gives, whatever the command |
| Crontab.SplitEnded | websync/scheduler/manager.py:222-229 | Splitting text printed line by line gives the lines back |
| Crontab.RegisterTwice | websync/scheduler/manager.py:241-255 | Registering twice is registering once, as text |
| Crontab.UnregisterGivesBack | websync/scheduler/manager.py:257-286 | Unregistering after registering leaves exactly the user's lines; when there are none, one blank line |
| Crontab.ForeignTableComesBack | websync/scheduler/manager.py:241-286 | A table without managed lines comes back line for line |
| CrontabText.WrittenTable | websync/scheduler/manager.py:220-229 | The written text exactly: the user's lines, then the block around the command if there is one, each ended by a newline; with nothing to write, one blank line |
| CrontabText.SplitMakes | websync/scheduler/manager.py:222 | A text is made of the lines it is split into and their endings |
| CrontabText.MadeOnce | websync/scheduler/manager.py:222 | And of no other lines |
| CrontabText.StrippedIs | websync/scheduler/manager.py:200-209 | What is compared with the markers is the line without the white space at both ends |
| CrontabText.ContainsIff | websync/scheduler/manager.py:215 | A line after a legacy marker is recognised by the flag standing anywhere in it |

## Left out

- SQLite, JSON encoding, fsync, cloud folders and OS locks as such: tables are maps, files are values, the lock file is an owner.
- HTTP, the device client, scrapers, translation, summaries, EPUB building, the GUI, dashboard and OPDS servers: the upload is an oracle that answers for the addresses it is given.
- `remap_legacy_star_to_device` (websync/db/history.py:287-324): it never looks at `deleted_posts`, so it lies outside the live-or-deleted invariant by design.
- Titles and site names in the convergence theorems, which speak of status and time; `HistoryRows` and `ReplicaContents` say which names one import and one merge keep.
- The order in which a shared folder's snapshots are read for the site list; the history theorems hold for every order, the site theorems for one merge at a time.
- The concurrent protocols on objects with real threads: pulls and pushes of `BackupSyncService` and the lock steps of `SyncService` are functions on the shared state, because what matters is their interleaving; the update in place of their result dictionaries is not captured.
- `_publish_device_registry` and `_adopt_shared_device_ids` beyond the reconciliation they call.
- ConvergenceProofs.Converges: asks every clock to be past what its PC holds for the key and at most 128 snapshots in the folder, because the program breaks the property otherwise (see above).
- RegistryStable.ReconcileAgain: asks for a primary host and for ids on all slots, as `ensure_device_ids_in_config` provides; without ids a cluster is not exported and the records that tied it together are forgotten.
- SiteProofs.PullIsJoin: speaks of when a url was last updated or deleted; `SiteContents.PullSettles` says whose settings are kept.
- DeliveryRuns.ReplanIsFailedTargets: asks that no target's deliveries are recorded under another target's keys; `DeliveryRuns.StillOwed` says what happens for any keys.
- DeliveryProofs.PlanExact: asks for targets at distinct addresses, which `IdentitySafety.TargetsGood` proves of every target list the program builds.
- RecordKeys.NewAddressOwesNothing: speaks of readers with an id, which `ensure_device_ids_in_config` gives every reader; deliveries to a reader without one are recorded under its address and stay there when it moves.
- DeliveryRows.CountIsNewRows: asks for parcels without repeated urls and targets with different keys; the program counts entries, and repeated ones count twice.
- Debouncer.StopHandsOverEverythingOwed: asks that no two flushes are busy with one path; `Debouncer.StopCompleteIff` asks nothing. Restarting a stopped watcher object is not modelled.
- ConfigRuns.GuiSaveLosesNothing: a reader on disk that no reader of the form is matched with is not in the saved list, and its names go with it, as in the program; readers the user removed are meant to go.
- `save_config` without `expected_revision`: it takes its revision from the caller's data, so nothing follows for it.
- `get_portable_cfg`'s fallbacks for a shared-folder configuration that was never used: the model has one that is in use, whose stored markers count.
- PipelineLocks.ShutdownIsFinal: takes the Watch upload's last look at the shutdown flag as the moment it enters its critical section; the looks it takes later during its stability checks are not modelled.
- Installer.Folder.ApplyStagedUpdate: the removal of old backups after a passed check is modelled in the runs with crashes, not in this method; path validation beyond the presence of the files is left out.
- `str.splitlines` is modelled with all of Python's line breaks; other Unicode white space in `str.strip` is not.
- File stability sampling and fingerprinting read the file several times; a source that changes and changes back between two readings is not seen.
- The selected-articles loop has the shape of `Delivery.SyncSite` and is not written out again; building the digest's EPUB by source is left out.
