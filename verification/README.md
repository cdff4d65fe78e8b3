# Verified models of Catapult's protocols and transformations

MargSahayak vendors Catapult, the tooling of Chromium. This project models the
parts of it that carry state or a transformation across several functions, and
proves what they are for. `dafny verify dfyconfig.toml` (Dafny 4.11) verifies all
of it.

- **Pseudo lock and guarded download** (`pseudo_lock.dfy`). Processes, inodes,
  flock owners and directory entries as state, and each system call as a step
  that any process may take at any time, or die before. Mutual exclusion, no
  lost lock, and at most one download, over all interleavings.
- **Transactional config update** (`cloud_storage.dfy`, `uploader.dfy`,
  `base_config.dfy`, `config_runs.dfy`, `rollback_limits.dfy`). Uploads, the config write and the
  rollback in place, with an oracle that lets any outside call fail. Atomicity
  of one update, and what the config on disk names over whole runs.
- **Command line flags** (`flags.dfy`, `written_flags.dfy`, `flag_changer.dfy`). The
  quote and escape scanner against its printer and against lines written by hand,
  and the stack of states on top of the file.
- **Manifest listing** (`manifest.dfy`, `manifest_parser.dfy`). A loop with a
  stack of references into the tree that it builds, first on numbered
  dictionaries and then on linked ones.
- **Incremental push** (`push.dfy`). Directory synchronisation with a cache of
  checksums; the cached form refines a push without any.
- **Shell snippets and output lines** (`shell_snippet.dfy`,
  `output_lines.dfy`). Against a small shell, and against `splitlines`.
- **Merged dependencies** (`local_paths.dfy`, `lookup_order.dfy`,
  `dependency_manager.dfy`). De-duplication that changes no lookup, and exactly
  when later configs keep what earlier ones find.
- **USB trees** (`usb_tree.dfy`, `usb_nodes.dfy`). The forest as a value, and the
  loop that links it up.
- **Retries** (`timeout_retry.dfy`), **reading and trimming** (`read_file.dfy`) and
  **tick counts** (`tick_count.dfy`).

Outside operations are oracles: `Env.fate` in `cloud_storage.dfy`, the script of
`ReadFiles.File`, the answers and the watchdog of `TimeoutRetry.Env`, the events
of `PseudoLock`. A statement about all of them is one about every pattern of
failures. Orders that the source leaves to a set or a dictionary are arbitrary
choices.

Where the code and its documentation differ, or one says more, the models follow
the code:

- `ExecuteUpdateJobs` returns True, without writing anything, for a config that is
  dirty and has no uploads pending; its documentation says that True means a
  successful upload.
- `AddCloudStorageDependencyUpdateJob` documents ValueError for a missing platform
  only. It also raises one for a missing bucket, and by then has changed the
  config in memory; `ConfigRuns.MixedBucketsBreak` shows what follows from that.
- `DependencyManager` documents the precedence of earlier configs for one platform
  only, and says nothing of the default one. A later entry for the platform itself still hides
  an earlier one for the default platform; `DependencyManagers.EarlierConfigWins`
  tells exactly when that changes a path.
- A forced `ExecuteUpdateJobs` is to restore cloud storage if it fails. With two jobs
  for one remote path it does not: `RollbackLimits.UndoneExactly` tells exactly when
  it does.
- `_QuoteFlag` is documented to return None for invalid flags and never does.

## Model

| member | source | states |
|---|---|---|
| `PseudoLock.MutualExclusion` | MargSahayak/platform-tools/systrace/catapult/common/py_utils/py_utils/cloud_storage.py:243-329 | In every interleaving of any number of processes on any paths, with crashes and time-outs anywhere, two processes that own the lock of one path are the same process, and the inode it locked is the one linked at the path. |
| `PseudoLock.UnguardedRunBreaks` | MargSahayak/platform-tools/systrace/catapult/common/py_utils/py_utils/cloud_storage.py:248-261 | Without the global guard the run told in the comment is possible, whatever the files: processes 2 and 3 are both inside the locked body of one path. |
| `PseudoLock.WaiterCanAcquire` | MargSahayak/platform-tools/systrace/catapult/common/py_utils/py_utils/cloud_storage.py:264-329 | From every reachable state a waiting process can still acquire the lock, without anybody crashing and without new calls: no lock is ever lost, and the non-blocking attempts deadlock nobody. |
| `PseudoLock.GuardComesFree` | MargSahayak/platform-tools/systrace/catapult/common/py_utils/py_utils/cloud_storage.py:287-302 | From every reachable state the owner of the guard alone can go on until the guard is free. |
| `PseudoLock.CallEnds` | MargSahayak/platform-tools/systrace/catapult/common/py_utils/py_utils/cloud_storage.py:269-273 | From every reachable state in which nobody else has the guard, the owner of a lock alone can go on to the end of its call, and the guard is free then; from the start of the body it returns whether the file that it found was missing or wrong. |
| `PseudoLock.ReturnedMatches` | MargSahayak/platform-tools/systrace/catapult/common/py_utils/py_utils/cloud_storage.py:383-399 | When a GetIfHashChanged has returned, the file has the hash asked for, and it has it after everything that happens later, further calls included, if the remote object for the path has that hash. |
| `PseudoLock.ChangedMeans` | MargSahayak/platform-tools/systrace/catapult/common/py_utils/py_utils/cloud_storage.py:373-399 | If the remote object for the path has the hash asked for, a call that has returned True comes after exactly one completed download, whose content is then at the path; for a file that had the hash at the start no call ever returns True. |
| `PseudoLock.AnswerIsReplaced` | MargSahayak/platform-tools/systrace/catapult/common/py_utils/py_utils/cloud_storage.py:337-399 | Over every run a call returns True exactly if it is itself the one that replaced the file, and False exactly if it did not; within one call a server error leads to at most one more attempt. |
| `PseudoLock.WaiterCanReturn` | MargSahayak/platform-tools/systrace/catapult/common/py_utils/py_utils/cloud_storage.py:264-329 | From every reachable state a waiting call can still return, without crashes and new calls, and the wanted file is in place then. |
| `PseudoLock.AtMostOneDownload` | MargSahayak/platform-tools/systrace/catapult/common/py_utils/py_utils/cloud_storage.py:337-399 | If the remote object for the path has the hash asked for, at most one completed download replaces the file over a whole run, none if it had the hash at the start; until then the file, or its absence, is as it was at the start. |
| `PseudoLock.FailuresHappen` | MargSahayak/platform-tools/systrace/catapult/common/py_utils/py_utils/cloud_storage.py:275-318 | The steps include every failure: any process may die anywhere, wait on or give up waiting, fail to open the lock file, meet a server error or another one while downloading, time out while releasing, and fail to remove the lock file. |
| `PseudoLock.RunKeeps` | MargSahayak/platform-tools/systrace/catapult/common/py_utils/py_utils/cloud_storage.py:243-329 | The lock invariants hold after every run from a state in which they hold. |
| `PseudoLock.RunKeepsFile` | MargSahayak/platform-tools/systrace/catapult/common/py_utils/py_utils/cloud_storage.py:337-399 | So do the file invariants of each path whose remote object has the hash asked for, and its file, once right, stays right. |
| `PseudoLock.InvKept` | MargSahayak/platform-tools/systrace/catapult/common/py_utils/py_utils/cloud_storage.py:275-329 | Each system call of any process keeps the invariants: one owner of the guard, and each lock owner's inode linked at its path. |
| `PseudoLock.OtherLockKept` | MargSahayak/platform-tools/systrace/catapult/common/py_utils/py_utils/cloud_storage.py:305-329 | A step of one process, the removal of a lock file included, leaves every other process's locked inode linked at its path. |
| `PseudoLock.OwnersKept` | MargSahayak/platform-tools/systrace/catapult/common/py_utils/py_utils/lock.py:46-61 | An inode has one flock owner, a process that is at a point where it owns it. |
| `PseudoLock.FileKept` | MargSahayak/platform-tools/systrace/catapult/common/py_utils/py_utils/cloud_storage.py:337-355 | Each step keeps what is known of the files: a downloader has found the file wrong, and a finished call has left it right. |
| `PseudoLock.FileAtKept` | MargSahayak/platform-tools/systrace/catapult/common/py_utils/py_utils/cloud_storage.py:347-355 | A completed download uses up the only one that is allowed and brings the remote object; a failed one changes nothing at the path. |
| `PseudoLock.AttemptAcquires` | MargSahayak/platform-tools/systrace/catapult/common/py_utils/py_utils/cloud_storage.py:275-296 | An undisturbed attempt that finds no owner ends with the guard released and the flock held on the linked lock file. |
| `PseudoLock.ReleaseUpToUnlink` | MargSahayak/platform-tools/systrace/catapult/common/py_utils/py_utils/cloud_storage.py:305-318 | An undisturbed release, with the global guard in force or not, goes through guard, flock and descriptor in that order before the lock file is removed. |
| `Uploaders.CloudStorageUploader.Upload` | MargSahayak/platform-tools/systrace/catapult/dependency_manager/dependency_manager/uploader.py:35-76 | Cloud, fields and exception after Upload, for any pattern of failing calls: refused on a conflict, backed up by force, inserted. |
| `Uploaders.CloudStorageUploader.Rollback` | MargSahayak/platform-tools/systrace/catapult/dependency_manager/dependency_manager/uploader.py:78-100 | Cloud, fields and result after Rollback: the backup copied back, or the upload deleted, or nothing done. |
| `Uploaders.UploadUndoable` | MargSahayak/platform-tools/systrace/catapult/dependency_manager/dependency_manager/uploader.py:35-76 | After any Upload the flags tell how to get back what the remote path had; only it and a backup that was taken are written; success puts the file there; a conflict is reported exactly if something was found and force is off. |
| `Uploaders.RollbackUndoes` | MargSahayak/platform-tools/systrace/catapult/dependency_manager/dependency_manager/uploader.py:78-100 | A rollback that succeeds gives the remote path its earlier content or absence, clears the flags, and writes nowhere else. |
| `Uploaders.UploadAllUndoable` | MargSahayak/platform-tools/systrace/catapult/dependency_manager/dependency_manager/base_config.py:277-279 | Wherever a batch of uploads in turn stops, every one can be undone, and backups were taken only by force of what was there; if the uploads are apart from one another, all files are in place when it goes through. |
| `Uploaders.RollbackAllRestores` | MargSahayak/platform-tools/systrace/catapult/dependency_manager/dependency_manager/base_config.py:282-288 | Rolling back in reverse order, if every call succeeds, restores every remote path of the batch and writes nothing else. |
| `Uploaders.UploadEach` | MargSahayak/platform-tools/systrace/catapult/dependency_manager/dependency_manager/base_config.py:278-279 | The loop over the pending uploads does what UploadAll says, up to the first exception. |
| `Uploaders.RollbackEach` | MargSahayak/platform-tools/systrace/catapult/dependency_manager/dependency_manager/base_config.py:286-287 | The reversed loop does what RollbackAll says, up to the first exception. |
| `BaseConfigs.BaseConfig.ExecuteUpdateJobs` | MargSahayak/platform-tools/systrace/catapult/dependency_manager/dependency_manager/base_config.py:250-289 | The whole new state, of disk, config in memory, pending uploads and cloud, in every branch: read-only, clean, nothing pending, success, failure and rollback. |
| `BaseConfigs.JobMeans` | MargSahayak/platform-tools/systrace/catapult/dependency_manager/dependency_manager/base_config.py:218-246 | A job is accepted exactly if the config may be updated, the file and the data of the platform are there and the dependency has a bucket; then one new upload of the file to folder, dependency and hash is pending. Whenever only the bucket is missing the config in memory has changed all the same, and otherwise a refusal changes nothing. |
| `BaseConfigs.JobRefused` | MargSahayak/platform-tools/systrace/catapult/dependency_manager/dependency_manager/base_config.py:330-348 | Which exception a refused job raises: a read-only config, or a dirty one with the job executed at once, comes before an unknown dependency or platform, and these before a missing file. |
| `BaseConfigs.JobRecords` | MargSahayak/platform-tools/systrace/catapult/dependency_manager/dependency_manager/base_config.py:235-237 | The job records the hash, and the version if one is given, for that platform; every other dependency, platform and field is as before. |
| `BaseConfigs.BaseConfig.AddJob` | MargSahayak/platform-tools/systrace/catapult/dependency_manager/dependency_manager/base_config.py:232-246 | The whole new state after a job has been added or refused, a missing bucket included; `JobMeans` says what that state is. |
| `BaseConfigs.BaseConfig.AddCloudStorageDependencyUpdateJob` | MargSahayak/platform-tools/systrace/catapult/dependency_manager/dependency_manager/base_config.py:193-248 | The whole new state after a job has been added and, unless deferred, executed. |
| `ConfigRuns.DiskAlwaysPublished` | MargSahayak/platform-tools/systrace/catapult/dependency_manager/dependency_manager/base_config.py:193-289 | Over every run of both operations without force, failures anywhere and retries included, each hash in the config on disk names an object present at its remote path with that hash, if all editable dependencies have a bucket or none has. |
| `ConfigRuns.MixedBucketsBreak` | MargSahayak/platform-tools/systrace/catapult/dependency_manager/dependency_manager/base_config.py:235-246 | In a writable mixed config, with calls that go through and a local file whose place is free, a run breaks that: the job that a missing bucket refuses has already changed the config in memory, and the next update writes it to disk. |
| `ConfigRuns.PublishedExactly` | MargSahayak/platform-tools/systrace/catapult/dependency_manager/dependency_manager/base_config.py:193-289 | If nothing else stands in the way of an update, every run keeps the config on disk published exactly if all editable dependencies have a bucket or none has. |
| `ConfigRuns.FailedUpdateIsUndone` | MargSahayak/platform-tools/systrace/catapult/dependency_manager/dependency_manager/base_config.py:276-288 | If the update fails and the rollback succeeds, forced or not, every remote path has its earlier content or absence and only taken backups differ; without force, after a conflict too, or with nothing in the way, the updater is back in its earlier state, ready for a retry. |
| `ConfigRuns.SuccessfulUpdate` | MargSahayak/platform-tools/systrace/catapult/dependency_manager/dependency_manager/base_config.py:276-281 | After a success every file is at its remote path, the disk has the config in memory, and what was overwritten by force is at its backup path. |
| `ConfigRuns.UpdateRecords` | MargSahayak/platform-tools/systrace/catapult/dependency_manager/dependency_manager/base_config.py:193-289 | After an accepted job and an update without force that succeeds, the config on disk has the hash of the file, and the version if one is given, and differs in nothing else from the config that was in memory; if that is a change to the disk, the file is at its place in the cloud. An update that does not answer True leaves the disk alone. |
| `ConfigRuns.JobAtOnce` | MargSahayak/platform-tools/systrace/catapult/dependency_manager/dependency_manager/base_config.py:193-248 | The same for a job that is executed at once, which raises without touching the disk or records the hash there. |
| `ConfigRuns.UpdateAnswers` | MargSahayak/platform-tools/systrace/catapult/dependency_manager/dependency_manager/base_config.py:250-289 | A read-only config raises, a clean one answers False, and the disk changes exactly when a dirty config with uploads answers True; with nothing pending a dirty one answers True and nothing happens. |
| `ConfigRuns.UpdateSucceedsExactly` | MargSahayak/platform-tools/systrace/catapult/dependency_manager/dependency_manager/base_config.py:276-281 | With files that are there and calls that go through, an update without force of a dirty config succeeds exactly if the remote paths of its uploads are free and differ from one another; otherwise new uploads raise a conflict. |
| `ConfigRuns.FailedBatchIsUndone` | MargSahayak/platform-tools/systrace/catapult/dependency_manager/dependency_manager/base_config.py:193-288 | Any jobs are added to a config just opened, and their update fails and the rollback succeeds: then every remote path and the disk are as at the start, and the cloud has no other change but, with force, backups at the remote paths with .old after them. With force no job's place may be that of an earlier one, or that with .old after it; `RollbackLimits.UndoneExactly` shows that this is needed. |
| `ConfigRuns.SuccessfulBatch` | MargSahayak/platform-tools/systrace/catapult/dependency_manager/dependency_manager/base_config.py:193-281 | A successful update of any such jobs puts each file in place, and what was overwritten, by force only, at the same path with .old after it. With force the places of the jobs must differ and be nobody's place with .old after it. |
| `ConfigRuns.UnforcedIsUndone` | MargSahayak/platform-tools/systrace/catapult/dependency_manager/dependency_manager/base_config.py:276-288 | Without force, for any new uploads, a rollback that succeeds gives back the whole cloud and the pending uploads, and only a call that fails keeps it from succeeding. |
| `ConfigRuns.FailedRollbackLeaves` | MargSahayak/platform-tools/systrace/catapult/dependency_manager/dependency_manager/base_config.py:282-288 | If the config write fails and then the rollback too, the exception of the rollback is raised and the uploaded file stays. |
| `RollbackLimits.UndoneExactly` | MargSahayak/platform-tools/systrace/catapult/dependency_manager/dependency_manager/base_config.py:276-288 | A forced update of given new uploads is undone by every rollback that succeeds, whatever the cloud, the local files and the calls that fail, exactly if no upload goes to the place of an earlier one or to that place with .old after it. |
| `RollbackLimits.ClashBreaks` | MargSahayak/platform-tools/systrace/catapult/dependency_manager/dependency_manager/base_config.py:276-288 | Otherwise, with one object in the cloud, at the place of the earlier upload, and the call after the later upload the only one that fails, the rollback succeeds and leaves something else at the place of the later one. |
| `ConfigRuns.SamePlaceTwiceLoses` | MargSahayak/platform-tools/systrace/catapult/dependency_manager/dependency_manager/base_config.py:276-288 | So for two jobs with one place: after a forced update whose write fails and whose rollback succeeds, the file of the first job is there in place of the object that was overwritten. |
| `Uploaders.FreshInTurn` | MargSahayak/platform-tools/systrace/catapult/dependency_manager/dependency_manager/uploader.py:28-32 | New uploads none of which goes to the place of an earlier one, or to that with .old after it, are in turn: none uploads or backs up where an earlier one does. |
| `Uploaders.FreshApart` | MargSahayak/platform-tools/systrace/catapult/dependency_manager/dependency_manager/uploader.py:28-32 | New uploads whose places differ and are nobody's place with .old after it are apart from one another, backups included. |
| `ConfigRuns.ExecuteKeeps` | MargSahayak/platform-tools/systrace/catapult/dependency_manager/dependency_manager/base_config.py:250-289 | One execution keeps the invariant of runs: all that memory names is on disk already or still to be uploaded, and no upload that is not committed is named on disk. |
| `ConfigRuns.JobKeeps` | MargSahayak/platform-tools/systrace/catapult/dependency_manager/dependency_manager/base_config.py:193-246 | Adding a job keeps the same invariant, refused jobs included. |
| `ConfigRuns.NoBucketNoWrite` | MargSahayak/platform-tools/systrace/catapult/dependency_manager/dependency_manager/base_config.py:274-281 | Without any bucket no run ever writes the config or the cloud. |
| `Flags.RoundTrip` | MargSahayak/platform-tools/systrace/catapult/devil/devil/android/flag_changer.py:210-300 | Printing a nonempty list of flags and parsing it gives the list back, exactly if no flag is empty and none ends in a backslash. |
| `Flags.ParseFlags` | MargSahayak/platform-tools/systrace/catapult/devil/devil/android/flag_changer.py:210-252 | The loop yields the tokens of the reference scanner but the first; no flag is ever empty, and no empty current flag is indexed. |
| `WrittenFlags.ParseTyped` | MargSahayak/platform-tools/systrace/catapult/devil/devil/android/flag_changer.py:210-252 | A command line written by hand, with stretches of its flags bare or in quotes of either kind, quotes escaped inside quotes of their own kind, and any white space between flags, parses as the flags that it means; those that are empty are dropped. |
| `WrittenFlags.PrintedPlainly` | MargSahayak/platform-tools/systrace/catapult/devil/devil/android/flag_changer.py:275-300 | A flag is printed as it is exactly if it is a nonempty plain key, or a plain key, an equals sign and a plain value. |
| `WrittenFlags.KeyInClear` | MargSahayak/platform-tools/systrace/catapult/devil/devil/android/flag_changer.py:284-300 | A plain key and its equals sign are never put in quotes, whatever the value. |
| `WrittenFlags.StripMeans` | MargSahayak/platform-tools/systrace/catapult/devil/devil/android/flag_changer.py:100 | Stripping takes the white space off both ends of the file, and no more. |
| `Flags.FeedFlag` | MargSahayak/platform-tools/systrace/catapult/devil/devil/android/flag_changer.py:275-300 | One printed flag, read between two tokens, leaves that flag pending, or, if it ends in a backslash, an open quote and a spoilt flag. |
| `Flags.EscapeSpoils` | MargSahayak/platform-tools/systrace/catapult/devil/devil/android/flag_changer.py:229-235 | In place of the first flag that ends in a backslash another one comes back, whatever follows it. |
| `Flags.LineNeedsNoStrip` | MargSahayak/platform-tools/systrace/catapult/devil/devil/android/flag_changer.py:100 | Stripping white space does not change a printed line. |
| `Flags.ReadBack` | MargSahayak/platform-tools/systrace/catapult/devil/devil/android/flag_changer.py:91-107 | A file written from good flags, or removed for want of any, is read back as those flags. |
| `FlagChangers.FlagChanger.Open` | MargSahayak/platform-tools/systrace/catapult/devil/devil/android/flag_changer.py:67-89 | Refuses names with a slash; otherwise removes the legacy file and starts with one state, that of the device file. |
| `FlagChangers.FlagChanger.GetCurrentFlags` | MargSahayak/platform-tools/systrace/catapult/devil/devil/android/flag_changer.py:91-107 | Returns the flags in the device file and makes them the top of the stack. |
| `FlagChangers.FlagChanger.UpdateCommandLineFile` | MargSahayak/platform-tools/systrace/catapult/devil/devil/android/flag_changer.py:193-207 | The top of the stack is what the device file then holds; good flags are unchanged by that, in whatever order the set is printed; the file is there afterwards exactly if there are flags; no other file changes. |
| `FlagChangers.FlagChanger.ReplaceFlags` | MargSahayak/platform-tools/systrace/catapult/devil/devil/android/flag_changer.py:109-124 | Pushes one state, which is what the device file now holds; good flags are stored as they are. |
| `FlagChangers.FlagChanger.PushFlags` | MargSahayak/platform-tools/systrace/catapult/devil/devil/android/flag_changer.py:158-178 | With good flags, the device file holds the earlier flags plus those added minus those removed. |
| `FlagChangers.FlagChanger.AddFlags` | MargSahayak/platform-tools/systrace/catapult/devil/devil/android/flag_changer.py:126-137 | With good flags, the device file holds the earlier flags and the new ones. |
| `FlagChangers.FlagChanger.RemoveFlags` | MargSahayak/platform-tools/systrace/catapult/devil/devil/android/flag_changer.py:139-156 | With good flags, the device file holds the earlier flags without those removed. |
| `FlagChangers.FlagChanger.Restore` | MargSahayak/platform-tools/systrace/catapult/devil/devil/android/flag_changer.py:180-191 | Pops one state; the one below, if its flags are good, is what the device file then holds. |
| `FlagChangers.Perform` | MargSahayak/platform-tools/systrace/catapult/devil/devil/android/flag_changer.py:88-207 | In any properly nested session of good flags the device holds, after each change and each Restore, exactly what the changes in force make of the flags at the start; in the end flags and stack are as they were. |
| `Manifest.ParseListing` | MargSahayak/platform-tools/systrace/catapult/devil/devil/android/apk_helper.py:39-77 | Parsing the pre-order listing of any tree, blank and unmatched lines included, succeeds exactly if in every element the attribute keys are distinct and differ from the child names, and then rebuilds the tree, children in document order. |
| `Manifest.ParseRest` | MargSahayak/platform-tools/systrace/catapult/devil/devil/android/apk_helper.py:46-75 | The same for the lines that remain of an element at any depth, below any stack; nothing outside that element changes. |
| `Manifest.ChildStep` | MargSahayak/platform-tools/systrace/catapult/devil/devil/android/apk_helper.py:57-65 | An element line opens a new dictionary, last in its parent's list, and fails exactly on the name of an attribute. |
| `Manifest.AttrStep` | MargSahayak/platform-tools/systrace/catapult/devil/devil/android/apk_helper.py:67-75 | An attribute line adds the value, and fails exactly if its key is taken. |
| `ManifestParser.ParseManifest` | MargSahayak/platform-tools/systrace/catapult/devil/devil/android/apk_helper.py:39-77 | The loop on linked dictionaries, first line of the dump skipped, leaves a graph that mirrors the one of the reference run, or raises as it does. |
| `ManifestParser.ParseTree` | MargSahayak/platform-tools/systrace/catapult/devil/devil/android/apk_helper.py:39-77 | The dump of any tree is parsed exactly if the tree is well-formed, and the dictionaries then linked from the returned one, lists of children and all, are the tree. |
| `ManifestParser.ReadLine` | MargSahayak/platform-tools/systrace/catapult/devil/devil/android/apk_helper.py:46-75 | One pass of the loop, on references into the tree under construction, does what Step says. |
| `ManifestParser.AddChild` | MargSahayak/platform-tools/systrace/catapult/devil/devil/android/apk_helper.py:58-64 | The list of children is extended or created, and all other dictionaries stay. |
| `Push.PushedMeans` | MargSahayak/platform-tools/systrace/catapult/devil/devil/android/device_utils.py:1246-1296 | What a push is for: every host file is there with equal content, nothing outside the device directories changes, and below them no other file is left with delete_device_stale and all are untouched without it. |
| `Push.DeviceUtils.PushChangedFiles` | MargSahayak/platform-tools/systrace/catapult/devil/devil/android/device_utils.py:1246-1296 | With the cache or without, the device ends up as that says, the cache stays sound, exactly the files that are not skipped have been sent, none of them if all are up to date, and afterwards all are. |
| `Push.PushAgain` | MargSahayak/platform-tools/systrace/catapult/devil/devil/android/device_utils.py:1248-1249 | From the state that PushChangedFiles leaves, the same push again sends nothing and leaves the device, and that state, as it is. |
| `Push.SkippedExactly` | MargSahayak/platform-tools/systrace/catapult/devil/devil/android/device_utils.py:1331-1369 | With sound sums a push skips exactly the files that the device has already with equal content, but for those that sums cached without regard to other files do not cover. |
| `Push.SomeSent` | MargSahayak/platform-tools/systrace/catapult/devil/devil/android/device_utils.py:1365-1368 | A push sends something exactly if some host file is not skipped. |
| `Push.DeviceUtils.GetChangedAndStaleFiles` | MargSahayak/platform-tools/systrace/catapult/devil/devil/android/device_utils.py:1298-1377 | The jobs are host files for their device paths, for exactly those whose sum is not known or differs, and the others are up to date; every host file is pushed or there already; the stale files, if they are tracked, are those below the directory that no host file is meant for. |
| `Push.DeviceUtils.DeviceChecksums` | MargSahayak/platform-tools/systrace/catapult/devil/devil/android/device_utils.py:1331-1341 | Sums from the cache are as good as fresh ones for the way in which they are used, and the sums decide which host files are skipped. |
| `Push.DeviceUtils.CompareSums` | MargSahayak/platform-tools/systrace/catapult/devil/devil/android/device_utils.py:1350-1369 | Exactly the host files whose sums are missing or differ are to be pushed, the others are up to date, and what is left over is to be deleted. |
| `Push.SoundCommit` | MargSahayak/platform-tools/systrace/catapult/devil/devil/android/device_utils.py:1371-1375 | The entry committed for a directory fits the pushed files. |
| `Push.SoundElsewhere` | MargSahayak/platform-tools/systrace/catapult/devil/devil/android/device_utils.py:1295-1296 | A push leaves the entries of other directories sound. |
| `Push.WorkDone` | MargSahayak/platform-tools/systrace/catapult/devil/devil/android/device_utils.py:1288-1294 | Deleting the stale files and pushing the changed ones makes the device as it is meant to be. |
| `Push.PushRun` | MargSahayak/platform-tools/systrace/catapult/devil/devil/android/device_utils.py:1246-1377 | Any run of pushes to directories that are not nested, both values of delete_device_stale mixed, leaves the device as the pushes without checksums would. |
| `Push.CachedAsUncached` | MargSahayak/platform-tools/systrace/catapult/devil/devil/android/device_utils.py:1331-1341 | The same run on a device with the cache on and one with it off leaves the same files. |
| `ShellSnippet.SnippetMeans` | MargSahayak/platform-tools/systrace/catapult/devil/devil/utils/cmd_helper.py:70-88 | For every list of arguments, valid name and nonempty value, and whatever the variable is bound to, splitting and expanding the snippet gives the arguments with that in every place where the value was: the snippet uses the variable for each of them, and nothing else in it is expanded. |
| `ShellSnippet.SnippetIsCommand` | MargSahayak/platform-tools/systrace/catapult/devil/devil/utils/cmd_helper.py:70-88 | With the variable bound to the value these are exactly the arguments. |
| `ShellSnippet.SplitExactly` | MargSahayak/platform-tools/systrace/catapult/devil/devil/utils/cmd_helper.py:84 | The parts of a text are the only list that joins to it in which each separator is the leftmost one after the one before and none is left in the last part. |
| `ShellSnippet.ReadQuoted` | MargSahayak/platform-tools/systrace/catapult/devil/devil/utils/cmd_helper.py:24-39 | A single-quoted string is read by the shell as that string, in the middle of a word too. |
| `ShellSnippet.QuotedExactly` | MargSahayak/platform-tools/systrace/catapult/devil/devil/utils/cmd_helper.py:21-39 | A string is left without quotes exactly if it is nonempty and has only letters, digits and the listed marks. |
| `ShellSnippet.ReadParts` | MargSahayak/platform-tools/systrace/catapult/devil/devil/utils/cmd_helper.py:83-86 | The parts between the occurrences of the value, quoted and joined by the variable, stand for the argument with the variable's binding in place of the value. |
| `ShellSnippet.SplitThenJoin` | MargSahayak/platform-tools/systrace/catapult/devil/devil/utils/cmd_helper.py:84 | Joining the parts of a split with the separator gives the text back. |
| `OutputLines.IterCmdOutputLines` | MargSahayak/platform-tools/systrace/catapult/devil/devil/utils/cmd_helper.py:414-449 | For any cutting of the output into nonempty chunks, the lines yielded are those of splitlines on the whole output exactly if no cut falls between CR and LF, and one more for each cut that does. |
| `OutputLines.TakeLines` | MargSahayak/platform-tools/systrace/catapult/devil/devil/utils/cmd_helper.py:439-444 | The lines yielded are those of the text up to its last line break, and the rest is kept back. |
| `OutputLines.SplitAtBreak` | MargSahayak/platform-tools/systrace/catapult/devil/devil/utils/cmd_helper.py:441 | Text that ends in a line break can be split apart from what follows, but for a newline cut off from its carriage return. |
| `LocalPaths.LookupMerged` | MargSahayak/platform-tools/systrace/catapult/dependency_manager/dependency_manager/local_path_info.py:13-34 | On any file system the merged, de-duplicated groups find the path that the plain groups one after the other would find. |
| `LocalPaths.LocalPathInfo.GetLocalPath` | MargSahayak/platform-tools/systrace/catapult/dependency_manager/dependency_manager/local_path_info.py:13-19 | Finds the newest path of the first group of which any path exists. |
| `LocalPaths.NewestAt` | MargSahayak/platform-tools/systrace/catapult/dependency_manager/dependency_manager/local_path_info.py:18 | The first of the newest paths. |
| `LocalPaths.LocalPathInfo.Update` | MargSahayak/platform-tools/systrace/catapult/dependency_manager/dependency_manager/local_path_info.py:25-34 | Appends the groups of the other without the paths already known, also when the other is the same object. |
| `LocalPaths.MergedAppends` | MargSahayak/platform-tools/systrace/catapult/dependency_manager/dependency_manager/local_path_info.py:28-34 | Merging keeps the groups there were and appends no empty one. |
| `LocalPaths.LookupWithGroup` | MargSahayak/platform-tools/systrace/catapult/dependency_manager/dependency_manager/local_path_info.py:28-34 | Leaving known paths out of one more group changes no lookup. |
| `DependencyManagers.DependencyInfo.Update` | MargSahayak/platform-tools/systrace/catapult/dependency_manager/dependency_manager/dependency_info.py:35-59 | The whole new state, conflicts included, and which LocalPathInfo object is held, or shared, from now on. |
| `DependencyManagers.DependencyManager.Init` | MargSahayak/platform-tools/systrace/catapult/dependency_manager/dependency_manager/manager.py:48-51 | Succeeds exactly if all config types are supported and all infos can be merged, and then holds them all, earlier configs first; otherwise it raises what is wrong with the first config that cannot be added. |
| `DependencyManagers.AllInfosConcat` | MargSahayak/platform-tools/systrace/catapult/dependency_manager/dependency_manager/manager.py:48-51 | The infos of several configs are those of each, in the order of the configs. |
| `DependencyManagers.DependencyManager.UpdateDependencies` | MargSahayak/platform-tools/systrace/catapult/dependency_manager/dependency_manager/manager.py:198-223 | The same for one config more. |
| `DependencyManagers.DependencyManager.LocalPath` | MargSahayak/platform-tools/systrace/catapult/dependency_manager/dependency_manager/manager.py:133-158 | The local path of the info for the platform, or of the default one, or the exception. |
| `DependencyManagers.RegisteredMeans` | MargSahayak/platform-tools/systrace/catapult/dependency_manager/dependency_manager/manager.py:198-223 | Merging succeeds exactly if no dependency has cloud storage data twice on one platform, and then each merged info says what all configs say about it, with the lookups of their plain groups in config order. |
| `DependencyManagers.EarlierConfigWins` | MargSahayak/platform-tools/systrace/catapult/dependency_manager/dependency_manager/manager.py:31-34 | Later configs keep every local path that the earlier ones find for a platform, on every file system, exactly if the earlier ones know the platform, or the later ones do not, or what the later ones say of it starts with all that the earlier ones say of the default platform, known paths left out. |
| `DependencyManagers.LaterPlatformHides` | MargSahayak/platform-tools/systrace/catapult/dependency_manager/dependency_manager/manager.py:240-246 | A later entry for the platform itself hides the default one of an earlier config: the path found by the earlier one gives way to another one, or to none. |
| `DependencyManagers.PathForMeans` | MargSahayak/platform-tools/systrace/catapult/dependency_manager/dependency_manager/manager.py:226-246 | The local path of a dependency is what the plain groups of all configs find for the platform, or, if no config knows it, for the default one. |
| `LookupOrders.FindsTheSame` | MargSahayak/platform-tools/systrace/catapult/dependency_manager/dependency_manager/local_path_info.py:13-19 | What one list of groups finds, another one finds on every file system, exactly if it starts with the same groups once known paths are left out. |
| `LookupOrders.LookupTidy` | MargSahayak/platform-tools/systrace/catapult/dependency_manager/dependency_manager/local_path_info.py:13-34 | Leaving out paths met before, and groups left empty, changes no lookup. |
| `UsbNodes.GetBusNumberToDeviceTreeMap` | MargSahayak/platform-tools/systrace/catapult/devil/devil/utils/find_usb_devices.py:274-309 | For any listing a success leaves linked trees in which every listed device has one node, where its line says; where device numbers are unique per bus, it succeeds exactly if parents come first, no two siblings share a port and no S line precedes all T lines, otherwise it fails as the first bad line does, and each serial number is that of the preceding T line's device. |
| `UsbNodes.EachDeviceOnce` | MargSahayak/platform-tools/systrace/catapult/devil/devil/utils/find_usb_devices.py:277-300 | Each listed device is below its bus, on its port plus 1 of a node of that bus with the number in its Prnt field, and on no other port of any node. |
| `UsbNodes.USBNode.AddChild` | MargSahayak/platform-tools/systrace/catapult/devil/devil/utils/find_usb_devices.py:102-115 | Refuses a port that is taken, else puts the device there. |
| `UsbNodes.USBNode.AllNodes` | MargSahayak/platform-tools/systrace/catapult/devil/devil/utils/find_usb_devices.py:117-126 | This node first, then everything below it, each once, in whatever order the children come. |
| `UsbNodes.USBNode.FindDeviceNumber` | MargSahayak/platform-tools/systrace/catapult/devil/devil/utils/find_usb_devices.py:128-143 | Finds a node below with that number, or none exists. |
| `UsbNodes.FindParent` | MargSahayak/platform-tools/systrace/catapult/devil/devil/utils/find_usb_devices.py:295-300 | The bus for 0, else a device of that number on the bus; if none is found, none was listed before. |
| `UsbNodes.PlaceSerial` | MargSahayak/platform-tools/systrace/catapult/devil/devil/utils/find_usb_devices.py:302-307 | The serial number goes to a device of the bus and the number of the last T line, which is always found, and to the device of that line where device numbers are unique; everything else stays. |
| `UsbTrees.FirstErrorExactly` | MargSahayak/platform-tools/systrace/catapult/devil/devil/utils/find_usb_devices.py:277-307 | There is an error exactly if some device line has its parent not before it or its port taken, or some serial number no device line before it; the first such line decides which. |
| `UsbTrees.FoundParent` | MargSahayak/platform-tools/systrace/catapult/devil/devil/utils/find_usb_devices.py:102-115 | A parent that was found was listed; where device numbers are unique, its port is taken in the tree exactly if a sibling listed before is on it. |
| `UsbTrees.UnderChild` | MargSahayak/platform-tools/systrace/catapult/devil/devil/utils/find_usb_devices.py:123-126 | The nodes below a child are those below the parent on the way through that child: subtrees of siblings are apart. |
| `UsbTrees.UnderRoot` | MargSahayak/platform-tools/systrace/catapult/devil/devil/utils/find_usb_devices.py:284-286 | The nodes below a bus are exactly the nodes with its number. |
| `ReadFiles.ReadFileTrimmed` | MargSahayak/platform-tools/systrace/catapult/systrace/atrace_helper/jni/file_utils.cc:64-77 | For any pattern of short reads and interrupts, a success leaves a NUL-terminated buffer whose text is the first length-1 bytes of the file, cut at the first NUL, CR or LF, with '?' for what cannot be printed; no write falls outside. |
| `ReadFiles.TrimmedExactly` | MargSahayak/platform-tools/systrace/catapult/systrace/atrace_helper/jni/file_utils.cc:70-76 | The trimmed text is the longest beginning of the bytes without NUL, CR and LF, with '?' in place of each byte outside 32 to 126. |
| `ReadFiles.ReadFile` | MargSahayak/platform-tools/systrace/catapult/systrace/atrace_helper/jni/file_utils.cc:43-62 | The number of bytes read is the smaller of file size and length, and the buffer holds what fits with a NUL after it. |
| `TickCounts.TrueCounts` | MargSahayak/platform-tools/systrace/catapult/common/py_trace_event/py_trace_event/trace_time.py:183-193 | The unwrapped counts are the true ones less the full turns before the first sample, exactly if consecutive samples are less than 2^32 ms apart. |
| `TickCounts.Sample` | MargSahayak/platform-tools/systrace/catapult/common/py_trace_event/py_trace_event/trace_time.py:183-193 | Over any sequence of calls each count is the one before plus the advance of the counter, so that counts never decrease. |
| `TickCounts.TickCount.Now` | MargSahayak/platform-tools/systrace/catapult/common/py_trace_event/py_trace_event/trace_time.py:187-192 | The two globals and the count after one sample. |
| `TimeoutRetry.RunMeans` | MargSahayak/platform-tools/systrace/catapult/devil/devil/utils/timeout_retry.py:148-175 | Run starts the function once, and again after each attempt that failed in a way to be retried, until an attempt succeeds or fails in another way or retries+1 have been made, and ends as the last one does; each attempt starts where the one before ended, and its time-out is its failure. |
| `TimeoutRetry.DecoratedRaises` | MargSahayak/platform-tools/systrace/catapult/devil/devil/android/decorators.py:38-63 | A decorated call never raises either kind of time-out but CommandTimeoutError in its place, and ends in every other case as the function or Run does. |
| `TimeoutRetry.PerformRun` | MargSahayak/platform-tools/systrace/catapult/devil/devil/utils/timeout_retry.py:148-175 | The loop on thread groups does what Run says. |
| `TimeoutRetry.CurrentTimeoutThreadGroup` | MargSahayak/platform-tools/systrace/catapult/devil/devil/utils/timeout_retry.py:60-71 | Finds the first timeout group on the way up from the current group through those blocked on it, if there is one; the walk ends because each leads to a group started earlier. |
| `TimeoutRetry.Perform` | MargSahayak/platform-tools/systrace/catapult/devil/devil/android/decorators.py:38-63 | A decorated call runs the function directly inside a timeout group and through Run outside, found out by walking the groups; both timeouts become one error. |
| `TimeoutRetry.RunAsync` | MargSahayak/platform-tools/systrace/catapult/devil/devil/utils/reraiser_thread.py:216-228 | Without a watcher, the functions run in a group blocked on by the current one, all complete, and the first exception in their order is raised. |
| `TimeoutRetry.AsyncMeans` | MargSahayak/platform-tools/systrace/catapult/devil/devil/utils/reraiser_thread.py:216-228 | RunAsync runs every function, each where the one before ended, and ends as the first one that raises, or as the last one if none does. |
| `TimeoutRetry.NearestMeans` | MargSahayak/platform-tools/systrace/catapult/devil/devil/utils/timeout_retry.py:60-71 | The group found is the first with a timeout among those reached by going up from one group to the one blocked on it, or none of them has one. |
| `TimeoutRetry.NestedRetriesDoNotCount` | MargSahayak/platform-tools/systrace/catapult/devil/devil/android/decorators.py:48-57 | Under a decorated call, directly or through RunAsync, it makes no difference how often inner decorated calls are to be retried. |
| `TimeoutRetry.CallsAreNotMultiplied` | MargSahayak/platform-tools/systrace/catapult/devil/devil/android/decorators.py:48-57 | A decorated call makes each plain call under it, by name, at most retries+1 times for each time it is written there, and inside another decorated call at most once for each, however deep the decoration. |

## Left out

- gsutil, adb, subprocesses, sockets, logging, JSON text and regular expressions: cloud, device and host files are maps whose operations may fail, and lines are given parsed.
- Asynchronous interrupts between the config write and clearing the pending list, and half-written config files: the write is atomic.
- Retrying after a forced overwrite was rolled back, which keeps `_backed_up` and has lost its backup path: `ConfigRuns.FailedUpdateIsUndone` gives the earlier state back without force or where nothing was in the way, and `ConfigRuns.DiskAlwaysPublished` is about updates without force.
- ConfigRuns.DiskAlwaysPublished: local files do not change during a run, and the file named by the empty string does not exist.
- ConfigRuns.SuccessfulBatch: with force it is about jobs whose places and backups are all different, as `ConfigRuns.SuccessfulUpdate` is about uploads apart from one another.
- ConfigRuns.FailedBatchIsUndone: with force it is about the jobs that `RollbackLimits.UndoneExactly` allows, and so is `ConfigRuns.FailedUpdateIsUndone`.
- ConfigRuns.MixedBucketsBreak: and `ConfigRuns.PublishedExactly` need a writable config, a local file whose places in the cloud are free, and calls that go through.
- PseudoLock.MutualExclusion: the system calls are steps on values, not on heap objects, since interleavings are what matters; creating directories and cleaning up temporary downloads are not modelled.
- PseudoLock.ReturnedMatches: nobody but GetIfHashChanged writes the file, and all callers for one path ask for one hash.
- Windows file locks, and flock errors other than a refusal; an error of the guard's open or flock counts as a busy guard.
- FlagChangers.FlagChanger.Open: operations of the device do not fail; `CustomCommandLineFlags` with its SELinux switch is not modelled, being one replace and one restore.
- Flags.ParseFlags: `isspace`, `strip` and the word characters are those of one-byte ASCII characters.
- LocalPaths.LocalPathInfo.GetLocalPath: the file system does not change during a lookup, and has no file named by the empty string.
- LocalPaths.LocalPathInfo.Update: the priority groups are lists already; turning single paths into one-element groups is not modelled.
- Uploaders.CloudStorageUploader.Upload: the refusal of missing paths by the constructor is part of `BaseConfigs.BaseConfig.AddJob`, and a given backup path is not modelled, since no caller gives one.
- The regular expressions of the manifest lines, and how deep a line is indented, which is given.
- Push.DeviceUtils.PushChangedFiles: hosts that are single files, nested device directories, md5 errors, pushes that fail half way, the creation of missing directories, and the choice between push methods; `pushed` has the files that are handed over to be sent. MD5 sums are taken to tell different contents apart.
- Push.PushRun: calls of one run push to directories none of which is inside another, and nobody else writes to the device.
- ShellSnippet.SnippetMeans: the shell reads quotes, plain words and parameters by name; it stops at any other use of a special character of section 2.2 of the Shell Command Language. Assignments and reserved words at the start of a command are not told from other words. `pipes.quote` is taken from Python's library.
- OutputLines.IterCmdOutputLines: without `iter_timeout`, and without the select and poll loops that produce the chunks or the final status check. `splitlines` is that of byte strings.
- DependencyManagers.DependencyManager.Init: infos are values in one map keyed by dependency and platform; the sharing of a LocalPathInfo between infos is modelled in `DependencyManagers.DependencyInfo.Update` only. Fetching from cloud storage, prefetching and version information are not modelled.
- UsbNodes.GetBusNumberToDeviceTreeMap: lines that match a pattern have numbers in them; descriptions from lsusb, display and the port maps of physical hubs are not modelled. With duplicate device numbers the node that is found depends on dictionary order, so that only a success is described.
- TimeoutRetry.RunAsync: the `watcher` argument, whose time-out raises while threads still run and clears the link to the blocked group, is not modelled, and nobody in the library passes one; the threads run one after the other in their order, and an attempt that times out does nothing more afterwards; `WaitFor` and elapsed times are not modelled.
- ReadFiles.ReadFileTrimmed: `isprint` is that of the C locale; opening failures are one case; the other functions of the file are not modelled.
- TickCounts.TrueCounts: in milliseconds, before the division by 1000, and with the lock held.
- Everything else in the repository: the Android activity, which has no logic of this kind, and Catapult's option parsing, output, agents and settings.
