# Download service: task registry, worker and crash recovery

This project models the core of a small Go download service. A client
posts a list of URLs. The service registers them as a *task* whose id is
the hex SHA-1 of the URLs. Each URL becomes a *file* with a status:
`pending`, `running`, `done` or `failed`. A single background worker
downloads the pending files one at a time and moves each file and its
task through these states. The whole registry is saved after every
download. When the service restarts, the saved state is loaded back, and
any download that was in flight is queued again.

Modules, leaves first:

- `Wrappers`: `Option` and `Result`.
- `Model`: the `File` and `Task` records (main.go), plus the predicates the
  proofs use. `Consistent` means a done task has only done files.
  `NoneRunning` means no download of the task is in flight. `AllSettled`
  means every file is done or failed.
- `TaskIds`: `makeID`. The URLs turn into bytes with UTF-8, the bytes are
  fed to a digest function that returns 20 bytes, and the digest is
  rendered as lower-case hex. SHA-1 itself is the parameter `hash`.
- `Downloads`: the naming and error logic of `download`. This covers
  `filepath.Base` on `/`-separated strings, the `"download"` fallback,
  `downloads/<ts>-<name>`, and how the worker reads the `(path, err)` pair.
- `Worker`: one file step of the worker as specification functions
  (`Started`, `Finished`, `StepFile`). The inner loop is `RunFiles`, and a
  full pass over a snapshot is `Pass`. The `allDone` flag loop is the
  method `AllDone`.
- `Recovery`: the reset of `running` to `pending` and the merge into the
  live map (`loadSnapshot`).
- `Requests`: the responses, the task a creation request builds, and the
  path-to-id rewrite of `GET /tasks/{id}`.
- `Registry`: a class holding `tasks: map<string, Task>`. The methods are
  the locked critical sections of the source: the two handlers' map
  accesses, the worker's two writes per file (`StartFile`, `FinishFile`),
  `loadSnapshot` and `saveSnapshot`. `RunPass` runs the worker's sections
  of one pass in order, with no other writer in between. Its `order`
  parameter is the task list the worker copies under the read lock
  (download.go:85-90). The methods are proved against the specification
  functions above.
- `Scenarios`: whole-system consequences. A new one-URL task ends done
  after a successful download. After a failed download it is left
  running, and every later pass leaves it exactly as it is. The first
  pass after a restart settles every recovered task.

Observations:

- On a failed download the worker sets `Status` and `Error` and leaves
  `Path` as it was (download.go:115-118).
- `download` returns the path together with the `io.Copy` error
  (download.go:49-50). The worker reads only the error, so the file is
  failed.
- `handleTaskByID` releases the read lock before encoding the task
  (handlers.go:82-92). The model's lookup is a single atomic step.
- The id hashes the URLs' concatenation with no separator. So `["ab","c"]`
  and `["a","bc"]` get the same id, and the second request is answered
  with the first request's task (`TaskIds.SplitDoesNotMatter`).
- `filepath.Base` never returns `""` (`Downloads.BaseShape`). So the
  `baseName == ""` test in `download` can never be true.

## Model

| member | source | states |
|---|---|---|
| TaskIds.MakeId | 01.10.2025/download.go:149-158 | the loop that feeds each URL to the hash returns the hex digest of the whole byte stream, 40 characters long |
| TaskIds.FeedIsJoin | 01.10.2025/download.go:153-155 | writing the URLs to the hash one after another feeds exactly the UTF-8 bytes of their concatenation |
| TaskIds.HexShape | 01.10.2025/download.go:157 | hex encoding gives two characters per byte, all from `0123456789abcdef` |
| TaskIds.UnhexHex | 01.10.2025/download.go:157 | hex encoding is lossless: the digest can be read back from it |
| TaskIds.IdShape | 01.10.2025/download.go:149-158 | every task id is 40 lower-case hex characters |
| TaskIds.IdDeterminesDigest | 01.10.2025/download.go:149-158 | equal ids mean equal digests, so two URL lists share an id only if the hash collides on their byte streams |
| TaskIds.IdDependsOnlyOnJoin | 01.10.2025/download.go:149-158 | the id depends only on the ordered concatenation of the URLs |
| TaskIds.SplitDoesNotMatter | 01.10.2025/download.go:153-155 | `["ab","c"]` and `["a","bc"]` get the same id |
| Downloads.BaseShape | 01.10.2025/download.go:29 | `filepath.Base` is never empty, and it is either `/` or free of separators |
| Downloads.BaseOfPath | 01.10.2025/download.go:29 | the base of `dir/name` is `name` when `name` is non-empty and has no separator |
| Downloads.BaseIgnoresTrailingSeparator | 01.10.2025/download.go:29 | a trailing separator does not change the base |
| Downloads.BaseIdempotent | 01.10.2025/download.go:29 | the base of a base is itself |
| Downloads.LocalNameShape | 01.10.2025/download.go:29-33 | the stored name is never empty, `.` or separator-bearing; it is `download` exactly when the base is `/`, `.` or `download`, and otherwise it is the base |
| Downloads.LocalNameOfPath | 01.10.2025/download.go:29-33 | a URL ending in a proper name is stored under that name |
| Downloads.Download | 01.10.2025/download.go:15-59 | a transport error or a non-2xx reply gives an empty path and an error; for a non-2xx reply the error is the status text (`simpleError`); there is no error exactly for a written 2xx reply; a non-empty path is always `downloads/<ts>-<local name>` |
| Downloads.DownloadOutcome | 01.10.2025/download.go:24-50 | as the worker reads it, a download succeeds exactly on a written 2xx reply; a non-2xx reply fails with the status text; a success path lies directly under `downloads/` and its base is `<ts>-<local name>`; a failed copy is a failure even though it returns a path |
| Worker.RunFiles | 01.10.2025/download.go:95-142 | the inner loop never changes the number of a task's files and never decreases the download count |
| Worker.Pass | 01.10.2025/download.go:93-142 | a pass never adds or removes a task id |
| Worker.AllDone | 01.10.2025/download.go:127-133 | the flag loop with early exit is true exactly when every file is done |
| Worker.StartedEffect | 01.10.2025/download.go:102-108 | starting a file sets it to running, and its task to running only if the task was pending; nothing else changes |
| Worker.FinishedEffect | 01.10.2025/download.go:114-136 | on an error the file becomes failed with that message and keeps its path; on success it becomes done with the path and keeps its error; other files are unchanged; the task becomes done exactly when all files are done, and otherwise keeps its status |
| Worker.FinishedDoneIff | 01.10.2025/download.go:114-136 | after an outcome on a running file of a consistent task, the task is done if and only if all its files are done; a failed outcome, or any other failed file, keeps it from being done; consistency is preserved |
| Worker.StepFileFrame | 01.10.2025/download.go:97-136 | one file step keeps the id, creation time, URLs and file count, leaves done and failed files alone, and touches no other file |
| Worker.StepFileSettles | 01.10.2025/download.go:97-136 | a file that is not pending is skipped and nothing changes; a pending file ends done or failed, after one download |
| Worker.StepFileConsistent | 01.10.2025/download.go:97-136 | one file step keeps a task consistent |
| Worker.RunFilesAdvances | 01.10.2025/download.go:95-142 | the inner loop keeps the id, creation time, URLs and file count, leaves done and failed files alone, and leaves files it has not reached alone |
| Worker.RunFilesSettles | 01.10.2025/download.go:95-142 | when no download is in flight, the inner loop leaves every file it visited done or failed |
| Worker.RunFilesConsistent | 01.10.2025/download.go:95-142 | the inner loop keeps a task consistent |
| Worker.TaskSettles | 01.10.2025/download.go:95-142 | after the whole inner loop over a task with nothing in flight, every file is done or failed |
| Worker.PassAdvances | 01.10.2025/download.go:93-142 | a pass leaves tasks outside the snapshot unchanged and only advances the others |
| Worker.PassSettles | 01.10.2025/download.go:93-142 | after a full pass, every snapshotted task that had nothing in flight has no pending or running file |
| Worker.RunFilesSkipsSettled | 01.10.2025/download.go:95-100 | the inner loop leaves a task whose files are all done or failed exactly as it was |
| Worker.PassKeepsSettled | 01.10.2025/download.go:93-142 | a pass leaves every task whose files are all done or failed exactly as it was |
| Worker.PassKeepsIdle | 01.10.2025/download.go:93-142 | a pass over a registry with no file in flight leaves no file in flight |
| Worker.PassConsistent | 01.10.2025/download.go:93-142 | a pass keeps every consistent task consistent |
| Worker.PassNeverCompletesFailedTask | 01.10.2025/download.go:127-136 | a consistent task with a failed file is never done after a pass, and that file stays failed |
| Recovery.Restore | 01.10.2025/storage.go:28-41 | the merge keeps every live key and adds every loaded one; loaded keys hold the recovered task and the other keys keep their live task |
| Recovery.RecoverTask | 01.10.2025/storage.go:30-38 | the in-place loop over a loaded task's files, followed by the task status reset, computes the recovered task |
| Recovery.ResetAllAt | 01.10.2025/storage.go:30-34 | resetting the files keeps their number and resets each one separately |
| Recovery.RecoveredPreserves | 01.10.2025/storage.go:30-38 | recovery keeps the URLs, paths, errors and number of files; running becomes pending, and every other status is kept, for files and for the task |
| Recovery.RecoveredIdle | 01.10.2025/storage.go:30-38 | no recovered task or file is running |
| Recovery.RecoveredIdempotent | 01.10.2025/storage.go:30-38 | recovering twice is the same as recovering once |
| Recovery.RecoveredConsistent | 01.10.2025/storage.go:30-38 | recovery keeps a consistent task consistent |
| Recovery.RestoredIdle | 01.10.2025/storage.go:28-41 | after the merge, no loaded task and none of its files is running |
| Requests.CollapseExpand | 01.10.2025/handlers.go:74 | replacing `:/` with `://` loses nothing: replacing `://` with `:/` undoes it |
| Requests.RequestIdInjective | 01.10.2025/handlers.go:72-74 | different paths after the `/tasks/` prefix name different ids |
| Requests.RequestIdEmpty | 01.10.2025/handlers.go:72-80 | the id is empty exactly for the paths `""` and `/tasks/` |
| Requests.RequestIdExample | 01.10.2025/handlers.go:72-74 | an illustration of the rewrite: `/tasks/ab:/c` names the id `ab://c` |
| Requests.NewTaskShape | 01.10.2025/handlers.go:47-59 | a new task has the id, is pending, and has one pending file per URL in request order, duplicates included, each with an empty path and error |
| Requests.NewTaskIdle | 01.10.2025/handlers.go:47-59 | a new task is consistent and has nothing in flight |
| Registry.Registry.constructor | 01.10.2025/main.go:31-35 | the registry starts empty |
| Registry.Registry.HandleTasks | 01.10.2025/handlers.go:12-67 | a non-POST request gets 405; undecodable JSON gets 400 `invalid json`; an empty list gets 400 `no urls`; in all three cases the registry is unchanged; otherwise the answer is 202 with `makeID(urls)`, and only that id's task is added, and only if the id was absent, so creation is idempotent; a registry with no file in flight stays so |
| Registry.Registry.HandleTaskById | 01.10.2025/handlers.go:70-94 | an empty id gets 404 with no body; otherwise the task comes back with 200 exactly when the id is a key, and 404 `not found` when it is not |
| Registry.Registry.StartFile | 01.10.2025/download.go:102-108 | the first critical section of a file step replaces only that task, with `Started` |
| Registry.Registry.FinishFile | 01.10.2025/download.go:114-136 | the second critical section, with the `allDone` loop, replaces only that task, with `Finished` |
| Registry.Registry.SaveSnapshot | 01.10.2025/storage.go:46-59 | the whole registry is what gets written, and the registry is only read |
| Registry.Registry.RunPass | 01.10.2025/download.go:93-142 | the nested loops compute `Pass`; a snapshot is saved after every download, the last one being the final state; the ids are kept; tasks outside the snapshot are unchanged; every snapshotted task that had nothing in flight ends with no pending or running file; tasks only advance and stay consistent; a registry with no file in flight stays so |
| Registry.Registry.LoadSnapshot | 01.10.2025/storage.go:9-43 | an unreadable file is no error and changes nothing; a decode failure is reported and changes nothing; otherwise the registry becomes the merge of the recovered snapshot into it; a registry with no file in flight stays so |
| Scenarios.OneFilePass | 01.10.2025/download.go:93-142 | a pass over a new one-URL task performs one download and applies its outcome |
| Scenarios.OneFileSucceeds | 01.10.2025/download.go:114-136 | a new one-URL task whose download succeeds ends done, with the path recorded |
| Scenarios.OneFileFails | 01.10.2025/download.go:114-136 | a new one-URL task whose download fails stays running, with the file failed and carrying the message, and every later pass leaves it exactly as it is |
| Scenarios.RecoveredTasksSettle | 01.10.2025/storage.go:28-41 | after a restart, the first pass that reaches a recovered task leaves all its files done or failed |

## Left out

- HTTP fetch, `os.Create`, `io.Copy`: I/O. The reply and the disk result are the inputs of `Downloads.Download`. In a pass, the outcomes come from the `fetch` parameter, indexed by URL and download count.
- `os.ReadFile` and `os.WriteFile` on the state file: I/O. `LoadSnapshot` takes what reading and decoding gave. `SaveSnapshot` returns the map that would be written, and a write error is not modelled.
- JSON encoding and decoding, `writeJSON` and routing: library serialisation. The model works on decoded values. A snapshot entry decoded as `null`, and status strings other than the four known ones, are not modelled.
- SHA-1: a foreign call. It is the parameter `hash`, which returns 20 bytes. Hex encoding is modelled.
- `time.Now` and the timestamp layout: `now` and `ts` are parameters. `IsTimestamp` states the shape of the layout `20060102-150405`.
- Downloads.Download: `filepath.Join` is modelled as joining with one separator. That is all the cleaning does here, because the element `<ts>-<local name>` holds no separator and, starting with the timestamp, is never `.` or `..`.
- Goroutines, the read/write lock, the `stopping` flag, `stopCh`, the endless outer loop and the signal-driven shutdown in `main`: concurrency and process plumbing. Only one pass is modelled, and it has no interleaved writers. The race between the lookup's JSON encoding and the worker's writes is not captured.
- Go map iteration order: nondeterministic. The pass takes the snapshot as an arbitrary sequence of ids. `LoadSnapshot` picks the keys in an arbitrary order.
- Pointer identity: the Go map holds `*Task`, and the worker writes through the pointer it snapshotted. The model writes by id. The two agree unless a task is replaced in the map during a pass, and the source only replaces tasks at startup.
- Registry.Registry.RunPass: the contract states only how many snapshots are saved and that the last equals the final registry. Which intermediate registry each earlier snapshot holds is not stated.
- Logging.
