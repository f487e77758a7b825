# Stream registry of go-rtsp, in Dafny

This project models the stream registry of go-rtsp: the `Manager` in
`internal/stream/manager.go`. It turns RTSP camera feeds into HLS playlists by
running one ffmpeg process per indicator id. The `Manager` keeps a map from
indicator id to `StreamInfo`. Each record is either active (its ffmpeg process
is believed to be running) or stopped. An id with no record is absent. The
operations are:

- **StartStream** reuses an active record, or creates the stream directory,
  spawns ffmpeg and inserts a fresh record.
- **StopStream** kills the process, removes the files and deletes the record.
- **GetStreamStatus** answers `not_found`, `stopped` or `active`.
- **UpdateStreamAccess** is the heartbeat. It refreshes `LastAccess`.
- **GetActiveStreamCount** counts the active records.
- **The exit observer** is a goroutine per process. It marks the record stopped
  when `cmd.Wait` fails.
- **The cleanup worker** runs a sweep every 10 seconds. Each sweep evicts the
  active records idle for longer than `CleanupDelay`.

Each operation runs entirely under the manager's mutex, so each one is modelled
as one atomic step. There are three modules:

- `StreamSpec` (stream_spec.dfy) gives each step as a function from the old map
  to the new map and the returned value. Each function's contract states its
  error cases, the new record, that no other id changes, and that the registry
  invariant is preserved. The invariant is that every record sits under its own
  id and carries that id's playlist path.
- `StreamManager` (stream_manager.dfy) holds the class `Manager`. Its methods
  update the `streams` map in place and are proved against those functions. A
  ghost set `dirs` stands for the per-stream directories on disk. A ghost set
  `issued` holds every process handle the manager has started. The class
  invariant says that each record's process was issued by the manager and that
  no two records share a process. `exec.Command` builds a new command on every
  fresh start (line 62), so `StartStream` requires a spawned handle that was
  never issued before. The count and the sweep are loops over the map, as in
  the Go code.
- `StreamProperties` (stream_properties.dfy) relates several operations. It
  covers playlist paths, how the active count moves, sweeping versus
  heartbeats, the exit observer and a typical client sequence. It also proves
  that over any run with a monotonic clock the invariant holds and access
  times never go backwards.

The outside world enters as parameters:

- `now` is `time.Now()` as a count of nanoseconds.
- `mkdirOk` says whether `os.MkdirAll` succeeded.
- `spawn` is the process handle `cmd.Start` produced, or `None` when it failed.
- `killOk` says whether `Process.Kill` succeeded.
- `waitFailed` says whether `cmd.Wait` returned an error.

The model follows the code also where it does something a caller would not
expect:

- StopStream on an active record whose kill fails returns an error and keeps
  the record. That includes a process that has already exited.
- The exit observer fires only when `Wait` returns an error. It checks that the
  id is present, not that the record still belongs to its process.
- A record marked stopped by the observer stays in the map, and `status`
  reports `stopped` for it.
- The sweep never removes records that are already stopped. Only StopStream or
  a later StartStream replaces them.
- A directory created by StartStream stays on disk when the spawn then fails.

## Model

| member | source | states |
|---|---|---|
| `StreamSpec.Start` | internal/stream/manager.go:45-101 | It succeeds iff the record is active, or both the directory creation and the spawn succeed. An active record yields its own playlist, gets only its access time refreshed, and nothing is inserted. Otherwise a directory failure or a spawn failure is reported (each iff) and the map is unchanged. A success maps the id to a fresh active record with the id, link, handle, `StartTime = LastAccess = now` and playlist `/streams/<id>/stream.m3u8`. Other ids are unchanged and the invariant is preserved. |
| `StreamSpec.Stop` | internal/stream/manager.go:104-124 | Fails with not-found iff the id is absent. Fails with kill-failed iff the record is active and the kill fails. A failure leaves the map unchanged. Otherwise it succeeds and exactly that id is removed. Other ids are unchanged. |
| `StreamSpec.Status` | internal/stream/manager.go:126-140 | `not_found` iff absent, `stopped` iff present and inactive, `active` iff present and active. |
| `StreamSpec.Touch` | internal/stream/manager.go:142-158 | Fails with not-found iff absent and with not-active iff present but stopped, leaving the map unchanged. Otherwise only that record's `LastAccess` becomes `now`. |
| `StreamSpec.ActiveCount` | internal/stream/manager.go:161-172 | The number of active records is at most the number of records. |
| `StreamSpec.FreshRecord` | internal/stream/manager.go:79-87 | The record of a fresh start belongs under its own id and is live. It holds the given process and link, was started and last accessed at `now`, and no sweep at that instant with a non-negative delay evicts it. |
| `StreamSpec.Idle` | internal/stream/manager.go:192 | The eviction condition. Only active records are ever idle, and with a non-negative delay a record accessed at `now` or later is not idle. |
| `StreamSpec.Evicted` | internal/stream/manager.go:192 | The ids a sweep evicts are exactly the present records that are active and idle for longer than the delay, so they are all active. |
| `StreamSpec.Swept` | internal/stream/manager.go:178-201 | After a sweep the keys are the old keys minus the evicted ones. Survivors are unchanged and not idle. Stopped records and records accessed within the delay always survive. |
| `StreamSpec.Exit` | internal/stream/manager.go:91-98 | As written: when `Wait` failed and the id is present, that record becomes inactive and stays in the map. Otherwise nothing changes. |
| `StreamSpec.ExitOf` | internal/stream/manager.go:91-98 | Corrected observer: it marks the record inactive only if the record still belongs to the observed process. A stale observer changes nothing. |
| `StreamSpec.IdOfStreamPath` | internal/stream/manager.go:59 | Reads the id back out of a playlist path. The id is the path minus its fixed prefix and suffix. |
| `StreamSpec.StreamPath` | internal/stream/manager.go:59 | The playlist path of an id is the id plus a fixed-length prefix and suffix, and the id can be read back from it with `IdOfStreamPath`. |
| `StreamProperties.IdOfStreamPathSound` | internal/stream/manager.go:59 | Every path accepted by `IdOfStreamPath` is the playlist path of the id it returns. |
| `StreamProperties.StreamPathInjective` | internal/stream/manager.go:59 | Distinct ids never share a playlist path. |
| `StreamManager.Manager.constructor` | internal/stream/manager.go:31-35 | A new manager has an empty map, has issued no process and has the given configuration. The per-stream directories are whatever already exists on disk. |
| `StreamManager.Manager.StartStream` | internal/stream/manager.go:45-102 | The in-place start performs `Start` and keeps the invariant. Every record's directory exists, and every record owns a process no other record holds. The directory is created before the spawn and is kept when the spawn fails. A fresh start records its new process as issued, so that process differs from every process any earlier observer waits on. |
| `StreamManager.Manager.StopStream` | internal/stream/manager.go:104-124 | The in-place stop performs `Stop`. On success the id's directory is removed. |
| `StreamManager.Manager.GetStreamStatus` | internal/stream/manager.go:126-140 | Returns `Status` of the current map, one of the three strings, and changes nothing. |
| `StreamManager.Manager.UpdateStreamAccess` | internal/stream/manager.go:142-159 | The in-place heartbeat performs `Touch`. Directories are untouched. |
| `StreamManager.Manager.GetActiveStreamCount` | internal/stream/manager.go:161-172 | The counting loop over the map returns exactly the number of active records. |
| `StreamManager.Manager.Sweep` | internal/stream/manager.go:178-201 | The delete-while-iterating loop leaves exactly `Swept` of the old map. It removes exactly the evicted ids' directories. |
| `StreamManager.Manager.OnProcessExit` | internal/stream/manager.go:91-99 | The observer as written performs `Exit` in place. |
| `StreamManager.Manager.OnProcessExitOf` | internal/stream/manager.go:91-99 | The corrected observer performs `ExitOf` in place. |
| `StreamProperties.StartIsIdempotent` | internal/stream/manager.go:49-52 | After a successful start, a second start returns the same playlist and keeps the same process and keys. The active count does not change. |
| `StreamProperties.FreshStartAddsOne` | internal/stream/manager.go:79-89 | A successful start of a stream that was not active raises the active count by exactly one. |
| `StreamProperties.StopCount` | internal/stream/manager.go:113-121 | A successful stop lowers the active count by one if the record was active and by zero if it was stopped. |
| `StreamProperties.SweepCount` | internal/stream/manager.go:192-199 | A sweep lowers the active count by exactly the number of records it evicts. |
| `StreamProperties.SweepIdempotent` | internal/stream/manager.go:183-201 | A second sweep at the same instant removes nothing more. |
| `StreamProperties.HeartbeatKeepsAlive` | internal/stream/manager.go:155-156 | A stream heartbeated at `t` survives any sweep up to `t + CleanupDelay` and is still reported active. |
| `StreamProperties.IdleStaysIdle` | internal/stream/manager.go:184-192 | A record idle at some instant stays idle at every later instant until it is accessed again. |
| `StreamProperties.IdleStreamIsReclaimed` | internal/stream/manager.go:192-199 | An active stream idle past the delay is `not_found` after the next sweep, and the active count drops. |
| `StreamProperties.ExitedStreamIsStopped` | internal/stream/manager.go:91-98 | After a failed `Wait` the record reports `stopped` and heartbeats fail with not-active. No sweep removes it. The next start replaces it with the new process. |
| `StreamProperties.StaleObserverStopsReplacement` | internal/stream/manager.go:91-98 | Start, stop, then start again on a new process. If the first process's observer runs last, the as-written observer marks the running replacement stopped and the sweep keeps it forever. The corrected observer leaves the replacement active. |
| `StreamProperties.CorrectedObserverSparesReplacement` | internal/stream/manager.go:91-98 | With the corrected observer, the observer of a stopped stream's old process never affects the stream started after it. |
| `StreamProperties.ClientScenario` | internal/stream/manager.go:45-124 | Start `cam1`, start it again, heartbeat, stop, then stop again. The two starts return the same playlist and process with one active stream. The heartbeat and the first stop succeed. Status is then `not_found`, and the second stop fails with not-found. |
| `StreamProperties.ApplyConsistent` | internal/stream/manager.go:79-89 | Any single operation with a non-decreasing clock keeps the invariant. That includes `StartTime <= LastAccess <= clock` for every record. No record's `LastAccess` moves backwards. |
| `StreamProperties.RunConsistent` | internal/stream/manager.go:45-201 | Over any sequence of operations with a monotonic clock, the invariant holds at the end. No id ends with an earlier `LastAccess` than it started with. |

## Left out

- The HTTP layer is not part of this model. That covers internal/server/handlers.go and internal/server/server.go, which bind requests and write JSON over gin.
- The process entry point, main.go, is not part of this model.
- Configuration loading is not modelled. internal/config/config.go reads environment variables. `StreamDir`, `CleanupDelay` (in nanoseconds), `HLSSegmentTime` and `HLSListSize` are constructor parameters.
- The ffmpeg command line (manager.go:60-73) is not modelled. Neither are running ffmpeg, `cmd.Start`, `Process.Kill` and `cmd.Wait`. These are calls into another process, and only their success or failure reaches the registry, as parameters.
- StreamManager.Manager.constructor: the base-directory creation and its panic (lines 37-39) are not modelled. Starting the cleanup goroutine (line 41) is not modelled either. The sweep is the callable `Sweep`. Per-stream directories left on disk by an earlier run are a ghost parameter.
- The file system is abstracted to the ghost set `dirs` of ids whose directory exists. `filepath.Join` path cleaning is not modelled. Ids containing `/` or `..` could name the same directory on a real file system. Errors from `os.RemoveAll` are ignored by the code, and the id is removed from `dirs` regardless.
- `StreamInfo` records are pointers in Go and values in this model. No pointer to a record leaves the locked sections, because the observer closure captures the id and not the record. Updating a field in place therefore equals replacing the map entry.
- The `Process != nil` tests at lines 113 and 194 are not modelled. Every record gets its process at line 82, so the handle is never absent.
- StreamSpec.Start: the two `time.Now()` calls at lines 83-84 are one reading `now`. This reads `StartTime = LastAccess` exactly, where Go may differ by nanoseconds.
- StreamSpec.Swept: does not model the saturation of `time.Time.Sub` at the bounds of a 64-bit duration. Clock values are unbounded integers.
- Concurrency is not modelled: the mutex, the read locks, the goroutines and the 10-second ticker. Each locked section is one atomic method, and any interleaving of those methods is a sequence of `Op` values.
- Logging (`log.Printf`) and time formatting are not modelled.

## Findings

| source | as written | input that shows it | evidently intended | confidence | as-written member | corrected member |
|---|---|---|---|---|---|---|
| internal/stream/manager.go:91-98 | The exit observer marks whatever record is under the id as stopped. It checks only that the id is present. | Start `cam1` on process h1. Stop `cam1`, which kills h1, so h1's `Wait` will fail. Start `cam1` on process h2. h1's observer takes the lock last and marks h2's record stopped. h2 keeps running while status reports `stopped`, heartbeats are refused and no sweep reclaims it. | The observer acts only on the record of its own process. | medium; not executed | `StreamProperties.StaleObserverStopsReplacement` | `StreamSpec.ExitOf` |
