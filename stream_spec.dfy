/**
 * The stream registry of internal/stream/manager.go, as values.
 *
 * Every operation of the Go `Manager` runs entirely under the registry's
 * mutex, so each one is an atomic step from one registry (a map from
 * indicator id to stream record) to the next. This module gives each step
 * as a function on the map; the class in StreamManager performs the same
 * steps in place and is proved against these functions, and the lemmas in
 * StreamProperties relate several steps.
 *
 * What the Go code reads from the outside world is a parameter here:
 * `now` is the value of time.Now() in nanoseconds, `mkdirOk` whether
 * os.MkdirAll succeeded, `spawn` the handle cmd.Start produced (None when it
 * failed), `killOk` whether Process.Kill succeeded, `waitFailed` whether
 * cmd.Wait returned an error.
 */
module StreamSpec {

  /** Identifies the ffmpeg process (the *exec.Cmd) behind one record. */
  type Handle = nat

  /** The Go StreamInfo. Times are nanosecond counts. */
  datatype StreamInfo = StreamInfo(
    indicatorId: string,
    rtspLink: string,
    process: Handle,
    startTime: int,
    lastAccess: int,
    streamPath: string,
    isActive: bool)

  /** The Manager's `streams` map. */
  type Streams = map<string, StreamInfo>

  datatype Option<T> = None | Some(value: T)

  /** The errors the Manager returns, one per fmt.Errorf site. */
  datatype Error =
    | StreamNotFound   // "stream not found: %s"
    | StreamNotActive  // "stream is not active: %s"
    | DirectoryFailed  // "failed to create stream directory: %v"
    | SpawnFailed      // "failed to start ffmpeg: %v"
    | KillFailed       // "failed to kill process: %v"

  datatype Result<T> = Ok(value: T) | Err(error: Error)

  datatype Outcome = Pass | Fail(error: Error)

  /** The registry after a step, with what the step returned. */
  datatype Step<R> = Step(streams: Streams, result: R)

  const PathPrefix: string := "/streams/"
  const PathSuffix: string := "/stream.m3u8"

  /**
   * The playlist path handed to clients: fmt.Sprintf("/streams/%s/stream.m3u8", id).
   * The id can always be read back from it.
   */
  function StreamPath(id: string): (p: string)
    ensures |p| == |PathPrefix| + |id| + |PathSuffix|
    ensures IdOfStreamPath(p) == Some(id)
  {
    PathPrefix + id + PathSuffix
  }

  /** Recovers the id from a playlist path; None for a path StreamPath cannot produce. */
  function IdOfStreamPath(p: string): (r: Option<string>)
    ensures r.Some? ==> |r.value| + |PathPrefix| + |PathSuffix| == |p|
  {
    if |p| >= |PathPrefix| + |PathSuffix|
       && p[..|PathPrefix|] == PathPrefix
       && p[|p| - |PathSuffix|..] == PathSuffix
    then Some(p[|PathPrefix|..|p| - |PathSuffix|])
    else None
  }

  /**
   * The registry invariant: each record sits under its own indicator id and
   * carries the playlist path derived from that id.
   */
  predicate WellKeyed(m: Streams)
  {
    forall id :: id in m ==> m[id].indicatorId == id && m[id].streamPath == StreamPath(id)
  }

  /** There is a record for `id` and its process is believed to be running. */
  predicate IsLive(m: Streams, id: string)
  {
    id in m && m[id].isActive
  }

  // ---------------------------------------------------------------------
  // StartStream (manager.go:45-102)
  // ---------------------------------------------------------------------

  /** The record StartStream inserts for a freshly spawned process. */
  function FreshRecord(id: string, rtspLink: string, process: Handle, now: int): (r: StreamInfo)
    // it belongs under its own id and is live
    ensures WellKeyed(map[id := r]) && IsLive(map[id := r], id)
    ensures r.process == process && r.rtspLink == rtspLink
    // it was started and last accessed at the same instant, so no sweep at that instant evicts it
    ensures r.startTime == r.lastAccess == now
    ensures forall cleanupDelay :: cleanupDelay >= 0 ==> !Idle(r, now, cleanupDelay)
  {
    StreamInfo(id, rtspLink, process, now, now, StreamPath(id), true)
  }

  function Start(m: Streams, id: string, rtspLink: string, now: int, mkdirOk: bool, spawn: Option<Handle>)
    : (r: Step<Result<string>>)
    // an active record is reused: same playlist, access time refreshed, nothing spawned
    ensures IsLive(m, id) ==>
      && r.result == Ok(m[id].streamPath)
      && r.streams.Keys == m.Keys
      && r.streams[id] == m[id].(lastAccess := now)
    // otherwise the directory is created, then ffmpeg started, and either failure is reported
    ensures r.result == Err(DirectoryFailed) <==> !IsLive(m, id) && !mkdirOk
    ensures r.result == Err(SpawnFailed) <==> !IsLive(m, id) && mkdirOk && spawn.None?
    ensures r.result.Err? ==> r.streams == m
    // and there is no other error: it succeeds on a live record, or when both steps succeed
    ensures r.result.Ok? <==> IsLive(m, id) || (mkdirOk && spawn.Some?)
    // a successful fresh start replaces whatever (inactive) record was there
    ensures !IsLive(m, id) && r.result.Ok? ==>
      && spawn.Some?
      && r.result.value == StreamPath(id)
      && r.streams.Keys == m.Keys + {id}
      && r.streams[id] == FreshRecord(id, rtspLink, spawn.value, now)
    // in every case the stream is live afterwards, and the caller gets its playlist
    ensures r.result.Ok? ==>
      IsLive(r.streams, id) && r.streams[id].lastAccess == now && r.result.value == r.streams[id].streamPath
    // no other id is touched
    ensures r.streams - {id} == m - {id}
    ensures WellKeyed(m) ==> WellKeyed(r.streams)
  {
    if IsLive(m, id) then
      Step(m[id := m[id].(lastAccess := now)], Ok(m[id].streamPath))
    else if !mkdirOk then
      Step(m, Err(DirectoryFailed))
    else if spawn.None? then
      Step(m, Err(SpawnFailed))
    else
      Step(m[id := FreshRecord(id, rtspLink, spawn.value, now)], Ok(StreamPath(id)))
  }

  // ---------------------------------------------------------------------
  // StopStream (manager.go:104-124)
  // ---------------------------------------------------------------------

  function Stop(m: Streams, id: string, killOk: bool): (r: Step<Outcome>)
    ensures r.result == Fail(StreamNotFound) <==> id !in m
    ensures r.result == Fail(KillFailed) <==> IsLive(m, id) && !killOk
    ensures r.result.Fail? ==> r.streams == m
    // a stopped record, or a live one whose process was killed, is removed
    ensures r.result == Pass <==> id in m && (!m[id].isActive || killOk)
    ensures r.result == Pass ==> id !in r.streams && r.streams.Keys == m.Keys - {id}
    ensures r.streams - {id} == m - {id}
    ensures WellKeyed(m) ==> WellKeyed(r.streams)
  {
    if id !in m then
      Step(m, Fail(StreamNotFound))
    else if m[id].isActive && !killOk then
      Step(m, Fail(KillFailed))
    else
      // the Go code also sets IsActive to false (line 117) on the record it
      // deletes two lines later; nothing can observe that write
      Step(m - {id}, Pass)
  }

  // ---------------------------------------------------------------------
  // GetStreamStatus (manager.go:126-140)
  // ---------------------------------------------------------------------

  function Status(m: Streams, id: string): (r: string)
    ensures r == "not_found" <==> id !in m
    ensures r == "stopped" <==> id in m && !m[id].isActive
    ensures r == "active" <==> IsLive(m, id)
  {
    if id !in m then "not_found"
    else if !m[id].isActive then "stopped"
    else "active"
  }

  // ---------------------------------------------------------------------
  // UpdateStreamAccess, the heartbeat (manager.go:142-159)
  // ---------------------------------------------------------------------

  function Touch(m: Streams, id: string, now: int): (r: Step<Outcome>)
    ensures r.result == Fail(StreamNotFound) <==> id !in m
    ensures r.result == Fail(StreamNotActive) <==> id in m && !m[id].isActive
    ensures r.result.Fail? ==> r.streams == m
    ensures r.result == Pass <==> IsLive(m, id)
    // only the access time of that one record moves
    ensures r.result == Pass ==>
      && r.streams.Keys == m.Keys
      && r.streams[id] == m[id].(lastAccess := now)
    ensures r.streams - {id} == m - {id}
    ensures WellKeyed(m) ==> WellKeyed(r.streams)
  {
    if id !in m then Step(m, Fail(StreamNotFound))
    else if !m[id].isActive then Step(m, Fail(StreamNotActive))
    else Step(m[id := m[id].(lastAccess := now)], Pass)
  }

  // ---------------------------------------------------------------------
  // GetActiveStreamCount (manager.go:161-172)
  // ---------------------------------------------------------------------

  /** The ids among `keys` whose record is active. */
  function ActiveAmong(m: Streams, keys: set<string>): (r: set<string>)
    ensures r <= keys && r <= m.Keys
    ensures forall id :: id in r <==> id in keys && IsLive(m, id)
  {
    set id | id in keys && IsLive(m, id)
  }

  function ActiveIds(m: Streams): set<string>
  {
    ActiveAmong(m, m.Keys)
  }

  /** The number of active records; never more than the number of records. */
  function ActiveCount(m: Streams): (n: nat)
    ensures n <= |m|
  {
    SubsetCard(ActiveIds(m), m.Keys);
    |ActiveIds(m)|
  }

  lemma {:induction false} SubsetCard(a: set<string>, b: set<string>)
    requires a <= b
    ensures |a| <= |b|
  {
    if a != {} {
      var x :| x in a;
      SubsetCard(a - {x}, b - {x});
    }
  }

  // ---------------------------------------------------------------------
  // One tick of cleanupWorker (manager.go:178-202)
  // ---------------------------------------------------------------------

  /** The eviction rule of line 192: active, and idle for longer than the delay. */
  predicate Idle(s: StreamInfo, now: int, cleanupDelay: int): (idle: bool)
    // stopped records are never idle, whatever the clock says
    ensures idle ==> s.isActive
    // with a non-negative delay, a record accessed at `now` or later is not idle
    ensures cleanupDelay >= 0 && s.lastAccess >= now ==> !idle
  {
    s.isActive && now - s.lastAccess > cleanupDelay
  }

  /** The ids one sweep at `now` evicts. */
  function Evicted(m: Streams, now: int, cleanupDelay: int): (r: set<string>)
    ensures r <= ActiveIds(m)
    ensures forall id :: id in r <==> id in m && Idle(m[id], now, cleanupDelay)
  {
    set id | id in m && Idle(m[id], now, cleanupDelay)
  }

  /** The registry after one sweep at `now`. */
  function Swept(m: Streams, now: int, cleanupDelay: int): (r: Streams)
    ensures r.Keys == m.Keys - Evicted(m, now, cleanupDelay)
    // survivors are untouched and not idle
    ensures forall id :: id in r ==> r[id] == m[id] && !Idle(m[id], now, cleanupDelay)
    // records already stopped are never removed, nor are records accessed within the delay
    ensures forall id :: id in m && !m[id].isActive ==> id in r
    ensures forall id :: id in m && now - m[id].lastAccess <= cleanupDelay ==> id in r
    ensures WellKeyed(m) ==> WellKeyed(r)
  {
    m - Evicted(m, now, cleanupDelay)
  }

  // ---------------------------------------------------------------------
  // The exit observer started by StartStream (manager.go:91-99)
  // ---------------------------------------------------------------------

  /**
   * As written: when cmd.Wait returns an error, whatever record is now
   * under the id is marked stopped, whichever process it belongs to.
   */
  function Exit(m: Streams, id: string, waitFailed: bool): (r: Streams)
    ensures waitFailed && id in m ==>
      && r.Keys == m.Keys
      && r[id] == m[id].(isActive := false)
    ensures !waitFailed || id !in m ==> r == m
    ensures r - {id} == m - {id}
    ensures WellKeyed(m) ==> WellKeyed(r)
  {
    if waitFailed && id in m then m[id := m[id].(isActive := false)] else m
  }

  /**
   * Corrected: the observer of process `process` only marks the record
   * that still belongs to that process.
   */
  function ExitOf(m: Streams, id: string, process: Handle, waitFailed: bool): (r: Streams)
    ensures waitFailed && id in m && m[id].process == process ==>
      && r.Keys == m.Keys
      && r[id] == m[id].(isActive := false)
    // a stale observer (its process no longer owns the record) changes nothing
    ensures id in m && m[id].process != process ==> r == m
    ensures !waitFailed || id !in m ==> r == m
    ensures r - {id} == m - {id}
    ensures WellKeyed(m) ==> WellKeyed(r)
  {
    if waitFailed && id in m && m[id].process == process then m[id := m[id].(isActive := false)] else m
  }
}
