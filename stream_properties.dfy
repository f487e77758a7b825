/**
 * Properties of the stream registry that relate several operations: the
 * playlist path names its stream, the active count moves as the operations
 * promise, heartbeats keep streams alive across sweeps, access times never
 * go backwards over any run, and the request sequence clients follow.
 */
module StreamProperties {
  import opened StreamSpec

  // ---------------------------------------------------------------------
  // Playlist paths
  // ---------------------------------------------------------------------

  /** Every path IdOfStreamPath accepts is the playlist path of the id it returns. */
  lemma IdOfStreamPathSound(p: string, id: string)
    requires IdOfStreamPath(p) == Some(id)
    ensures StreamPath(id) == p
  {
  }

  /** Two streams never share a playlist. */
  lemma StreamPathInjective(a: string, b: string)
    requires StreamPath(a) == StreamPath(b)
    ensures a == b
  {
  }

  // ---------------------------------------------------------------------
  // The active count
  // ---------------------------------------------------------------------

  /**
   * A second StartStream while the stream is active hands out the same
   * playlist, spawns nothing and leaves the set of streams and the active
   * count as they were.
   */
  lemma StartIsIdempotent(m: Streams, id: string, link: string, now: int, mkdirOk: bool, spawn: Option<Handle>,
                          link2: string, now2: int, mkdirOk2: bool, spawn2: Option<Handle>)
    requires Start(m, id, link, now, mkdirOk, spawn).result.Ok?
    ensures var first := Start(m, id, link, now, mkdirOk, spawn);
            var second := Start(first.streams, id, link2, now2, mkdirOk2, spawn2);
            && second.result == first.result
            && second.streams.Keys == first.streams.Keys
            && second.streams[id].process == first.streams[id].process
            && ActiveCount(second.streams) == ActiveCount(first.streams)
  {
    var first := Start(m, id, link, now, mkdirOk, spawn);
    var second := Start(first.streams, id, link2, now2, mkdirOk2, spawn2);
    assert ActiveIds(second.streams) == ActiveIds(first.streams);
  }

  /** A successful start of a stream that was not active adds exactly one active stream. */
  lemma FreshStartAddsOne(m: Streams, id: string, link: string, now: int, mkdirOk: bool, spawn: Option<Handle>)
    requires !IsLive(m, id)
    requires Start(m, id, link, now, mkdirOk, spawn).result.Ok?
    ensures ActiveCount(Start(m, id, link, now, mkdirOk, spawn).streams) == ActiveCount(m) + 1
  {
    var r := Start(m, id, link, now, mkdirOk, spawn).streams;
    assert ActiveIds(r) == ActiveIds(m) + {id};
  }

  /** A successful stop removes one active stream if the record was active, none if it was stopped. */
  lemma StopCount(m: Streams, id: string, killOk: bool)
    requires Stop(m, id, killOk).result.Pass?
    ensures ActiveCount(Stop(m, id, killOk).streams) == ActiveCount(m) - (if m[id].isActive then 1 else 0)
  {
    var r := Stop(m, id, killOk).streams;
    if m[id].isActive {
      assert ActiveIds(r) == ActiveIds(m) - {id};
    } else {
      assert ActiveIds(r) == ActiveIds(m);
    }
  }

  /** A sweep lowers the active count by exactly the number of streams it evicts. */
  lemma SweepCount(m: Streams, now: int, cleanupDelay: int)
    ensures ActiveCount(Swept(m, now, cleanupDelay)) == ActiveCount(m) - |Evicted(m, now, cleanupDelay)|
  {
    var gone := Evicted(m, now, cleanupDelay);
    assert ActiveIds(Swept(m, now, cleanupDelay)) == ActiveIds(m) - gone;
  }

  // ---------------------------------------------------------------------
  // Sweeping
  // ---------------------------------------------------------------------

  /** A second sweep at the same instant finds nothing more to evict. */
  lemma SweepIdempotent(m: Streams, now: int, cleanupDelay: int)
    ensures Swept(Swept(m, now, cleanupDelay), now, cleanupDelay) == Swept(m, now, cleanupDelay)
  {
  }

  /** A stream heartbeated at `t` survives every sweep up to `t + cleanupDelay`, with its record intact. */
  lemma HeartbeatKeepsAlive(m: Streams, id: string, t: int, now: int, cleanupDelay: int)
    requires Touch(m, id, t).result == Pass
    requires now - t <= cleanupDelay
    ensures var r := Swept(Touch(m, id, t).streams, now, cleanupDelay);
            IsLive(r, id) && r[id] == m[id].(lastAccess := t) && Status(r, id) == "active"
  {
  }

  /** Once idle, a record stays idle at every later instant until it is accessed again. */
  lemma IdleStaysIdle(s: StreamInfo, now: int, later: int, cleanupDelay: int)
    requires Idle(s, now, cleanupDelay) && later >= now
    ensures Idle(s, later, cleanupDelay)
  {
  }

  /** An active stream left idle for longer than the delay is gone after the next sweep. */
  lemma IdleStreamIsReclaimed(m: Streams, id: string, now: int, cleanupDelay: int)
    requires IsLive(m, id) && now - m[id].lastAccess > cleanupDelay
    ensures Status(Swept(m, now, cleanupDelay), id) == "not_found"
    ensures ActiveCount(Swept(m, now, cleanupDelay)) < ActiveCount(m)
  {
    SweepCount(m, now, cleanupDelay);
    assert id in Evicted(m, now, cleanupDelay);
  }

  // ---------------------------------------------------------------------
  // The exit observer
  // ---------------------------------------------------------------------

  /**
   * After a failed Wait the record stays, reported as stopped: heartbeats
   * are refused, no sweep ever removes it, and the next StartStream
   * replaces it with a fresh process.
   */
  lemma ExitedStreamIsStopped(m: Streams, id: string, now: int, cleanupDelay: int,
                              link: string, spawned: Handle)
    requires id in m
    ensures var r := Exit(m, id, true);
            && Status(r, id) == "stopped"
            && Touch(r, id, now).result == Fail(StreamNotActive)
            && id in Swept(r, now, cleanupDelay)
            && Start(r, id, link, now, true, Some(spawned)).streams[id].process == spawned
  {
  }

  /**
   * The observer of a killed process can outlive its record: stop "cam1"
   * (killing process h1, whose Wait then fails), start "cam1" again on
   * process h2, and only then let h1's observer take the lock. As written it
   * marks h2's record stopped: the running stream is reported stopped,
   * heartbeats for it are refused, and no sweep will ever reclaim it. The
   * corrected observer leaves it active.
   */
  lemma StaleObserverStopsReplacement(link: string, t0: int, t1: int, h1: Handle, h2: Handle,
                                      now: int, cleanupDelay: int)
    requires h1 != h2
    ensures var m1 := Start(map[], "cam1", link, t0, true, Some(h1)).streams;
            var m2 := Stop(m1, "cam1", true).streams;
            var m3 := Start(m2, "cam1", link, t1, true, Some(h2)).streams;
            var m4 := Exit(m3, "cam1", true);
            && m4["cam1"].process == h2
            && Status(m4, "cam1") == "stopped"
            && Touch(m4, "cam1", now).result == Fail(StreamNotActive)
            && Swept(m4, now, cleanupDelay) == m4
            && ExitOf(m3, "cam1", h1, true) == m3
            && Status(ExitOf(m3, "cam1", h1, true), "cam1") == "active"
  {
  }

  /**
   * With the corrected observer, the observer of the process a stream had
   * before it was stopped never affects the stream started after it.
   */
  lemma CorrectedObserverSparesReplacement(m: Streams, id: string, killOk: bool, link: string, now: int,
                                           old_process: Handle, new_process: Handle)
    requires id in m && m[id].process == old_process && old_process != new_process
    requires Stop(m, id, killOk).result == Pass
    ensures var m3 := Start(Stop(m, id, killOk).streams, id, link, now, true, Some(new_process)).streams;
            && ExitOf(m3, id, old_process, true) == m3
            && Status(ExitOf(m3, id, old_process, true), id) == "active"
  {
  }

  /** The request sequence of a client: start twice, heartbeat, stop, look, stop again. */
  lemma ClientScenario(link: string, t0: int, t1: int, t2: int, h1: Handle, h2: Handle)
    requires t0 <= t1 <= t2
    ensures var s1 := Start(map[], "cam1", link, t0, true, Some(h1));
            var s2 := Start(s1.streams, "cam1", link, t1, true, Some(h2));
            var s3 := Touch(s2.streams, "cam1", t2);
            var s4 := Stop(s3.streams, "cam1", true);
            var s5 := Stop(s4.streams, "cam1", true);
            && s1.result == Ok("/streams/cam1/stream.m3u8")
            && Status(s1.streams, "cam1") == "active"
            && s2.result == s1.result
            && s2.streams["cam1"].process == h1
            && ActiveCount(s2.streams) == 1
            && s3.result == Pass
            && s4.result == Pass
            && Status(s4.streams, "cam1") == "not_found"
            && s5.result == Fail(StreamNotFound)
  {
    var s1 := Start(map[], "cam1", link, t0, true, Some(h1));
    var s2 := Start(s1.streams, "cam1", link, t1, true, Some(h2));
    assert StreamPath("cam1") == "/streams/cam1/stream.m3u8";
    assert s2.streams.Keys == {"cam1"};
    assert ActiveIds(s2.streams) == {"cam1"};
  }

  // ---------------------------------------------------------------------
  // Whole runs
  // ---------------------------------------------------------------------

  /** One locked section of the Manager, with what it observes of the outside world. */
  datatype Op =
    | StartOp(id: string, rtspLink: string, now: int, mkdirOk: bool, spawn: Option<Handle>)
    | StopOp(id: string, killOk: bool)
    | TouchOp(id: string, now: int)
    | SweepOp(now: int, cleanupDelay: int)
    | ExitOp(id: string, waitFailed: bool)
    | ExitOfOp(id: string, process: Handle, waitFailed: bool)

  function Apply(m: Streams, op: Op): Streams
  {
    match op
    case StartOp(id, link, now, mkdirOk, spawn) => Start(m, id, link, now, mkdirOk, spawn).streams
    case StopOp(id, killOk) => Stop(m, id, killOk).streams
    case TouchOp(id, now) => Touch(m, id, now).streams
    case SweepOp(now, delay) => Swept(m, now, delay)
    case ExitOp(id, waitFailed) => Exit(m, id, waitFailed)
    case ExitOfOp(id, process, waitFailed) => ExitOf(m, id, process, waitFailed)
  }

  /** The latest clock reading once `op` has run, `clock` being the latest before. */
  function ClockAfter(op: Op, clock: int): int
  {
    if op.StartOp? || op.TouchOp? || op.SweepOp? then op.now else clock
  }

  /** The operations read a clock that never goes backwards (Go's monotonic time.Now). */
  predicate ClockOrdered(ops: seq<Op>, clock: int)
    decreases |ops|
  {
    ops == [] || (ClockAfter(ops[0], clock) >= clock && ClockOrdered(ops[1..], ClockAfter(ops[0], clock)))
  }

  /** The latest clock reading once all of `ops` have run. */
  function FinalClock(ops: seq<Op>, clock: int): int
    decreases |ops|
  {
    if ops == [] then clock else FinalClock(ops[1..], ClockAfter(ops[0], clock))
  }

  function Run(m: Streams, ops: seq<Op>): Streams
    decreases |ops|
  {
    if ops == [] then m else Run(Apply(m, ops[0]), ops[1..])
  }

  /**
   * The registry invariant with time: records sit under their own ids, and
   * every record started no later than it was last accessed, which is no
   * later than the clock.
   */
  predicate Consistent(m: Streams, clock: int)
  {
    WellKeyed(m) && forall id :: id in m ==> m[id].startTime <= m[id].lastAccess <= clock
  }

  /**
   * Going from `m` (at time `clock`) to `m'`, no access time goes backwards:
   * a record still there was accessed no earlier than before, and a record
   * that is new was accessed no earlier than `clock`.
   */
  predicate AccessNotEarlier(m: Streams, m': Streams, clock: int)
  {
    forall id :: id in m' ==> (if id in m then m[id].lastAccess else clock) <= m'[id].lastAccess
  }

  lemma ApplyConsistent(m: Streams, op: Op, clock: int)
    requires Consistent(m, clock)
    requires ClockAfter(op, clock) >= clock
    ensures Consistent(Apply(m, op), ClockAfter(op, clock))
    ensures AccessNotEarlier(m, Apply(m, op), clock)
  {
  }

  /**
   * Over any run whose clock never goes backwards the invariant holds at the
   * end, and no id's access time ends up earlier than where it started.
   */
  lemma {:induction false} RunConsistent(m: Streams, ops: seq<Op>, clock: int)
    requires Consistent(m, clock)
    requires ClockOrdered(ops, clock)
    ensures FinalClock(ops, clock) >= clock
    ensures Consistent(Run(m, ops), FinalClock(ops, clock))
    ensures AccessNotEarlier(m, Run(m, ops), clock)
    decreases |ops|
  {
    if ops != [] {
      var c1 := ClockAfter(ops[0], clock);
      var m1 := Apply(m, ops[0]);
      ApplyConsistent(m, ops[0], clock);
      RunConsistent(m1, ops[1..], c1);
      var final := Run(m, ops);
      assert final == Run(m1, ops[1..]);
      forall id | id in final
        ensures (if id in m then m[id].lastAccess else clock) <= final[id].lastAccess
      {
        if id in m1 {
          assert m1[id].lastAccess <= final[id].lastAccess;
        }
      }
    }
  }
}
