/**
 * The Manager of internal/stream/manager.go as a class whose methods update
 * the `streams` map in place, one method per locked section.
 *
 * The ghost set `dirs` stands for the file system: the ids whose per-stream
 * output directory (StreamDir/<id>) exists. os.MkdirAll adds an id,
 * cleanupStreamFiles (os.RemoveAll) removes it. The ghost set `issued`
 * holds every process handle the manager has started: exec.Command (line 62)
 * builds a new *exec.Cmd on every fresh start, so no handle is issued twice.
 */
module StreamManager {
  import opened StreamSpec

  /**
   * Every record's process was issued by the manager, and no two records
   * share a process: each ffmpeg process belongs to exactly one stream.
   */
  ghost predicate OwnsProcesses(m: Streams, issued: set<Handle>)
  {
    && (forall id :: id in m ==> m[id].process in issued)
    && (forall a, b :: a in m && b in m && a != b ==> m[a].process != m[b].process)
  }

  /** Removing records, and touching anything but the process, keeps ownership. */
  lemma OwnsProcessesKept(m: Streams, m': Streams, issued: set<Handle>)
    requires OwnsProcesses(m, issued)
    requires m'.Keys <= m.Keys
    requires forall id :: id in m' ==> m'[id].process == m[id].process
    ensures OwnsProcesses(m', issued)
  {
  }

  /**
   * One visit of the sweep: with the ids in `todo` still to visit, the ids
   * of `gone` already visited have been deleted; visiting `id` deletes it
   * exactly when it is in `gone`.
   */
  lemma SweepVisit(m0: Streams, gone: set<string>, todo: set<string>, id: string)
    requires gone <= m0.Keys && id in todo && todo <= m0.Keys
    ensures id in m0 - (gone - todo) && (m0 - (gone - todo))[id] == m0[id]
    ensures m0 - (gone - (todo - {id})) ==
            if id in gone then (m0 - (gone - todo)) - {id} else m0 - (gone - todo)
  {
  }

  class Manager {
    // config.Config, fixed at construction
    const streamDir: string
    const cleanupDelay: int     // nanoseconds
    const hlsSegmentTime: int
    const hlsListSize: int

    var streams: Streams
    ghost var dirs: set<string>
    ghost var issued: set<Handle>

    /**
     * Every record sits under its own id, every record's directory exists,
     * and every record owns its own process.
     */
    ghost predicate Valid()
      reads this
    {
      WellKeyed(streams) && streams.Keys <= dirs && OwnsProcesses(streams, issued)
    }

    /**
     * NewManager (manager.go:31-43), without the base directory and the
     * cleanup goroutine. Per-stream directories left by an earlier run may
     * already exist: they are `existingDirs`.
     */
    constructor (streamDir: string, cleanupDelay: int, hlsSegmentTime: int, hlsListSize: int,
                 ghost existingDirs: set<string>)
      ensures Valid()
      ensures streams == map[] && dirs == existingDirs && issued == {}
      ensures this.streamDir == streamDir && this.cleanupDelay == cleanupDelay
      ensures this.hlsSegmentTime == hlsSegmentTime && this.hlsListSize == hlsListSize
    {
      this.streamDir := streamDir;
      this.cleanupDelay := cleanupDelay;
      this.hlsSegmentTime := hlsSegmentTime;
      this.hlsListSize := hlsListSize;
      streams := map[];
      dirs := existingDirs;
      issued := {};
    }

    method StartStream(id: string, rtspLink: string, now: int, mkdirOk: bool, spawn: Option<Handle>)
      returns (r: Result<string>)
      requires Valid()
      // cmd.Start hands out a process no earlier start produced
      requires spawn.Some? ==> spawn.value !in issued
      modifies this
      ensures Valid()
      ensures Step(streams, r) == Start(old(streams), id, rtspLink, now, mkdirOk, spawn)
      // the directory is created before the spawn, and stays when the spawn fails
      ensures dirs == if old(IsLive(streams, id)) || !mkdirOk then old(dirs) else old(dirs) + {id}
      // a fresh start issues a new process, so no observer of an earlier process can match it
      ensures issued == if r.Ok? && !old(IsLive(streams, id)) then old(issued) + {spawn.value} else old(issued)
      ensures r.Ok? && !old(IsLive(streams, id)) ==> streams[id].process !in old(issued)
    {
      if id in streams && streams[id].isActive {
        streams := streams[id := streams[id].(lastAccess := now)];
        return Ok(streams[id].streamPath);
      }
      if !mkdirOk {
        return Err(DirectoryFailed);
      }
      dirs := dirs + {id};
      var streamPath := StreamPath(id);
      if spawn.None? {
        return Err(SpawnFailed);
      }
      var info := StreamInfo(id, rtspLink, spawn.value, now, now, streamPath, true);
      streams := streams[id := info];
      issued := issued + {spawn.value};
      r := Ok(streamPath);
    }

    method StopStream(id: string, killOk: bool) returns (r: Outcome)
      requires Valid()
      modifies this
      ensures Valid()
      ensures Step(streams, r) == Stop(old(streams), id, killOk)
      ensures dirs == if r.Pass? then old(dirs) - {id} else old(dirs)
      ensures issued == old(issued)
    {
      if id !in streams {
        return Fail(StreamNotFound);
      }
      var stream := streams[id];
      if stream.isActive {
        if !killOk {
          return Fail(KillFailed);
        }
        streams := streams[id := stream.(isActive := false)];
      }
      dirs := dirs - {id};
      streams := streams - {id};
      OwnsProcessesKept(old(streams), streams, issued);
      r := Pass;
    }

    method GetStreamStatus(id: string) returns (status: string)
      ensures status == Status(streams, id)
      ensures status in {"not_found", "stopped", "active"}
    {
      if id !in streams {
        return "not_found";
      }
      if !streams[id].isActive {
        return "stopped";
      }
      return "active";
    }

    method UpdateStreamAccess(id: string, now: int) returns (r: Outcome)
      requires Valid()
      modifies this
      ensures Valid() && dirs == old(dirs) && issued == old(issued)
      ensures Step(streams, r) == Touch(old(streams), id, now)
    {
      if id !in streams {
        return Fail(StreamNotFound);
      }
      if !streams[id].isActive {
        return Fail(StreamNotActive);
      }
      streams := streams[id := streams[id].(lastAccess := now)];
      r := Pass;
    }

    /** Counts active records by visiting every entry once, in no particular order. */
    method GetActiveStreamCount() returns (count: nat)
      ensures count == ActiveCount(streams)
    {
      count := 0;
      var todo := streams.Keys;
      while todo != {}
        invariant todo <= streams.Keys
        invariant count == |ActiveAmong(streams, streams.Keys - todo)|
        decreases todo
      {
        var id :| id in todo;
        var seen := streams.Keys - todo;
        if streams[id].isActive {
          assert ActiveAmong(streams, seen + {id}) == ActiveAmong(streams, seen) + {id};
          count := count + 1;
        } else {
          assert ActiveAmong(streams, seen + {id}) == ActiveAmong(streams, seen);
        }
        todo := todo - {id};
        assert streams.Keys - todo == seen + {id};
      }
      assert streams.Keys - todo == streams.Keys;
    }

    /**
     * One tick of cleanupWorker at time `now`: visits every entry and deletes
     * the idle active ones. Go allows deleting the entry being visited, and a
     * deleted entry is never visited again, so visiting a snapshot of the keys
     * is the same. Kill errors are ignored there, so no outcome is needed.
     */
    method Sweep(now: int)
      requires Valid()
      modifies this
      ensures Valid()
      ensures streams == Swept(old(streams), now, cleanupDelay)
      ensures dirs == old(dirs) - Evicted(old(streams), now, cleanupDelay)
      ensures issued == old(issued)
    {
      ghost var m0 := streams;
      ghost var gone := Evicted(m0, now, cleanupDelay);
      var todo := streams.Keys;
      while todo != {}
        invariant todo <= m0.Keys
        invariant streams == m0 - (gone - todo)
        invariant dirs == old(dirs) - (gone - todo)
        invariant issued == old(issued)
        decreases todo
      {
        var id :| id in todo;
        SweepVisit(m0, gone, todo, id);
        var stream := streams[id];
        if stream.isActive && now - stream.lastAccess > cleanupDelay {
          dirs := dirs - {id};
          streams := streams - {id};
        }
        todo := todo - {id};
      }
      assert streams == Swept(m0, now, cleanupDelay);
      OwnsProcessesKept(m0, streams, issued);
    }

    /** The goroutine of manager.go:91-99 as written, once cmd.Wait has returned. */
    method OnProcessExit(id: string, waitFailed: bool)
      requires Valid()
      modifies this
      ensures Valid() && dirs == old(dirs) && issued == old(issued)
      ensures streams == Exit(old(streams), id, waitFailed)
    {
      if waitFailed && id in streams {
        streams := streams[id := streams[id].(isActive := false)];
      }
    }

    /** The same observer, corrected to act only on the record of its own process. */
    method OnProcessExitOf(id: string, process: Handle, waitFailed: bool)
      requires Valid()
      modifies this
      ensures Valid() && dirs == old(dirs) && issued == old(issued)
      ensures streams == ExitOf(old(streams), id, process, waitFailed)
    {
      if waitFailed && id in streams && streams[id].process == process {
        streams := streams[id := streams[id].(isActive := false)];
      }
    }
  }
}
