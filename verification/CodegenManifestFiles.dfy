/** One process upserting its entry: the file system it shares and the calls it makes, one by one. */
module CodegenManifestFiles {
  import opened Wrappers
  import M = CodegenManifest

  /** The `.zelt` directory as every process sees it. */
  class Directory {
    var lock: bool
    var manifest: Option<M.Contents>
    var temps: map<nat, M.Contents>
    var nextTemp: nat

    ghost function State(): M.Disk
      reads this
    {
      M.Disk(lock, manifest, temps, nextTemp)
    }

    constructor (manifest: Option<M.Contents>)
      ensures State() == M.Initial(manifest, map[], 0).disk
    {
      lock, this.manifest, temps, nextTemp := false, manifest, map[], 0;
    }

    /** mkdir without `recursive`: creates the lock or reports that it exists. */
    method MakeDirectory() returns (created: bool)
      modifies this`lock
      ensures lock && (created <==> !old(lock))
    {
      created := !lock;
      lock := true;
    }
  }

  class Upserter {
    const directory: Directory
    const entry: M.Entry
    const le: M.Collation
    var frame: M.Frame

    constructor (directory: Directory, entry: M.Entry, le: M.Collation)
      ensures this.directory == directory && this.entry == entry && this.le == le && frame == M.Acquiring
    {
      this.directory, this.entry, this.le := directory, entry, le;
      frame := M.Acquiring;
    }

    /** One turn of acquireManifestLock's loop; `stale` and `late` are what the clock says of the lock and of this call. */
    method TryAcquire(stale: bool, late: bool) returns (a: M.Action)
      requires frame.Acquiring?
      modifies this`frame, directory
      ensures old(M.CanAct(directory.State(), frame, a))
      ensures (directory.State(), frame) == old(M.Act(directory.State(), frame, entry, a, le))
      ensures !old(directory.lock) ==> a.MakeLock?
      ensures old(directory.lock) ==> a == if stale then M.SeeStale else if late then M.TimeOut else M.MakeLock
    {
      var created := directory.MakeDirectory();
      if created {
        frame := M.Locked;
        return M.MakeLock;
      }
      if stale {
        frame := M.Reclaiming;
        return M.SeeStale;
      }
      if late {
        frame := M.Finished(false);
        return M.TimeOut;
      }
      return M.MakeLock;
    }

    method Reclaim()
      requires frame.Reclaiming?
      modifies this`frame, directory`lock
      ensures (directory.State(), frame) == old(M.Act(directory.State(), frame, entry, M.RemoveStale, le))
    {
      directory.lock := false;
      frame := M.Acquiring;
    }

    method Read()
      requires frame.Locked?
      modifies this`frame
      ensures (directory.State(), frame) == old(M.Act(directory.State(), frame, entry, M.Read, le))
    {
      var existing := M.ReadManifest(directory.manifest);
      frame := if existing.Some? then M.HasRead(existing.value) else M.Releasing(false);
    }

    /** Starts writing the next manifest to a temporary file of its own. */
    method BeginWrite()
      requires frame.HasRead?
      modifies this`frame, directory`temps, directory`nextTemp
      ensures (directory.State(), frame) == old(M.Act(directory.State(), frame, entry, M.BeginWrite, le))
    {
      var next := M.Upsert(frame.existing, entry, le);
      var tmp := directory.nextTemp;
      directory.nextTemp := tmp + 1;
      directory.temps := directory.temps[tmp := M.Truncated];
      frame := M.Writing(tmp, next);
    }

    method EndWrite()
      requires frame.Writing?
      modifies this`frame, directory`temps
      ensures (directory.State(), frame) == old(M.Act(directory.State(), frame, entry, M.EndWrite, le))
    {
      directory.temps := directory.temps[frame.tmp := M.Write(frame.next)];
      frame := M.Written(frame.tmp, frame.next);
    }

    method Rename()
      requires frame.Written? && frame.tmp in directory.temps
      modifies this`frame, directory`manifest, directory`temps
      ensures (directory.State(), frame) == old(M.Act(directory.State(), frame, entry, M.Rename, le))
    {
      directory.manifest := Some(directory.temps[frame.tmp]);
      directory.temps := directory.temps - {frame.tmp};
      frame := M.Releasing(true);
    }

    method Release()
      requires frame.Releasing?
      modifies this`frame, directory`lock
      ensures (directory.State(), frame) == old(M.Act(directory.State(), frame, entry, M.Release, le))
    {
      directory.lock := false;
      frame := M.Finished(frame.ok);
    }
  }
}
