/** The applier as an object whose methods update its records and the files under its root. */
module ChangeApplier {
  import opened ByteStrings
  import opened CopyNames
  import opened Events
  import opened ApplyModel
  import opened ApplyProofs

  class ChangeApplier {
    const digest: Digest
    const strategy: ConflictStrategy

    /** The regular files under the root, and those under its internal temporary directory. */
    var files: map<Path, Bytes>
    var temps: map<Path, Bytes>

    var lastSyncedHash: map<Path, Baseline>
    var pendingRemoteFiles: map<Path, Expected>
    var blockedRemoteFiles: set<Path>

    ghost function View(): Applier
      reads this
    {
      Applier(files, temps, lastSyncedHash, pendingRemoteFiles, blockedRemoteFiles)
    }

    /** The temporary file of a pending transfer exists: it was created with the transfer. */
    ghost predicate Valid()
      reads this
    {
      pendingRemoteFiles.Keys <= temps.Keys
    }

    constructor (digest: Digest, strategy: ConflictStrategy, files: map<Path, Bytes>)
      ensures this.digest == digest && this.strategy == strategy
      ensures Valid() && View() == Applier(files, map[], map[], map[], {})
    {
      this.digest, this.strategy := digest, strategy;
      this.files, temps := files, map[];
      lastSyncedHash, pendingRemoteFiles, blockedRemoteFiles := map[], map[], {};
    }

    method DetectConflict(path: Path, remoteHash: Hash, remoteSize: nat, remoteTime: int, localTime: int)
        returns (conflict: Option<ConflictInfo>)
      ensures conflict ==
        if Conflicts(digest, strategy, Get(View(), path), remoteHash, remoteTime, localTime)
        then Some(ConflictInfo(path, digest(files[path]), |files[path]|, remoteHash, remoteSize))
        else None
    {
      if path !in files {
        return None;
      }
      var localHash, localSize := digest(files[path]), |files[path]|;
      if localHash == remoteHash {
        return None;
      }
      if path in lastSyncedHash {
        if localHash == lastSyncedHash[path].hash {
          return None;
        }
        match strategy
        case LastWriteWins =>
          if remoteTime >= localTime {
            return None;
          }
          return Some(ConflictInfo(path, localHash, localSize, remoteHash, remoteSize));
        case KeepBoth =>
          return Some(ConflictInfo(path, localHash, localSize, remoteHash, remoteSize));
      }
      return None;
    }

    method PrepareTransfer(path: Path, expectedHash: Hash, expectedSize: nat)
      requires Valid()
      modifies this
      ensures Valid()
      ensures View() == Put(old(View()), path, Prepare(digest, Get(old(View()), path), expectedHash, expectedSize))
    {
      hide Put;
      ghost var before := View();
      blockedRemoteFiles := blockedRemoteFiles - {path};
      pendingRemoteFiles := pendingRemoteFiles - {path};
      if expectedSize == 0 {
        files := files[path := []];
        lastSyncedHash := lastSyncedHash[path := Baseline(digest([]), 0)];
      } else {
        temps := temps[path := []];
        pendingRemoteFiles := pendingRemoteFiles[path := Expected(expectedHash, expectedSize)];
      }
      SameSlots(before, View(), path, Prepare(digest, Get(before, path), expectedHash, expectedSize));
    }

    /** Two appliers that differ at most in one slot are one update of the other. */
    lemma {:induction false} SameSlots(before: Applier, after: Applier, path: Path, s: Slot)
      requires forall q: Path :: Get(after, q) == if q == path then s else Get(before, q)
      ensures after == Put(before, path, s)
    {
      hide Get, Put;
      forall q: Path ensures Get(after, q) == Get(Put(before, path, s), q) {
        GetPut(before, path, s, q);
      }
      EqualSlots(after, Put(before, path, s));
    }

    method TryCommitTransfer(path: Path)
      requires Valid() && path in pendingRemoteFiles
      modifies this
      ensures Valid()
      ensures View() == Put(old(View()), path, Commit(digest, Get(old(View()), path)))
    {
      ghost var before := View();
      ghost var target := Commit(digest, Get(before, path));
      var expected, temp := pendingRemoteFiles[path], temps[path];
      var currentSize := |temp|;
      if currentSize < expected.size || currentSize > expected.size || digest(temp) != expected.hash {
        SameSlots(before, View(), path, target);
        return;
      }
      pendingRemoteFiles := pendingRemoteFiles - {path};
      files := files[path := temp];
      temps := temps - {path};
      lastSyncedHash := lastSyncedHash[path := Baseline(expected.hash, expected.size)];
      SameSlots(before, View(), path, target);
    }

    method WriteDirectChunk(path: Path, offset: nat, data: Bytes)
      requires Valid()
      modifies this
      ensures Valid()
      ensures View() == Put(old(View()), path, WriteDirect(digest, Get(old(View()), path), offset, data))
    {
      ghost var before := View();
      var content := if offset != 0 && path in files then files[path] else [];
      var written := WriteAt(content, offset, data);
      files := files[path := written];
      lastSyncedHash := lastSyncedHash[path := Baseline(digest(written), |written|)];
      SameSlots(before, View(), path, WriteDirect(digest, Get(before, path), offset, data));
    }

    method WritePendingChunk(path: Path, offset: nat, data: Bytes)
      requires Valid() && path !in blockedRemoteFiles
      modifies this
      ensures Valid()
      ensures View() == Put(old(View()), path, WriteContent(digest, Get(old(View()), path), offset, data))
    {
      if path !in pendingRemoteFiles {
        WriteDirectChunk(path, offset, data);
        return;
      }
      ghost var before := View();
      temps := temps[path := WriteAt(temps[path], offset, data)];
      ghost var written := Get(View(), path);
      SameSlots(before, View(), path, written);
      TryCommitTransfer(path);
      PutTwice(before, path, written, Commit(digest, written));
    }

    lemma {:induction false} PutTwice(a: Applier, path: Path, s: Slot, s': Slot)
      ensures Put(Put(a, path, s), path, s') == Put(a, path, s')
    {
      hide Get, Put;
      forall q: Path ensures Get(Put(Put(a, path, s), path, s'), q) == Get(Put(a, path, s'), q) {
        GetPut(a, path, s, q);
        GetPut(a, path, s', q);
        GetPut(Put(a, path, s), path, s', q);
      }
      EqualSlots(Put(Put(a, path, s), path, s'), Put(a, path, s'));
    }

    /** The first free copy name, trying the plain tag and then the numbers 1 to 999. */
    method KeepBothPath(path: Path) returns (copy: Path)
      ensures copy == CopyPath(files.Keys, path)
    {
      var candidate := CopyName(path, 0);
      if candidate !in files {
        return candidate;
      }
      assert FirstFree(files.Keys, path, 0) == FirstFree(files.Keys, path, 1);
      for i := 1 to COPY_LIMIT
        invariant FirstFree(files.Keys, path, 0) == FirstFree(files.Keys, path, i)
      {
        var numbered := CopyName(path, i);
        if numbered !in files {
          return numbered;
        }
      }
      return candidate;
    }

    /** `FileCreated` and `FileModified`: resolve a conflict, then open the transfer. */
    method ApplyMetadata(event: SyncEvent, remoteTime: int, localTime: int) returns (conflict: Option<ConflictInfo>)
      requires Valid() && IsMetadata(event)
      modifies this
      ensures Valid()
      ensures View() == Deliver(digest, strategy, old(View()), Delivery(event, remoteTime, localTime))
      ensures conflict == Report(digest, strategy, old(View()), event, remoteTime, localTime)
    {
      hide Prepare, CopyPath, Put;
      ghost var before := View();
      var path := event.path;
      conflict := DetectConflict(path, event.hash, event.size, remoteTime, localTime);
      if conflict.Some? {
        match strategy
        case LastWriteWins =>
          if event.FileModified? {
            pendingRemoteFiles := pendingRemoteFiles - {path};
          }
          blockedRemoteFiles := blockedRemoteFiles + {path};
          SameSlots(before, View(), path, Block(event, Get(before, path)));
          return;
        case KeepBoth =>
          if path in files {
            var copy := KeepBothPath(path);
            files := (files - {path})[copy := files[path]];
            assert View() == MoveAside(before, path, copy);
          }
      }
      PrepareTransfer(path, event.hash, event.size);
    }

    /** Forgets everything at or under `dir`, and deletes it unless it is a regular file. */
    method RemoveDir(dir: Path) returns (failed: bool)
      requires Valid()
      modifies this
      ensures Valid() && View() == DeleteDir(old(View()), dir)
      ensures failed <==> Fails(old(View()), DirDeleted(dir))
    {
      failed := dir in files;
      lastSyncedHash := map p | p in lastSyncedHash && !(dir <= p) :: lastSyncedHash[p];
      pendingRemoteFiles := map p | p in pendingRemoteFiles && !(dir <= p) :: pendingRemoteFiles[p];
      blockedRemoteFiles := set p | p in blockedRemoteFiles && !(dir <= p);
      temps := map p | p in temps && !(dir < p) :: temps[p];
      files := map p | p in files && !(dir < p) :: files[p];
    }

    /** Forgets and deletes one file. */
    method RemoveFile(path: Path)
      requires Valid()
      modifies this
      ensures Valid() && View() == Put(old(View()), path, CLEARED)
    {
      pendingRemoteFiles := pendingRemoteFiles - {path};
      blockedRemoteFiles := blockedRemoteFiles - {path};
      temps := temps - {path};
      lastSyncedHash := lastSyncedHash - {path};
      if path in files {
        files := files - {path};
      }
    }

    /** One remote event; it can fail, or report a conflict. */
    method ApplyEvent(event: SyncEvent, remoteTime: int, localTime: int)
        returns (conflict: Option<ConflictInfo>, failed: bool)
      requires Valid()
      modifies this
      ensures Valid()
      ensures View() == Deliver(digest, strategy, old(View()), Delivery(event, remoteTime, localTime))
      ensures conflict == Report(digest, strategy, old(View()), event, remoteTime, localTime)
      ensures failed <==> Fails(old(View()), event)
    {
      hide Conflicts, CopyPath, Put, DeleteDir;
      conflict, failed := None, false;
      match event
      case FileCreated(_, _, _) =>
        conflict := ApplyMetadata(event, remoteTime, localTime);
      case FileModified(_, _, _) =>
        conflict := ApplyMetadata(event, remoteTime, localTime);
      case FileDeleted(path) =>
        RemoveFile(path);
      case DirCreated(_) =>
      case DirDeleted(dir) =>
        failed := RemoveDir(dir);
      case FileContent(path, offset, data) =>
        if path !in blockedRemoteFiles {
          WritePendingChunk(path, offset, data);
        } else {
          SameSlots(View(), View(), path, Get(View(), path));
        }
      case Heartbeat(_) =>
    }
  }
}
