/**
 Applying remote events to the local directory, as functions on values. What the receiver
 knows about one path is a slot; an event on a path is a step of that path's slot, and the
 applier as a whole keeps the same knowledge in one map per kind.
 */
module ApplyModel {
  import opened ByteStrings
  import opened Events

  datatype ConflictStrategy = LastWriteWins | KeepBoth

  /** What a pending transfer must turn out to be. */
  datatype Expected = Expected(hash: Hash, size: nat)

  /** Hash and size of the content both sides last agreed on. */
  datatype Baseline = Baseline(hash: Hash, size: nat)

  datatype ConflictInfo =
    ConflictInfo(path: Path, localHash: Hash, localSize: nat, remoteHash: Hash, remoteSize: nat)

  /** One path: the target file, its temporary file, and the applier's three records of it. */
  datatype Slot = Slot(
    file: Option<Bytes>,
    temp: Option<Bytes>,
    synced: Option<Baseline>,
    pending: Option<Expected>,
    blocked: bool)

  /** Writing at an offset: a hole reads as zeros, and writing nothing changes nothing. */
  function WriteAt(file: Bytes, offset: nat, data: Bytes): (r: Bytes)
    ensures data == [] ==> r == file
    ensures data != [] ==> |r| == if offset + |data| < |file| then |file| else offset + |data|
    ensures data != [] ==> r[offset..offset + |data|] == data
    ensures forall i :: 0 <= i < |r| && !(offset <= i < offset + |data|) ==> r[i] == if i < |file| then file[i] else 0
  {
    if data == [] then file
    else
      var padded := if |file| < offset then file + seq(offset - |file|, _ => 0) else file;
      padded[..offset] + data + (if offset + |data| < |padded| then padded[offset + |data|..] else [])
  }

  // ---------------------------------------------------------------------------
  // Steps of one slot
  // ---------------------------------------------------------------------------

  /** The target differs from the baseline and from the remote content, and is not to give way. */
  predicate Conflicts(h: Digest, strategy: ConflictStrategy, s: Slot, remote: Hash, remoteTime: int, localTime: int) {
    && s.file.Some?
    && h(s.file.value) != remote
    && s.synced.Some?
    && h(s.file.value) != s.synced.value.hash
    && (strategy == KeepBoth || remoteTime < localTime)
  }

  function Prepare(h: Digest, s: Slot, hash: Hash, size: nat): Slot {
    if size == 0
    then s.(blocked := false, pending := None, file := Some([]), synced := Some(Baseline(h([]), 0)))
    else s.(blocked := false, pending := Some(Expected(hash, size)), temp := Some([]))
  }

  /** The temporary file becomes the target when its size and digest are the announced ones. */
  function Commit(h: Digest, s: Slot): Slot
    requires s.pending.Some?
  {
    var temp := s.temp.GetOr([]);
    if |temp| == s.pending.value.size && h(temp) == s.pending.value.hash
    then s.(file := Some(temp), temp := None, pending := None,
            synced := Some(Baseline(s.pending.value.hash, s.pending.value.size)))
    else s
  }

  /** Content without a pending transfer goes straight to the target, which offset 0 truncates. */
  function WriteDirect(h: Digest, s: Slot, offset: nat, data: Bytes): Slot {
    var before := if offset == 0 then [] else s.file.GetOr([]);
    var after := WriteAt(before, offset, data);
    s.(file := Some(after), synced := Some(Baseline(h(after), |after|)))
  }

  function WriteContent(h: Digest, s: Slot, offset: nat, data: Bytes): Slot {
    if s.blocked then s
    else if s.pending.None? then WriteDirect(h, s, offset, data)
    else Commit(h, s.(temp := Some(WriteAt(s.temp.GetOr([]), offset, data))))
  }

  /** Local content wins: the announced content is to be ignored. */
  function Block(e: SyncEvent, s: Slot): Slot {
    if e.FileModified? then s.(pending := None, blocked := true) else s.(blocked := true)
  }

  const CLEARED := Slot(None, None, None, None, false)

  /** Whether the event speaks about the path: its own path, or one under a deleted directory. */
  predicate Touches(e: SyncEvent, p: Path) {
    match e
    case DirCreated(_) => false
    case Heartbeat(_) => false
    case DirDeleted(dir) => dir <= p
    case _ => e.path == p
  }

  /**
   What a touching event means to the path: the deletion of a directory above it deletes its
   file. At the directory's own path stands no file that it could delete.
   */
  function Seen(e: SyncEvent, p: Path): SyncEvent {
    if e.DirDeleted? && e.path != p then FileDeleted(p) else e
  }

  /** An event on a touched path that meets no conflict. */
  function StepClean(h: Digest, s: Slot, e: SyncEvent): Slot {
    match e
    case FileCreated(_, hash, size) => Prepare(h, s, hash, size)
    case FileModified(_, hash, size) => Prepare(h, s, hash, size)
    case FileDeleted(_) => CLEARED
    case DirDeleted(_) => s.(synced := None, pending := None, blocked := false)
    case FileContent(_, offset, data) => WriteContent(h, s, offset, data)
    case DirCreated(_) => s
    case Heartbeat(_) => s
  }

  // ---------------------------------------------------------------------------
  // The applier
  // ---------------------------------------------------------------------------

  datatype Applier = Applier(
    files: map<Path, Bytes>,
    temps: map<Path, Bytes>,
    synced: map<Path, Baseline>,
    pending: map<Path, Expected>,
    blocked: set<Path>)

  function Store<V>(m: map<Path, V>, p: Path, v: Option<V>): map<Path, V> {
    match v
    case Some(x) => m[p := x]
    case None => m - {p}
  }

  function Get(a: Applier, p: Path): Slot {
    Slot(Lookup(a.files, p), Lookup(a.temps, p), Lookup(a.synced, p), Lookup(a.pending, p), p in a.blocked)
  }

  function Put(a: Applier, p: Path, s: Slot): Applier {
    Applier(Store(a.files, p, s.file), Store(a.temps, p, s.temp), Store(a.synced, p, s.synced),
            Store(a.pending, p, s.pending), if s.blocked then a.blocked + {p} else a.blocked - {p})
  }

  /**
   Forgets everything at or under `dir` and deletes everything under it. A regular file at `dir`
   itself, and its temporary file, are no directories and stay.
   */
  function DeleteDir(a: Applier, dir: Path): Applier {
    Applier(
      map p | p in a.files && !(dir < p) :: a.files[p],
      map p | p in a.temps && !(dir < p) :: a.temps[p],
      map p | p in a.synced && !(dir <= p) :: a.synced[p],
      map p | p in a.pending && !(dir <= p) :: a.pending[p],
      set p | p in a.blocked && !(dir <= p))
  }

  /** Moves the target aside; an existing file at `copy` is replaced. */
  function MoveAside(a: Applier, p: Path, copy: Path): Applier
    requires p in a.files
  {
    a.(files := (a.files - {p})[copy := a.files[p]])
  }

  /**
   One event. `copy` is where a conflicting target goes under `KeepBoth`, `localTime` the
   target's modification time; both are inputs here.
   */
  function Apply(h: Digest, strategy: ConflictStrategy, a: Applier, e: SyncEvent,
                 remoteTime: int, localTime: int, copy: Path): Applier
  {
    match e
    case DirCreated(_) => a
    case Heartbeat(_) => a
    case DirDeleted(dir) => DeleteDir(a, dir)
    case FileDeleted(p) => Put(a, p, CLEARED)
    case FileContent(p, _, _) => Put(a, p, StepClean(h, Get(a, p), e))
    case _ =>
      var s := Get(a, e.path);
      if !Conflicts(h, strategy, s, e.hash, remoteTime, localTime) then
        Put(a, e.path, StepClean(h, s, e))
      else if strategy == LastWriteWins then
        Put(a, e.path, Block(e, s))
      else
        var moved := MoveAside(a, e.path, copy);
        Put(moved, e.path, StepClean(h, Get(moved, e.path), e))
  }

  /** The deletion of a directory fails where a regular file stands. */
  predicate Fails(a: Applier, e: SyncEvent) {
    e.DirDeleted? && e.path in a.files
  }

  /** The conflict that is reported to the caller. */
  function Report(h: Digest, strategy: ConflictStrategy, a: Applier, e: SyncEvent, remoteTime: int, localTime: int)
    : Option<ConflictInfo>
  {
    if IsMetadata(e) && Conflicts(h, strategy, Get(a, e.path), e.hash, remoteTime, localTime)
    then Some(ConflictInfo(e.path, h(a.files[e.path]), |a.files[e.path]|, e.hash, e.size))
    else None
  }
}
