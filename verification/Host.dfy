/**
 A host from its start to the end of its first scan, with a concrete serialisation: what the engine demands of
 its codec and of the sizes it handles can be met.
 */
module Host {
  import opened ByteStrings
  import opened RingModel
  import opened RingProofs
  import opened RingBounds
  import opened Events
  import opened ApplyModel
  import opened SyncModel
  import opened StreamBounds
  import opened Conduct
  import opened Outgoing
  import opened WireFormat
  import Applying = ChangeApplier
  import Engine = SyncEngine
  import Sending = Transport
  import Watching = Watcher

  /** Chunks of a file fit their frames. */
  lemma {:induction false} FormatFitsChunks(id: Id, path: Path, chunkSize: nat)
    requires |PutPath(path, [])| + chunkSize + 46 < U32_LIMIT
    ensures ChunksFit(Format(), id, path, chunkSize)
  {
    hide PutEvent, PutPath, PutNat, Encode;
    forall offset: u64, data: Bytes | |data| <= chunkSize
      ensures EventFits(Format(), id, FileContent(path, offset, data))
    {
      ContentSize(path, offset, data);
      var e := FileContent(path, offset, data);
      forall n: u64, t: i64 ensures |Format().encode(Envelope(id, n, t, e))| + 4 < U32_LIMIT {
        EnvelopeSize(id, n, t, e);
      }
    }
  }

  /** What a scan reports: directories and files. Paths, hashes and sizes leave room in a frame. */
  predicate ScanFinds(h: Digest, chunkSize: nat, item: Item) {
    && (item.event.DirCreated? || item.event.FileCreated?)
    && |PutPath(item.event.path, [])| + chunkSize + 46 < U32_LIMIT
    && var e := Corrected(h, item);
       e.FileCreated? ==> |PutPath(e.path, [])| + |e.hash| + 46 < U32_LIMIT && e.size < U64_LIMIT
  }

  /** So do the announcements. */
  lemma {:induction false} FormatFitsItem(id: Id, h: Digest, chunkSize: nat, item: Item)
    requires ScanFinds(h, chunkSize, item)
    ensures ItemFits(Format(), id, h, chunkSize, item)
  {
    hide PutPath, PutNat, Encode;
    var e := Corrected(h, item);
    if e.FileCreated? {
      MetadataSize(true, e.path, e.hash, e.size);
    }
    assert |PutEvent(e)| + 25 < U32_LIMIT;
    forall n: u64, t: i64 ensures |Format().encode(Envelope(id, n, t, e))| + 4 < U32_LIMIT {
      EnvelopeSize(id, n, t, e);
    }
    FormatFitsChunks(id, item.event.path, chunkSize);
  }

  lemma {:induction false} FirstTold(codec: Codec, cap: nat)
    requires 8 <= cap < U32_LIMIT
    ensures Told(codec, 1, Next(Start(cap), Register(0)).logs[1]) == []
  {
  }

  /** A new ring with instance 0 registered, and a new applier over the files. */
  function Beginning(totalSize: nat, files: map<Path, Bytes>): System
    requires Sending.MIN_SIZE <= totalSize <= HEADER_SIZE + EXACT_CAPACITY
  {
    System(Next(Start(totalSize - HEADER_SIZE), Op.Register(0)), Applier(files, map[], map[], map[], {}))
  }

  /** Creates the segment and registers. */
  method Begin(totalSize: nat, digest: Digest, strategy: ConflictStrategy, files: map<Path, Bytes>)
      returns (engine: Engine.SyncEngine)
    requires Sending.MIN_SIZE <= totalSize <= HEADER_SIZE + EXACT_CAPACITY
    ensures fresh(engine) && fresh(engine.shm) && fresh(engine.shm.rb) && fresh(engine.applier) && fresh(engine.watcher)
    ensures engine.Valid() && engine.instanceId == 0 && 0 in engine.shm.activeMask && engine.codec == Format()
    ensures engine.applier.digest == digest && engine.chunkSize == ChunkSize(totalSize - HEADER_SIZE)
    ensures engine.seqNum == 0 && engine.sender.events == []
    ensures engine.View() == Beginning(totalSize, files)
  {
    FormatIsLossless();
    hide Inv, InRange, Told, Lossless, Format;
    var shm := Sending.ShmTransport.Create(totalSize);
    var applier := new Applying.ChangeApplier(digest, strategy, files);
    var watcher := new Watching.FsWatcher();
    engine := new Engine.SyncEngine(0, Format(), shm, applier, watcher);
    FirstTold(engine.codec, totalSize - HEADER_SIZE);
  }

  /**
   Then sends what the scan found: the first events it ever sends. If the lock is always obtained, next to
   a peer that keeps up, it is all sent.
   */
  method SendDirectory(env: Surroundings, totalSize: nat, digest: Digest, strategy: ConflictStrategy,
                       files: map<Path, Bytes>, items: seq<Item>)
      returns (engine: Engine.SyncEngine, out: Outcome, ghost cuts: seq<seq<Bytes>>, ghost steps: seq<SystemStep>)
    requires Sending.MIN_SIZE <= totalSize <= HEADER_SIZE + EXACT_CAPACITY && PushBound(items) < U64_LIMIT
    requires forall k :: 0 <= k < |items| ==> ScanFinds(digest, ChunkSize(totalSize - HEADER_SIZE), items[k])
    ensures fresh(engine) && engine.Valid() && engine.instanceId == 0 && 0 in engine.shm.activeMask
    ensures SentUpTo(items, cuts) && (out == Done ==> SentWhole(items, cuts))
    ensures engine.sender.events == ScanEvents(digest, items[..|cuts|], cuts)
    ensures out == Busy ==> BusyAt(env, engine.seqNum)
    ensures Unhindered(env) ==>
      forall f: nat :: KeptUp(engine.AsReceiver(), Beginning(totalSize, files), steps, f) ==> out == Done
  {
    hide *;
    engine := Begin(totalSize, digest, strategy, files);
    forall k | 0 <= k < |items| ensures ItemFits(Format(), 0, digest, engine.chunkSize, items[k]) {
      FormatFitsItem(0, digest, engine.chunkSize, items[k]);
    }
    ghost var left, notes;
    out, cuts, steps, left, notes := engine.InitialSync(env, items);
  }
}
