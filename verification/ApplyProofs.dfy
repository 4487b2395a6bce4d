/** What the transfer machine guarantees, over every sequence of events. */
module ApplyProofs {
  import opened CopyNames
  import opened Events
  import opened ApplyModel

  // ---------------------------------------------------------------------------
  // Slots and maps
  // ---------------------------------------------------------------------------

  lemma {:induction false} GetPut(a: Applier, p: Path, s: Slot, q: Path)
    ensures Get(Put(a, p, s), q) == if q == p then s else Get(a, q)
  {
  }

  lemma {:induction false} EqualSlots(a: Applier, b: Applier)
    requires forall p: Path :: Get(a, p) == Get(b, p)
    ensures a == b
  {
    forall p: Path
      ensures (p in a.files <==> p in b.files) && (p in a.files ==> a.files[p] == b.files[p])
      ensures (p in a.temps <==> p in b.temps) && (p in a.temps ==> a.temps[p] == b.temps[p])
      ensures (p in a.synced <==> p in b.synced) && (p in a.synced ==> a.synced[p] == b.synced[p])
      ensures (p in a.pending <==> p in b.pending) && (p in a.pending ==> a.pending[p] == b.pending[p])
      ensures p in a.blocked <==> p in b.blocked
    {
      assert Get(a, p) == Get(b, p);
    }
    assert a.files == b.files;
    assert a.temps == b.temps;
    assert a.synced == b.synced;
    assert a.pending == b.pending;
  }

  // ---------------------------------------------------------------------------
  // Clean paths
  // ---------------------------------------------------------------------------

  /** The target is absent or is the content both sides last agreed on, if they ever did. */
  predicate Clean(h: Digest, s: Slot) {
    s.synced.Some? && s.file.Some? ==>
      h(s.file.value) == s.synced.value.hash && |s.file.value| == s.synced.value.size
  }

  /** A clean path stays clean under every event, and never conflicts. */
  lemma {:induction false} StepStaysClean(h: Digest, s: Slot, e: SyncEvent)
    requires Clean(h, s)
    ensures Clean(h, StepClean(h, s, e))
  {
  }

  lemma {:induction false} CleanNeverConflicts(h: Digest, strategy: ConflictStrategy, s: Slot, remote: Hash,
      remoteTime: int, localTime: int)
    requires Clean(h, s)
    ensures !Conflicts(h, strategy, s, remote, remoteTime, localTime)
  {
  }

  lemma {:induction false} DeletedDirSlot(h: Digest, a: Applier, dir: Path, p: Path)
    ensures Get(DeleteDir(a, dir), p)
         == if dir <= p then StepClean(h, Get(a, p), Seen(DirDeleted(dir), p)) else Get(a, p)
  {
  }

  /** Without a conflict an event steps the slots it touches and no other. */
  lemma {:induction false} ApplyIsLocal(h: Digest, strategy: ConflictStrategy, a: Applier, e: SyncEvent,
                     remoteTime: int, localTime: int, copy: Path, p: Path)
    requires IsMetadata(e) ==> !Conflicts(h, strategy, Get(a, e.path), e.hash, remoteTime, localTime)
    ensures Get(Apply(h, strategy, a, e, remoteTime, localTime, copy), p)
         == if Touches(e, p) then StepClean(h, Get(a, p), Seen(e, p)) else Get(a, p)
  {
    hide Get, Put, DeleteDir, Conflicts, Prepare, WriteContent;
    if e.DirDeleted? {
      DeletedDirSlot(h, a, e.path, p);
    } else if !e.DirCreated? && !e.Heartbeat? {
      GetPut(a, e.path, StepClean(h, Get(a, e.path), e), p);
    }
  }

  // ---------------------------------------------------------------------------
  // Runs on one slot
  // ---------------------------------------------------------------------------

  function RunSlot(h: Digest, s: Slot, es: seq<SyncEvent>): Slot
    decreases |es|
  {
    if es == [] then s else RunSlot(h, StepClean(h, s, es[0]), es[1..])
  }

  lemma {:induction false} RunSlotAppend(h: Digest, s: Slot, a: seq<SyncEvent>, b: seq<SyncEvent>)
    ensures RunSlot(h, s, a + b) == RunSlot(h, RunSlot(h, s, a), b)
    decreases |a|
  {
    if a == [] {
      assert a + b == b;
    } else {
      assert (a + b)[0] == a[0] && (a + b)[1..] == a[1..] + b;
      RunSlotAppend(h, StepClean(h, s, a[0]), a[1..], b);
    }
  }

  // ---------------------------------------------------------------------------
  // Runs of the applier
  // ---------------------------------------------------------------------------

  /** An event as it arrives: with the sender's time and the local file's time. */
  datatype Delivery = Delivery(event: SyncEvent, remoteTime: int, localTime: int)

  function Deliver(h: Digest, strategy: ConflictStrategy, a: Applier, d: Delivery): Applier {
    Apply(h, strategy, a, d.event, d.remoteTime, d.localTime,
          if IsMetadata(d.event) then CopyPath(a.files.Keys, d.event.path) else ["x"])
  }

  function RunAll(h: Digest, strategy: ConflictStrategy, a: Applier, ds: seq<Delivery>): Applier
    decreases |ds|
  {
    if ds == [] then a else RunAll(h, strategy, Deliver(h, strategy, a, ds[0]), ds[1..])
  }

  function EventsOf(ds: seq<Delivery>): seq<SyncEvent> {
    if ds == [] then [] else [ds[0].event] + EventsOf(ds[1..])
  }

  /** The events that touch one path, in order, as the path sees them. */
  function Touching(es: seq<SyncEvent>, p: Path): seq<SyncEvent> {
    if es == [] then [] else (if Touches(es[0], p) then [Seen(es[0], p)] else []) + Touching(es[1..], p)
  }

  lemma {:induction false} TouchingAppend(x: seq<SyncEvent>, y: seq<SyncEvent>, p: Path)
    ensures Touching(x + y, p) == Touching(x, p) + Touching(y, p)
  {
    hide Touches, Seen;
    if x == [] {
      assert x + y == y;
    } else {
      assert (x + y)[0] == x[0] && (x + y)[1..] == x[1..] + y;
      TouchingAppend(x[1..], y, p);
      var first := if Touches(x[0], p) then [Seen(x[0], p)] else [];
      assert Touching(x, p) == first + Touching(x[1..], p);
      assert Touching(x + y, p) == first + (Touching(x[1..], p) + Touching(y, p));
    }
  }

  function OnPath(ds: seq<Delivery>, p: Path): seq<SyncEvent> {
    Touching(EventsOf(ds), p)
  }

  ghost predicate AllClean(h: Digest, a: Applier) {
    forall p: Path :: Clean(h, Get(a, p))
  }

  lemma {:induction false} DeliverIsLocal(h: Digest, strategy: ConflictStrategy, a: Applier, d: Delivery, p: Path)
    requires AllClean(h, a)
    ensures Get(Deliver(h, strategy, a, d), p)
         == if Touches(d.event, p) then StepClean(h, Get(a, p), Seen(d.event, p)) else Get(a, p)
    ensures Clean(h, Get(Deliver(h, strategy, a, d), p))
  {
    hide Apply, StepClean, Clean, Conflicts, Touches;
    if IsMetadata(d.event) {
      assert Clean(h, Get(a, d.event.path));
      CleanNeverConflicts(h, strategy, Get(a, d.event.path), d.event.hash, d.remoteTime, d.localTime);
    }
    var copy := if IsMetadata(d.event) then CopyPath(a.files.Keys, d.event.path) else ["x"];
    ApplyIsLocal(h, strategy, a, d.event, d.remoteTime, d.localTime, copy, p);
    assert Clean(h, Get(a, p));
    StepStaysClean(h, Get(a, p), Seen(d.event, p));
  }

  lemma {:induction false} DeliverStaysClean(h: Digest, strategy: ConflictStrategy, a: Applier, d: Delivery)
    requires AllClean(h, a)
    ensures AllClean(h, Deliver(h, strategy, a, d))
  {
    hide Deliver, Clean;
    forall p: Path ensures Clean(h, Get(Deliver(h, strategy, a, d), p)) {
      DeliverIsLocal(h, strategy, a, d, p);
    }
  }

  /**
   From a clean state, what becomes of a path depends on the events that touch it alone, taken
   in order: neither strategy, times nor events of other paths matter.
   */
  lemma {:induction false} RunIsLocal(h: Digest, strategy: ConflictStrategy, a: Applier, ds: seq<Delivery>, p: Path)
    requires AllClean(h, a)
    ensures Get(RunAll(h, strategy, a, ds), p) == RunSlot(h, Get(a, p), OnPath(ds, p))
    ensures Clean(h, Get(RunAll(h, strategy, a, ds), p))
    decreases |ds|
  {
    hide Deliver, StepClean, Touches, Get, Clean;
    if ds == [] {
      assert Clean(h, Get(a, p));
    } else {
      assert EventsOf(ds)[0] == ds[0].event && EventsOf(ds)[1..] == EventsOf(ds[1..]);
      var a' := Deliver(h, strategy, a, ds[0]);
      DeliverStaysClean(h, strategy, a, ds[0]);
      DeliverIsLocal(h, strategy, a, ds[0], p);
      RunIsLocal(h, strategy, a', ds[1..], p);
      if Touches(ds[0].event, p) {
        assert OnPath(ds, p)[0] == Seen(ds[0].event, p) && OnPath(ds, p)[1..] == OnPath(ds[1..], p);
      } else {
        assert OnPath(ds, p) == OnPath(ds[1..], p);
      }
    }
  }

  /** Interleavings that keep the order per path give the same targets, baselines and transfers. */
  lemma {:induction false} InterleavingIndependence(h: Digest, s1: ConflictStrategy, s2: ConflictStrategy, a: Applier,
                                 x: seq<Delivery>, y: seq<Delivery>)
    requires AllClean(h, a)
    requires forall p: Path :: OnPath(x, p) == OnPath(y, p)
    ensures RunAll(h, s1, a, x) == RunAll(h, s2, a, y)
    ensures AllClean(h, RunAll(h, s1, a, x))
  {
    forall p: Path
      ensures Get(RunAll(h, s1, a, x), p) == Get(RunAll(h, s2, a, y), p)
      ensures Clean(h, Get(RunAll(h, s1, a, x), p))
    {
      RunIsLocal(h, s1, a, x, p);
      RunIsLocal(h, s2, a, y, p);
      assert OnPath(x, p) == OnPath(y, p);
    }
    EqualSlots(RunAll(h, s1, a, x), RunAll(h, s2, a, y));
  }
}
