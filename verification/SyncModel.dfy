/**
 The whole system: senders stamp events and push them into the ring, the receiver pops,
 drops its own events and applies the others. All steps of both instances interleave freely.
 */
module SyncModel {
  import opened ByteStrings
  import opened RingModel
  import opened RingProofs
  import opened RingBounds
  import opened Events
  import opened ApplyModel
  import opened ApplyProofs
  import opened Transfers

  // ---------------------------------------------------------------------------
  // Frames and envelopes
  // ---------------------------------------------------------------------------

  /** The serialisation of envelopes. Bytes that are no envelope decode to nothing. */
  datatype Codec = Codec(encode: Envelope -> Bytes, decode: Bytes -> Option<Envelope>)

  ghost predicate Lossless(codec: Codec) {
    forall e: Envelope :: codec.decode(codec.encode(e)) == Some(e)
  }

  /** Whether a received envelope is applied: not one's own, and not a heartbeat. */
  predicate IsApplied(e: Envelope, me: Id) {
    e.instance != me && !e.event.Heartbeat?
  }

  /** The envelopes that instance `me` applies when it pops these frames. */
  function Arrivals(codec: Codec, me: Id, frames: seq<Bytes>): seq<Envelope> {
    if frames == [] then []
    else
      var first := codec.decode(frames[0]);
      (if first.Some? && IsApplied(first.value, me) then [first.value] else []) + Arrivals(codec, me, frames[1..])
  }

  lemma {:induction false} ArrivalsAppend(codec: Codec, me: Id, a: seq<Bytes>, b: seq<Bytes>)
    ensures Arrivals(codec, me, a + b) == Arrivals(codec, me, a) + Arrivals(codec, me, b)
  {
    if a == [] {
      assert a + b == b;
    } else {
      assert (a + b)[0] == a[0] && (a + b)[1..] == a[1..] + b;
      ArrivalsAppend(codec, me, a[1..], b);
    }
  }

  function EventsIn(envelopes: seq<Envelope>): seq<SyncEvent> {
    if envelopes == [] then [] else [envelopes[0].event] + EventsIn(envelopes[1..])
  }

  lemma {:induction false} EventsInAppend(a: seq<Envelope>, b: seq<Envelope>)
    ensures EventsIn(a + b) == EventsIn(a) + EventsIn(b)
  {
    if a == [] {
      assert a + b == b;
    } else {
      assert (a + b)[0] == a[0] && (a + b)[1..] == a[1..] + b;
      EventsInAppend(a[1..], b);
    }
  }

  /** The applied envelopes with the modification times the local files have at that moment. */
  function WithTimes(envelopes: seq<Envelope>, localTimes: seq<int>): (ds: seq<Delivery>)
    ensures EventsOf(ds) == EventsIn(envelopes)
    decreases |envelopes|
  {
    if envelopes == [] then []
    else
      var time := if localTimes == [] then 0 else localTimes[0];
      [Delivery(envelopes[0].event, envelopes[0].timestamp, time)]
      + WithTimes(envelopes[1..], if localTimes == [] then [] else localTimes[1..])
  }

  // ---------------------------------------------------------------------------
  // The system
  // ---------------------------------------------------------------------------

  datatype System = System(world: World, applier: Applier)

  /** A step of the ring, or the receiver popping and applying what it popped. */
  datatype SystemStep = Transport(op: Op) | Receive(localTimes: seq<int>)

  /** Who receives, and what the receiver computes with. */
  datatype Receiver = Receiver(me: Id, h: Digest, strategy: ConflictStrategy, codec: Codec)

  /** The receiver stays registered, and its pops are receptions. */
  predicate StepLegal(r: Receiver, sys: System, step: SystemStep)
    requires InRange(sys.world.ring)
  {
    match step
    case Transport(op) => Legal(sys.world, op) && LeavesAlone(op, r.me)
    case Receive(_) => Legal(sys.world, Pop(r.me))
  }

  ghost function SystemNext(r: Receiver, sys: System, step: SystemStep): (sys': System)
    requires Inv(sys.world) && StepLegal(r, sys, step)
    ensures Inv(sys'.world)
  {
    match step
    case Transport(op) => System(Advance(sys.world, op), sys.applier)
    case Receive(localTimes) =>
      var frames := Step(sys.world.ring, Pop(r.me)).1.frames;
      System(Advance(sys.world, Pop(r.me)),
             RunAll(r.h, r.strategy, sys.applier, WithTimes(Arrivals(r.codec, r.me, frames), localTimes)))
  }

  ghost predicate SystemRun(r: Receiver, sys: System, steps: seq<SystemStep>)
    requires Inv(sys.world)
    decreases |steps|
  {
    steps == [] || (StepLegal(r, sys, steps[0]) && SystemRun(r, SystemNext(r, sys, steps[0]), steps[1..]))
  }

  ghost function SystemEnd(r: Receiver, sys: System, steps: seq<SystemStep>): (sys': System)
    requires Inv(sys.world) && SystemRun(r, sys, steps)
    ensures Inv(sys'.world)
    decreases |steps|
  {
    if steps == [] then sys else SystemEnd(r, SystemNext(r, sys, steps[0]), steps[1..])
  }

  /** The events the receiver has applied since it registered. */
  function AppliedEvents(r: Receiver, log: ReaderLog): seq<SyncEvent> {
    EventsIn(Arrivals(r.codec, r.me, log.got))
  }

  /** The events pushed for instance `i` since it registered, popped or not, as it will apply them. */
  function Told(codec: Codec, i: Id, log: ReaderLog): seq<SyncEvent> {
    EventsIn(Arrivals(codec, i, log.sent))
  }

  /** The receiver's directory is its old one changed by the applied events, path by path. */
  ghost predicate Follows(r: Receiver, start: Applier, sys: System)
    requires Inv(sys.world)
  {
    && r.me in sys.world.ring.active && sys.world.logs[r.me].tracked
    && AllClean(r.h, sys.applier)
    && forall p: Path ::
         Get(sys.applier, p) == RunSlot(r.h, Get(start, p), Touching(AppliedEvents(r, sys.world.logs[r.me]), p))
  }

  lemma {:induction false} TransportKeepsLog(world: World, op: Op, me: Id)
    requires Inv(world) && Legal(world, op) && LeavesAlone(op, me) && me in world.ring.active
    ensures me in Advance(world, op).ring.active && Advance(world, op).logs[me].tracked
    ensures Advance(world, op).logs[me].got == world.logs[me].got
  {
    assert Inv(Advance(world, op));
    assert Advance(world, op).logs[me] == Observe(world.logs[me], me, world.ring, op, Step(world.ring, op).1);
    if op.Push? && Step(world.ring, op).1 == Accepted {
      AcceptedFits(world.ring, FrameLength(op.payload), me);
    }
  }

  lemma {:induction false} PopExtendsLog(world: World, me: Id)
    requires Inv(world) && Legal(world, Pop(me)) && world.logs[me].tracked
    ensures
      var out, world' := Step(world.ring, Pop(me)).1, Advance(world, Pop(me));
      && out.Frames? && world'.logs[me].got == world.logs[me].got + out.frames
      && world'.logs[me].tracked && world'.ring.active == world.ring.active
  {
  }

  lemma {:induction false} StepFollows(r: Receiver, start: Applier, sys: System, step: SystemStep)
    requires Inv(sys.world) && StepLegal(r, sys, step) && Follows(r, start, sys)
    ensures Follows(r, start, SystemNext(r, sys, step))
  {
    hide Inv, Advance, RunSlot, Get, Clean, Touching, Arrivals, Step, Legal, LeavesAlone, RunAll, EventsIn;
    var sys' := SystemNext(r, sys, step);
    match step
    case Transport(op) =>
      TransportKeepsLog(sys.world, op, r.me);
    case Receive(localTimes) =>
      PopExtendsLog(sys.world, r.me);
      var got, frames := sys.world.logs[r.me].got, Step(sys.world.ring, Pop(r.me)).1.frames;
      var arrived := Arrivals(r.codec, r.me, frames);
      var ds := WithTimes(arrived, localTimes);
      ArrivalsAppend(r.codec, r.me, got, frames);
      EventsInAppend(Arrivals(r.codec, r.me, got), arrived);
      var before, now := AppliedEvents(r, sys.world.logs[r.me]), EventsIn(arrived);
      forall p: Path
        ensures Get(sys'.applier, p) == RunSlot(r.h, Get(start, p), Touching(before + now, p))
        ensures Clean(r.h, Get(sys'.applier, p))
      {
        RunIsLocal(r.h, r.strategy, sys.applier, ds, p);
        TouchingAppend(before, now, p);
        RunSlotAppend(r.h, Get(start, p), Touching(before, p), Touching(now, p));
      }
  }

  /**
   The receiver follows the sender: over every run, each path of its directory is what the
   applied events make of it, in the order in which they were pushed.
   */
  lemma {:induction false} ReceiverFollows(r: Receiver, start: Applier, sys: System, steps: seq<SystemStep>)
    requires Inv(sys.world) && SystemRun(r, sys, steps) && Follows(r, start, sys)
    ensures Follows(r, start, SystemEnd(r, sys, steps))
    decreases |steps|
  {
    hide Inv, Follows, SystemNext, StepLegal;
    if steps != [] {
      StepFollows(r, start, sys, steps[0]);
      ReceiverFollows(r, start, SystemNext(r, sys, steps[0]), steps[1..]);
    }
  }

  /** A receiver that has just registered, over a directory without conflicts. */
  ghost predicate JustRegistered(r: Receiver, sys: System)
    requires Inv(sys.world)
  {
    && r.me in sys.world.ring.active && sys.world.logs[r.me] == ReaderLog(true, [], [])
    && AllClean(r.h, sys.applier)
  }

  lemma {:induction false} RegisteredFollows(r: Receiver, sys: System)
    requires Inv(sys.world) && JustRegistered(r, sys)
    ensures Follows(r, sys.applier, sys)
  {
    assert AppliedEvents(r, sys.world.logs[r.me]) == [];
  }

  /** The applied events are the first of the pushed ones; all of them once everything is popped. */
  lemma {:induction false} AppliedIsPrefix(r: Receiver, world: World)
    requires Inv(world) && world.logs[r.me].tracked
    ensures AppliedEvents(r, world.logs[r.me]) <= Told(r.codec, r.me, world.logs[r.me])
    ensures Owed(world.logs[r.me]) == [] ==> AppliedEvents(r, world.logs[r.me]) == Told(r.codec, r.me, world.logs[r.me])
  {
    var log := world.logs[r.me];
    assert ReaderInv(world.ring, log, r.me);
    assert log.sent == log.got + Owed(log);
    ArrivalsAppend(r.codec, r.me, log.got, Owed(log));
    EventsInAppend(Arrivals(r.codec, r.me, log.got), Arrivals(r.codec, r.me, Owed(log)));
    if Owed(log) == [] {
      assert log.got == log.sent;
    }
  }

  // ---------------------------------------------------------------------------
  // End to end
  // ---------------------------------------------------------------------------

  /** After a complete version nothing is pending for its path. */
  lemma {:induction false} CompleteHistorySettles(h: Digest, s: Slot, path: Path, vs: seq<Version>)
    requires vs != [] && AreStreams(vs) && Complete(vs[|vs| - 1])
    ensures RunSlot(h, s, History(h, path, vs)).pending == None
    decreases |vs|
  {
    hide RunSlot, StepClean, Announce;
    var v, rest := vs[0], History(h, path, vs[1..]);
    RunSlotAppend(h, s, StreamEvents(h, path, v), rest);
    if |vs| == 1 {
      OneVersion(h, s, path, v, v.taken);
      RunNothing(h, RunSlot(h, s, StreamEvents(h, path, v)));
    } else {
      CompleteHistorySettles(h, RunSlot(h, s, StreamEvents(h, path, v)), path, vs[1..]);
    }
  }

  /**
   End to end: suppose that of all the events pushed for the receiver, those touching `path`
   are streams of versions of that file, each in order and possibly cut short by the next.
   Then at every moment of every run the receiver's file is the original or one whole version,
   and once everything is popped it is the last complete one, with no transfer pending if that
   is the last one.
   */
  lemma {:induction false} EndToEnd(r: Receiver, sys: System, steps: seq<SystemStep>, path: Path, vs: seq<Version>)
    requires Inv(sys.world) && JustRegistered(r, sys) && SystemRun(r, sys, steps) && AreStreams(vs)
    requires Touching(Told(r.codec, r.me, SystemEnd(r, sys, steps).world.logs[r.me]), path) == History(r.h, path, vs)
    ensures
      var end, before := SystemEnd(r, sys, steps), Lookup(sys.applier.files, path);
      var now := Lookup(end.applier.files, path);
      && (now == before || exists k :: 0 <= k < |vs| && Complete(vs[k]) && now == Some(vs[k].content))
      && (Owed(end.world.logs[r.me]) == [] ==> now == LastComplete(before, vs))
      && (Owed(end.world.logs[r.me]) == [] && vs != [] && Complete(vs[|vs| - 1]) ==> path !in end.applier.pending)
  {
    hide Inv, RunSlot, SystemRun, SystemEnd, Shown, LastComplete, History, Touching, Owed, AppliedEvents, Told;
    RegisteredFollows(r, sys);
    ReceiverFollows(r, sys.applier, sys, steps);
    var end := SystemEnd(r, sys, steps);
    AppliedIsPrefix(r, end.world);
    var applied, pushed := AppliedEvents(r, end.world.logs[r.me]), Told(r.codec, r.me, end.world.logs[r.me]);
    assert pushed == applied + pushed[|applied|..];
    TouchingAppend(applied, pushed[|applied|..], path);
    var n := |Touching(applied, path)|;
    assert Touching(applied, path) == History(r.h, path, vs)[..n];
    HistoryShows(r.h, Get(sys.applier, path), path, vs, n);
    ShownIsWhole(Lookup(sys.applier.files, path), vs, n);
    ShownAtTheEnd(r.h, path, Lookup(sys.applier.files, path), vs);
    if Owed(end.world.logs[r.me]) == [] && vs != [] && Complete(vs[|vs| - 1]) {
      CompleteHistorySettles(r.h, Get(sys.applier, path), path, vs);
      assert Get(end.applier, path).pending == None;
    }
  }

  /** Files streamed one after the other, as an initial scan does. */
  datatype Sent = Sent(path: Path, version: Version)

  predicate CompleteStreams(files: seq<Sent>) {
    forall k :: 0 <= k < |files| ==>
      IsStream(files[k].version) && files[k].version.taken == |files[k].version.pieces|
  }

  function Flatten(h: Digest, files: seq<Sent>): seq<SyncEvent>
    requires CompleteStreams(files)
  {
    if files == [] then [] else StreamEvents(h, files[0].path, files[0].version) + Flatten(h, files[1..])
  }

  function VersionsOf(files: seq<Sent>, p: Path): seq<Version> {
    if files == [] then [] else (if files[0].path == p then [files[0].version] else []) + VersionsOf(files[1..], p)
  }

  lemma {:induction false} TouchingContents(path: Path, pieces: seq<Bytes>, offset: nat, p: Path)
    ensures Touching(ContentEvents(path, pieces, offset), p)
         == if path == p then ContentEvents(path, pieces, offset) else []
    decreases |pieces|
  {
    if pieces != [] {
      var es := ContentEvents(path, pieces, offset);
      assert es[0] == FileContent(path, offset, pieces[0]);
      assert es[1..] == ContentEvents(path, pieces[1..], offset + |pieces[0]|);
      TouchingContents(path, pieces[1..], offset + |pieces[0]|, p);
    }
  }

  lemma {:induction false} TouchingStream(h: Digest, path: Path, v: Version, p: Path)
    requires v.taken <= |v.pieces|
    ensures Touching(StreamEvents(h, path, v), p) == if path == p then StreamEvents(h, path, v) else []
  {
    TouchingContents(path, v.pieces[..v.taken], 0, p);
    assert StreamEvents(h, path, v)[1..] == ContentEvents(path, v.pieces[..v.taken], 0);
  }

  lemma {:induction false} TouchingFlatten(h: Digest, files: seq<Sent>, p: Path)
    requires CompleteStreams(files)
    ensures forall k :: 0 <= k < |VersionsOf(files, p)| ==>
      IsStream(VersionsOf(files, p)[k]) && VersionsOf(files, p)[k].taken == |VersionsOf(files, p)[k].pieces|
    ensures Touching(Flatten(h, files), p) == History(h, p, VersionsOf(files, p))
    decreases |files|
  {
    hide Touching, StreamEvents, IsStream;
    if files != [] {
      var path, v := files[0].path, files[0].version;
      var stream := StreamEvents(h, path, v);
      TouchingFlatten(h, files[1..], p);
      TouchingAppend(stream, Flatten(h, files[1..]), p);
      TouchingStream(h, path, v, p);
      if path == p {
        var vs := [v] + VersionsOf(files[1..], p);
        assert vs == VersionsOf(files, p) && vs[0] == v && vs[1..] == VersionsOf(files[1..], p);
        assert History(h, p, vs) == stream + History(h, p, vs[1..]);
      } else {
        assert VersionsOf(files, p) == VersionsOf(files[1..], p);
      }
    } else {
      NothingTouches(p);
    }
  }

  lemma {:induction false} NothingTouches(p: Path)
    ensures Touching([], p) == []
  {
  }

  /** What a directory holds after all the files were received. */
  function Overlay(files: map<Path, Bytes>, sent: seq<Sent>): map<Path, Bytes>
    decreases |sent|
  {
    if sent == [] then files else Overlay(files[sent[0].path := sent[0].version.content], sent[1..])
  }

  lemma {:induction false} OverlayIsLast(files: map<Path, Bytes>, sent: seq<Sent>, p: Path)
    requires CompleteStreams(sent)
    ensures Lookup(Overlay(files, sent), p) == LastComplete(Lookup(files, p), VersionsOf(sent, p))
    decreases |sent|
  {
    if sent != [] {
      OverlayIsLast(files[sent[0].path := sent[0].version.content], sent[1..], p);
      if sent[0].path == p {
        assert VersionsOf(sent, p)[0] == sent[0].version && VersionsOf(sent, p)[1..] == VersionsOf(sent[1..], p);
      } else {
        assert VersionsOf(sent, p) == VersionsOf(sent[1..], p);
      }
    }
  }

  /** Of these events, those that touch files are the streams of these files. */
  ghost predicate SpellsFiles(h: Digest, events: seq<SyncEvent>, sent: seq<Sent>)
    requires CompleteStreams(sent)
  {
    forall p: Path :: Touching(events, p) == Touching(Flatten(h, sent), p)
  }

  /**
   Replication of a directory: the peer streams any list of files, in pieces of any sizes, with
   announcements of directories and heartbeats in between, while both instances push, pop, are
   refused and try again in any order. Once everything is popped, the receiver's directory is its
   old one overlaid with the files that were sent, and no transfer of any of them is pending.
   */
  lemma {:induction false} DirectoryReplication(r: Receiver, sys: System, steps: seq<SystemStep>, sent: seq<Sent>)
    requires Inv(sys.world) && JustRegistered(r, sys) && SystemRun(r, sys, steps) && CompleteStreams(sent)
    requires SpellsFiles(r.h, Told(r.codec, r.me, SystemEnd(r, sys, steps).world.logs[r.me]), sent)
    requires Owed(SystemEnd(r, sys, steps).world.logs[r.me]) == []
    ensures SystemEnd(r, sys, steps).applier.files == Overlay(sys.applier.files, sent)
    ensures forall k :: 0 <= k < |sent| ==> sent[k].path !in SystemEnd(r, sys, steps).applier.pending
  {
    hide Inv, SystemRun, SystemEnd, Flatten, Overlay, Told, Owed, LastComplete, RunSlot;
    var end, after := SystemEnd(r, sys, steps), Overlay(sys.applier.files, sent);
    forall p: Path
      ensures Lookup(end.applier.files, p) == Lookup(after, p)
      ensures VersionsOf(sent, p) != [] ==> p !in end.applier.pending
    {
      TouchingFlatten(r.h, sent, p);
      EndToEnd(r, sys, steps, p, VersionsOf(sent, p));
      OverlayIsLast(sys.applier.files, sent, p);
    }
    SameFiles(end.applier.files, after);
    forall k | 0 <= k < |sent| ensures sent[k].path !in end.applier.pending {
      VersionsOfNonEmpty(sent, k);
    }
  }

  lemma {:induction false} SameFiles(a: map<Path, Bytes>, b: map<Path, Bytes>)
    requires forall p: Path :: Lookup(a, p) == Lookup(b, p)
    ensures a == b
  {
    forall p: Path ensures (p in a <==> p in b) && (p in a ==> a[p] == b[p]) {
      assert Lookup(a, p) == Lookup(b, p);
    }
  }

  lemma {:induction false} VersionsOfNonEmpty(sent: seq<Sent>, k: nat)
    requires k < |sent|
    ensures VersionsOf(sent, sent[k].path) != []
    decreases k
  {
    if k > 0 {
      VersionsOfNonEmpty(sent[1..], k - 1);
    }
  }
}
