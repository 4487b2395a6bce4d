/** One instance's engine: stamping and pushing events, streaming files, applying what arrives. */
module SyncEngine {
  import opened ByteStrings
  import opened RingModel
  import opened RingProofs
  import opened RingBounds
  import opened Events
  import opened ApplyModel
  import opened ApplyProofs
  import opened SyncModel
  import opened StreamBounds
  import opened SequenceNumbers
  import opened Conduct
  import opened Outgoing
  import Applying = ChangeApplier
  import Sending = Transport
  import opened Watcher

  const PEER_TIMEOUT := 15_000

  // ---------------------------------------------------------------------------
  // What the methods below compute
  // ---------------------------------------------------------------------------

  function DecodeAll(codec: Codec, frames: seq<Bytes>): seq<Envelope> {
    if frames == [] then []
    else
      var first := codec.decode(frames[0]);
      (if first.Some? then [first.value] else []) + DecodeAll(codec, frames[1..])
  }

  function OnlyApplied(envelopes: seq<Envelope>, me: Id): seq<Envelope> {
    if envelopes == [] then []
    else (if IsApplied(envelopes[0], me) then [envelopes[0]] else []) + OnlyApplied(envelopes[1..], me)
  }

  lemma {:induction false} OnlyAppliedIsArrivals(codec: Codec, me: Id, frames: seq<Bytes>)
    ensures OnlyApplied(DecodeAll(codec, frames), me) == Arrivals(codec, me, frames)
  {
    if frames != [] {
      OnlyAppliedIsArrivals(codec, me, frames[1..]);
      var first := codec.decode(frames[0]);
      if first.Some? {
        var all := DecodeAll(codec, frames);
        assert all[0] == first.value && all[1..] == DecodeAll(codec, frames[1..]);
      } else {
        assert DecodeAll(codec, frames) == DecodeAll(codec, frames[1..]);
      }
    }
  }

  predicate Noted(h: Digest, strategy: ConflictStrategy, a: Applier, d: Delivery) {
    Report(h, strategy, a, d.event, d.remoteTime, d.localTime) == None && !Fails(a, d.event)
  }

  /** What the watcher is told: the events that were applied without a conflict or a failure. */
  function NotesOf(h: Digest, strategy: ConflictStrategy, a: Applier, ds: seq<Delivery>): seq<Note>
    decreases |ds|
  {
    if ds == [] then []
    else
      var d := ds[0];
      (if Noted(h, strategy, a, d) then [Applied(d.event)] else [])
      + NotesOf(h, strategy, Deliver(h, strategy, a, d), ds[1..])
  }

  function PathOf(e: SyncEvent): set<Path> {
    if e.Heartbeat? then {} else {e.path}
  }

  function PathsOf(es: seq<SyncEvent>): set<Path> {
    if es == [] then {} else PathOf(es[0]) + PathsOf(es[1..])
  }

  /** What handling remote envelopes changes. */
  datatype Receiving = Receiving(applier: Applier, states: States, suppressed: set<Path>)

  function HandleOne(h: Digest, strategy: ConflictStrategy, s: Receiving, d: Delivery): Receiving {
    Receiving(
      Deliver(h, strategy, s.applier, d),
      if Noted(h, strategy, s.applier, d) then Track(s.states, Applied(d.event)) else s.states,
      s.suppressed + PathOf(d.event))
  }

  function HandleAll(h: Digest, strategy: ConflictStrategy, s: Receiving, ds: seq<Delivery>): Receiving
    decreases |ds|
  {
    if ds == [] then s else HandleAll(h, strategy, HandleOne(h, strategy, s, ds[0]), ds[1..])
  }

  /** The three records after a batch: the applier's, the watcher's and the suppressed paths. */
  lemma {:induction false} HandleAllIs(h: Digest, strategy: ConflictStrategy, s: Receiving, ds: seq<Delivery>)
    ensures HandleAll(h, strategy, s, ds) == Receiving(
      RunAll(h, strategy, s.applier, ds),
      TrackAll(s.states, NotesOf(h, strategy, s.applier, ds)),
      s.suppressed + PathsOf(EventsOf(ds)))
    decreases |ds|
  {
    hide Deliver, Noted, Track, PathOf;
    if ds != [] {
      var d := ds[0];
      HandleAllIs(h, strategy, HandleOne(h, strategy, s, d), ds[1..]);
      assert EventsOf(ds)[0] == d.event && EventsOf(ds)[1..] == EventsOf(ds[1..]);
      var notes := NotesOf(h, strategy, s.applier, ds);
      if Noted(h, strategy, s.applier, d) {
        assert notes[0] == Applied(d.event);
        assert notes[1..] == NotesOf(h, strategy, Deliver(h, strategy, s.applier, d), ds[1..]);
      } else {
        assert notes == NotesOf(h, strategy, Deliver(h, strategy, s.applier, d), ds[1..]);
      }
    }
  }

  lemma {:induction false} NextApplied(envelopes: seq<Envelope>, i: nat, me: Id)
    requires i < |envelopes|
    ensures OnlyApplied(envelopes[i..], me)
         == if IsApplied(envelopes[i], me) then [envelopes[i]] + OnlyApplied(envelopes[i + 1..], me)
            else OnlyApplied(envelopes[i + 1..], me)
  {
    assert envelopes[i..][0] == envelopes[i] && envelopes[i..][1..] == envelopes[i + 1..];
  }

  lemma {:induction false} FirstDelivery(h: Digest, strategy: ConflictStrategy, s: Receiving, e: Envelope,
      rest: seq<Envelope>, times: seq<int>)
    ensures
      var time, times' := if times == [] then 0 else times[0], if times == [] then [] else times[1..];
      HandleAll(h, strategy, s, WithTimes([e] + rest, times))
      == HandleAll(h, strategy, HandleOne(h, strategy, s, Delivery(e.event, e.timestamp, time)),
          WithTimes(rest, times'))
  {
    hide HandleOne;
    var time, times' := if times == [] then 0 else times[0], if times == [] then [] else times[1..];
    assert ([e] + rest)[0] == e && ([e] + rest)[1..] == rest;
    var ds := WithTimes([e] + rest, times);
    assert ds[0] == Delivery(e.event, e.timestamp, time) && ds[1..] == WithTimes(rest, times');
  }

  /** A heartbeat of the peer is among the envelopes. */
  predicate HearsPeer(envelopes: seq<Envelope>, me: Id) {
    exists e :: e in envelopes && e.event.Heartbeat? && e.instance != me
  }

  // ---------------------------------------------------------------------------
  // The engine
  // ---------------------------------------------------------------------------

  class SyncEngine {
    const instanceId: Id
    const codec: Codec
    const shm: Sending.ShmTransport
    const applier: Applying.ChangeApplier
    const watcher: FsWatcher
    const chunkSize: nat

    var seqNum: nat
    var suppressedPaths: set<Path>
    var peerOffline: bool

    /** The record of this instance's own pushes. */
    ghost var sender: Sender

    ghost predicate Valid()
      reads this, shm, shm.rb, applier
    {
      && shm.Valid() && applier.Valid() && Lossless(codec)
      && 1 <= chunkSize && |shm.logs| == 2
      && sender.count <= seqNum < U64_LIMIT
    }

    ghost function View(): System
      reads shm, shm.rb, applier
    {
      System(shm.World(), applier.View())
    }

    ghost function AsReceiver(): Receiver {
      Receiver(instanceId, applier.digest, applier.strategy, codec)
    }

    /** What the peer will have been told once it has popped everything. */
    ghost function ToldPeer(): seq<SyncEvent>
      requires |shm.logs| == 2
      reads shm
    {
      Told(codec, Other(instanceId), shm.logs[Other(instanceId)])
    }

    constructor (instanceId: Id, codec: Codec, shm: Sending.ShmTransport, applier: Applying.ChangeApplier,
                 watcher: FsWatcher)
      requires shm.Valid() && applier.Valid() && Lossless(codec)
      modifies shm
      ensures Valid() && seqNum == 0 && suppressedPaths == {} && !peerOffline
      ensures this.instanceId == instanceId && this.codec == codec
      ensures this.shm == shm && this.applier == applier && this.watcher == watcher
      ensures shm.World() == Next(old(shm.World()), Op.Register(instanceId))
      ensures instanceId in shm.activeMask && chunkSize == ChunkSize(shm.rb.Length)
      ensures shm.rb.Length < 65_536 ==> chunkSize == 16_384
      ensures 65_536 <= shm.rb.Length < 16_777_216 ==> chunkSize == shm.rb.Length / 4
      ensures 16_777_216 <= shm.rb.Length ==> chunkSize == 4_194_304
      ensures sender == Sender(0, None, {}, ToldPeer())
    {
      this.instanceId, this.codec := instanceId, codec;
      this.shm, this.applier, this.watcher := shm, applier, watcher;
      chunkSize := ChunkSize(shm.rb.Length);
      seqNum, suppressedPaths, peerOffline := 0, {}, false;
      new;
      var ok := shm.RegisterInstance(instanceId, true);
      sender := Sender(0, None, {}, ToldPeer());
    }

    /**
     The next counter and the time, whether or not the push succeeds, and as many attempts as the clock
     allows and the lock permits, all of them with the same frame.
     */
    method Push(env: Surroundings, event: SyncEvent, ghost left: int)
        returns (out: Outcome, ghost steps: seq<SystemStep>)
      requires Valid() && EventFits(codec, instanceId, event) && seqNum + 1 < U64_LIMIT && 0 < left
      modifies this`seqNum, this`sender, shm, shm.rb
      ensures Valid() && seqNum == old(seqNum) + 1
      ensures out == Accepted || out == TooLarge || out == Full || out == Busy
      ensures Conducts(AsReceiver(), old(View()), old(sender), left, steps, View(), sender,
                       if out == Accepted then left - 1 else left)
      ensures OnePush(AsReceiver(), old(View()), steps, seqNum, env.clock(seqNum), event, env.locks(seqNum), out)
      ensures sender.events == old(sender.events) + (if out == Accepted && !event.Heartbeat? then [event] else [])
      ensures out == Busy ==> false in env.locks(seqNum)
      ensures out == TooLarge || out == Full ==> !Smooth(AsReceiver(), old(View()), steps)
      ensures old(instanceId in shm.activeMask) ==> instanceId in shm.activeMask
    {
      hide Inv, LegalRun, Exec, Smooth, AllAccepted, SenderEnd, Sending.PushRun, SystemRun, SystemEnd, Disciplined,
        Spaced, LeftAfter;
      ghost var before, s := View(), sender;
      seqNum := seqNum + 1;
      var envelope := Envelope(instanceId, seqNum, env.clock(seqNum), event);
      var payload: Payload := codec.encode(envelope);
      assert codec.decode(payload) == Some(envelope);
      ghost var ops;
      out, ops := shm.PushEvent(instanceId, payload, NotOwn(codec, instanceId), env.locks(seqNum));
      PushConducts(AsReceiver(), before, s, left, ops, payload, env.locks(seqNum), out);
      sender := SenderEnd(codec, instanceId, before.world, s, ops);
      steps := AsSteps(ops);
    }

    /** Anything the peer does in between. */
    method Interlude(ghost left: int) returns (ghost steps: seq<SystemStep>)
      requires Valid() && 0 <= left
      modifies shm, shm.rb
      ensures Valid()
      ensures Conducts(AsReceiver(), old(View()), sender, left, steps, View(), sender, left)
      ensures old(instanceId in shm.activeMask) ==> instanceId in shm.activeMask
    {
      hide Inv, LegalRun, Exec, Conducts;
      ghost var before := View();
      ghost var ops := shm.PeerMoves(instanceId, NotOwn(codec, instanceId));
      PeerConducts(AsReceiver(), before, sender, left, ops);
      steps := AsSteps(ops);
    }

    ghost function Received(): Receiving
      reads this, applier, watcher
    {
      Receiving(applier.View(), watcher.states, suppressedPaths)
    }

    /** Applies what came from the peer, in order; one's own events are skipped. */
    method HandleRemoteEvents(envelopes: seq<Envelope>, localTimes: seq<int>)
      requires applier.Valid()
      modifies this`suppressedPaths, this`peerOffline, applier, watcher
      ensures applier.Valid()
      ensures Received() == HandleAll(applier.digest, applier.strategy, old(Received()),
                                      WithTimes(OnlyApplied(envelopes, instanceId), localTimes))
      ensures peerOffline <==> (old(peerOffline) && !HearsPeer(envelopes, instanceId))
    {
      hide Deliver, Report, Track, HandleAll, WithTimes, OnlyApplied;
      ghost var h, strategy := applier.digest, applier.strategy;
      ghost var all := HandleAll(h, strategy, Received(), WithTimes(OnlyApplied(envelopes, instanceId), localTimes));
      var times := localTimes;
      assert envelopes[0..] == envelopes;
      for i := 0 to |envelopes|
        invariant applier.Valid()
        invariant HandleAll(h, strategy, Received(), WithTimes(OnlyApplied(envelopes[i..], instanceId), times)) == all
        invariant peerOffline <==> (old(peerOffline) && !HearsPeer(envelopes[..i], instanceId))
      {
        var envelope := envelopes[i];
        NextApplied(envelopes, i, instanceId);
        assert envelopes[..i + 1] == envelopes[..i] + [envelope];
        if envelope.instance == instanceId {
          continue;
        }
        if envelope.event.Heartbeat? {
          if peerOffline {
            peerOffline := false;
          }
          continue;
        }
        ghost var before := Received();
        FirstDelivery(h, strategy, before, envelope, OnlyApplied(envelopes[i + 1..], instanceId), times);
        suppressedPaths := suppressedPaths + PathOf(envelope.event);
        var time := if times == [] then 0 else times[0];
        times := if times == [] then [] else times[1..];
        var conflict, failed := applier.ApplyEvent(envelope.event, envelope.timestamp, time);
        if conflict.None? && !failed {
          watcher.RecordAppliedEvent(envelope.event);
        }
        assert Received() == HandleOne(h, strategy, before, Delivery(envelope.event, envelope.timestamp, time));
      }
      assert envelopes[|envelopes|..] == [] && envelopes[..|envelopes|] == envelopes;
      NothingApplied(h, strategy, Received(), instanceId, times);
    }

    /**
     Pops everything new, decodes it, and handles it: one reception of the system model. If the lock
     is not obtained the call fails and nothing changes.
     */
    method DrainRemoteEvents(localTimes: seq<int>, locked: bool) returns (out: Outcome, ghost notes: seq<Note>)
      requires Valid() && instanceId in shm.activeMask
      modifies this`suppressedPaths, this`peerOffline, shm, applier, watcher
      ensures Valid() && out == (if locked then Done else Busy)
      ensures StepLegal(AsReceiver(), old(View()), Receive(localTimes))
      ensures View() == if locked then SystemNext(AsReceiver(), old(View()), Receive(localTimes)) else old(View())
      ensures Received() == if !locked then old(Received()) else
        HandleAll(applier.digest, applier.strategy, old(Received()),
                  WithTimes(Arrivals(codec, instanceId, Owed(old(shm.logs)[instanceId])), localTimes))
      ensures notes == if !locked then [] else
        NotesOf(applier.digest, applier.strategy, old(applier.View()),
                WithTimes(Arrivals(codec, instanceId, Owed(old(shm.logs)[instanceId])), localTimes))
      ensures watcher.states == TrackAll(old(watcher.states), notes)
      ensures peerOffline <==> (old(peerOffline) &&
        !(locked && HearsPeer(DecodeAll(codec, Owed(old(shm.logs)[instanceId])), instanceId)))
      ensures shm.activeMask == old(shm.activeMask)
    {
      hide Inv, Next, Step, InRange, Arrivals, RunAll, HandleAll, WithTimes, Lossless, Owed, PopReturns,
        OnlyApplied, DecodeAll, HearsPeer, NotesOf;
      notes := [];
      ghost var before := shm.World();
      RegisteredPop(before, instanceId);
      var popped := PopEnvelopes(locked);
      if popped.None? {
        return Busy, [];
      }
      HandleRemoteEvents(popped.value, localTimes);
      ghost var frames := Owed(before.logs[instanceId]);
      OnlyAppliedIsArrivals(codec, instanceId, frames);
      HandleAllIs(applier.digest, applier.strategy, old(Received()),
                  WithTimes(Arrivals(codec, instanceId, frames), localTimes));
      notes := NotesOf(applier.digest, applier.strategy, old(applier.View()),
                       WithTimes(Arrivals(codec, instanceId, frames), localTimes));
      out := Done;
    }

    /** The envelopes that were popped; none at all without the lock. */
    method PopEnvelopes(locked: bool) returns (popped: Option<seq<Envelope>>)
      requires shm.Valid() && instanceId in shm.activeMask
      modifies shm
      ensures shm.Valid()
      ensures shm.World() == if locked then Next(old(shm.World()), Pop(instanceId)) else old(shm.World())
      ensures shm.activeMask == old(shm.activeMask) && |shm.logs| == 2
      ensures popped == if locked then Some(DecodeAll(codec, Owed(old(shm.logs)[instanceId]))) else None
    {
      ghost var before := shm.World();
      RegisteredPop(before, instanceId);
      hide Inv, Next, Owed, PopReturns, PopStep, DecodeAll;
      var out := shm.PopEvents(instanceId, locked);
      if out.Busy? {
        return None;
      }
      var envelopes := DecodeFrames(out.frames);
      popped := Some(envelopes);
    }

    /** Frames that do not decode are skipped. */
    method DecodeFrames(frames: seq<Bytes>) returns (envelopes: seq<Envelope>)
      ensures envelopes == DecodeAll(codec, frames)
    {
      envelopes := [];
      assert frames[0..] == frames;
      for i := 0 to |frames|
        invariant envelopes + DecodeAll(codec, frames[i..]) == DecodeAll(codec, frames)
      {
        assert frames[i..][0] == frames[i] && frames[i..][1..] == frames[i + 1..];
        var decoded := codec.decode(frames[i]);
        if decoded.Some? {
          envelopes := envelopes + [decoded.value];
        }
      }
    }

    /** Declares a silent peer offline, once, and removes its claim on the ring if it gets the lock. */
    method CheckPeerAlive(elapsed: nat, locked: bool)
      requires Valid()
      modifies this`peerOffline, shm
      ensures Valid()
      ensures peerOffline <==> old(peerOffline) || 15_000 < elapsed
      ensures shm.World() == if 15_000 < elapsed && !old(peerOffline) && locked
                             then Next(old(shm.World()), ForceUnregister(Other(instanceId))) else old(shm.World())
    {
      if elapsed > PEER_TIMEOUT && !peerOffline {
        peerOffline := true;
        var ok := shm.ForceUnregisterPeer(Other(instanceId), locked);
      }
    }

    /** One drain, after whatever the peer did before it; it fails if the lock is not obtained. */
    method InterludeAndDrain(env: Surroundings, last: bool, ghost left: int)
        returns (out: Outcome, ghost steps: seq<SystemStep>, ghost left': int, ghost notes: seq<Note>)
      requires Valid() && instanceId in shm.activeMask && 0 <= left
      modifies this`suppressedPaths, this`peerOffline, shm, shm.rb, applier, watcher
      ensures Valid() && instanceId in shm.activeMask
      ensures out == if env.drains(seqNum, last) then Done else Busy
      ensures left' == if out == Done then DRAIN_EVERY_N_CHUNKS else left
      ensures out == Done ==> steps != [] && steps[|steps| - 1] == Receive(env.times(seqNum, last))
      ensures watcher.states == TrackAll(old(watcher.states), notes)
      ensures Conducts(AsReceiver(), old(View()), sender, left, steps, View(), sender, left')
    {
      hide Inv, SystemNext, StepLegal, Conducts, Arrivals, Owed, HandleAll, HearsPeer, WithTimes, DecodeAll, NotesOf,
        TrackAll;
      ghost var r, start := AsReceiver(), View();
      steps := Interlude(left);
      ghost var middle := View();
      var localTimes, locked := env.times(seqNum, last), env.drains(seqNum, last);
      out, notes := DrainRemoteEvents(localTimes, locked);
      left' := left;
      if !locked {
        return;
      }
      left' := DRAIN_EVERY_N_CHUNKS;
      ReceiveConducts(r, middle, sender, left, localTimes);
      ConductsMore(r, start, sender, left, steps, middle, sender, left, [Receive(localTimes)],
                   View(), sender, DRAIN_EVERY_N_CHUNKS);
      steps := steps + [Receive(localTimes)];
    }

    /** A push with all its attempts, and a drain behind an accepted one if asked for; `sent` if it was accepted. */
    method PushAndMaybeDrain(env: Surroundings, event: SyncEvent, drain: bool, ghost left: int)
        returns (out: Outcome, ghost sent: bool, ghost steps: seq<SystemStep>, ghost left': int,
                 ghost notes: seq<Note>)
      requires Valid() && instanceId in shm.activeMask && EventFits(codec, instanceId, event)
      requires seqNum + 1 < U64_LIMIT && 0 < left
      modifies this, shm, shm.rb, applier, watcher
      ensures Valid() && instanceId in shm.activeMask && seqNum == old(seqNum) + 1
      ensures out == Done || out == TooLarge || out == Full || out == Busy
      ensures if sent then out == (if drain && !env.drains(seqNum, false) then Busy else Done) else out != Done
      ensures out == Busy && !sent ==> false in env.locks(seqNum)
      ensures out == Busy ==> BusyAt(env, seqNum)
      ensures left' == if !sent then left else if drain && out == Done then DRAIN_EVERY_N_CHUNKS else left - 1
      ensures Conducts(AsReceiver(), old(View()), old(sender), left, steps, View(), sender, left')
      ensures sender.events == old(sender.events) + (if sent && !event.Heartbeat? then [event] else [])
      ensures watcher.states == TrackAll(old(watcher.states), notes)
      ensures out == TooLarge || out == Full ==> !Smooth(AsReceiver(), old(View()), steps)
    {
      hide *;
      ghost var r, start, s := AsReceiver(), View(), sender;
      out, steps := Push(env, event, left);
      sent, left', notes := out == Accepted, left, [];
      NothingTracked(watcher.states);
      if out == Accepted {
        out, left' := Done, left - 1;
        if drain {
          ghost var middle, more := View(), [];
          out, more, left', notes := InterludeAndDrain(env, false, left - 1);
          ConductsMore(r, start, s, left, steps, middle, sender, left - 1, more, View(), sender, left');
          steps := steps + more;
        }
      }
      BusyWhen(env, seqNum);
    }

    /** Pushes content in reads of at most `chunkSize` bytes, draining after every eighth chunk. */
    method PushChunks(env: Surroundings, path: Path, content: Bytes)
        returns (out: Outcome, ghost pieces: seq<Bytes>, ghost steps: seq<SystemStep>, ghost left: int,
                 ghost notes: seq<Note>)
      requires Valid() && instanceId in shm.activeMask && ChunksFit(codec, instanceId, path, chunkSize)
      requires seqNum + |content| < U64_LIMIT
      modifies this, shm, shm.rb, applier, watcher
      ensures Valid() && instanceId in shm.activeMask && seqNum <= old(seqNum) + |content|
      ensures out == Done || out == TooLarge || out == Full || out == Busy
      ensures Conducts(AsReceiver(), old(View()), old(sender), DRAIN_EVERY_N_CHUNKS, steps, View(), sender, left)
      ensures pieces <= Pieces(env, old(seqNum), chunkSize, content)
      ensures out == Done ==> pieces == Pieces(env, old(seqNum), chunkSize, content) && 0 <= left
      ensures out == Done ==> seqNum == old(seqNum) + |pieces| && Concat(pieces) == content
      ensures out == Busy ==> StoppedAt(env, old(seqNum), seqNum, content, pieces)
      ensures CutFrom(content, pieces) && (out == Done ==> Splits(content, pieces))
      ensures sender.events == old(sender.events) + ContentEvents(path, pieces, 0)
      ensures watcher.states == TrackAll(old(watcher.states), notes)
      ensures out == TooLarge || out == Full ==> !Smooth(AsReceiver(), old(View()), steps)
    {
      hide Inv, Conducts, Smooth, OnePush, Splits, CutFrom, ContentEvents, EventFits, ChunksFit, Pieces, Told,
        InStream, Lossless, TrackAll, StoppedAt, BusyAt;
      ghost var r, start, s, from := AsReceiver(), View(), sender, seqNum;
      StreamBegins(env, from, chunkSize, path, content);
      ghost var told, heard := [], [];
      pieces, steps, left, notes := [], [], DRAIN_EVERY_N_CHUNKS, [];
      NothingTracked(watcher.states);
      ConductsNothing(r, start, s, left);
      var offset, chunksPushed := 0, 0;
      while offset < |content|
        invariant Valid() && instanceId in shm.activeMask && offset <= |content|
        invariant seqNum == from + chunksPushed <= from + offset && |pieces| == chunksPushed
        invariant InStream(env, from, chunkSize, path, content, pieces, offset, told)
        invariant sender.events == s.events + told && watcher.states == TrackAll(old(watcher.states), notes)
        invariant left == DRAIN_EVERY_N_CHUNKS - chunksPushed % DRAIN_EVERY_N_CHUNKS
        invariant Conducts(r, start, s, DRAIN_EVERY_N_CHUNKS, steps, View(), sender, left)
        decreases |content| - offset
      {
        var n := ReadSize(env.buffers(seqNum + 1), chunkSize, |content| - offset);
        var chunk := content[offset..offset + n];
        ChunkFits(codec, instanceId, path, chunkSize, offset, chunk);
        ghost var before, s1, sent, more, left' := View(), sender, false, [], left;
        out, sent, more, left', heard := PushAndMaybeDrain(
          env, FileContent(path, offset, chunk), (chunksPushed + 1) % DRAIN_EVERY_N_CHUNKS == 0, left);
        ConductsMore(r, start, s, DRAIN_EVERY_N_CHUNKS, steps, before, s1, left, more, View(), sender, left');
        steps, left := steps + more, left';
        TrackAllAppend(old(watcher.states), notes, heard);
        notes := notes + heard;
        ghost var reached := offset;
        if sent {
          StreamGoesOn(env, from, chunkSize, path, content, pieces, offset, told);
          pieces, told, reached := pieces + [chunk], told + [FileContent(path, offset, chunk)], offset + n;
        }
        if out != Done {
          StoppedWhen(env, from, seqNum, content, pieces);
          StreamStops(env, from, chunkSize, path, content, pieces, reached, told);
          return;
        }
        chunksPushed := chunksPushed + 1;
        offset := offset + n;
      }
      StreamStops(env, from, chunkSize, path, content, pieces, offset, told);
      out := Done;
    }

    /**
     Streams content, draining after every eighth chunk and at the end, while the peer goes on. It stops
     at the first push that fails for good and at the first drain that does not obtain the lock. Next to a
     peer that keeps up nothing but the lock can stop it.
     */
    method StreamContent(env: Surroundings, path: Path, content: Bytes)
        returns (out: Outcome, ghost pieces: seq<Bytes>, ghost steps: seq<SystemStep>, ghost left: int,
                 ghost notes: seq<Note>)
      requires Valid() && instanceId in shm.activeMask && ChunksFit(codec, instanceId, path, chunkSize)
      requires seqNum + |content| < U64_LIMIT
      modifies this, shm, shm.rb, applier, watcher
      ensures Valid() && instanceId in shm.activeMask && seqNum <= old(seqNum) + |content|
      ensures out == Done || out == TooLarge || out == Full || out == Busy
      ensures Conducts(AsReceiver(), old(View()), old(sender), DRAIN_EVERY_N_CHUNKS, steps, View(), sender, left)
      ensures pieces <= Pieces(env, old(seqNum), chunkSize, content)
      ensures out == Done ==> pieces == Pieces(env, old(seqNum), chunkSize, content) && left == DRAIN_EVERY_N_CHUNKS
      ensures out == Busy ==> StoppedAt(env, old(seqNum), seqNum, content, pieces)
      ensures CutFrom(content, pieces) && (out == Done ==> Splits(content, pieces))
      ensures sender.events == old(sender.events) + ContentEvents(path, pieces, 0)
      ensures watcher.states == TrackAll(old(watcher.states), notes)
      ensures out == TooLarge || out == Full ==> !Smooth(AsReceiver(), old(View()), steps)
    {
      hide *;
      ghost var r, start, s := AsReceiver(), View(), sender;
      out, pieces, steps, left, notes := PushChunks(env, path, content);
      if out == Done {
        ghost var middle, more, left', heard := View(), [], left, [];
        out, more, left', heard := InterludeAndDrain(env, true, left);
        StoppedWhen(env, old(seqNum), seqNum, content, pieces);
        TrackAllAppend(old(watcher.states), notes, heard);
        notes := notes + heard;
        ConductsMore(r, start, s, DRAIN_EVERY_N_CHUNKS, steps, middle, sender, left, more, View(), sender, left');
        steps, left := steps + more, left';
      }
    }

    /**
     Sends what a report is about: the announcement, corrected to the hash and size found now, and
     behind it the content, or the report as it stands if there is no content to be read. It succeeds
     with all the bytes that were found; if they cannot be found any more only the announcement goes
     out. What is accepted is the announcement with the first pieces, or nothing.
     */
    method PushWithContentInner(env: Surroundings, item: Item)
        returns (out: Outcome, ghost announced: bool, ghost pieces: seq<Bytes>,
                 ghost steps: seq<SystemStep>, ghost left: int, ghost notes: seq<Note>)
      requires Valid() && instanceId in shm.activeMask
      requires ItemFits(codec, instanceId, applier.digest, chunkSize, item)
      requires seqNum + |Reads(item)| + 1 < U64_LIMIT
      modifies this, shm, shm.rb, applier, watcher
      ensures Valid() && instanceId in shm.activeMask && seqNum <= old(seqNum) + |Reads(item)| + 1
      ensures out == Done || out == TooLarge || out == Full || out == Busy
      ensures Conducts(AsReceiver(), old(View()), old(sender), DRAIN_EVERY_N_CHUNKS, steps, View(), sender, left)
      ensures out == Done ==> announced && left == DRAIN_EVERY_N_CHUNKS && Splits(Reads(item), pieces)
      ensures CutFrom(Reads(item), pieces) && pieces <= Pieces(env, old(seqNum) + 1, chunkSize, Reads(item))
      ensures out == Busy ==> BusyAt(env, seqNum)
      ensures sender.events
           == old(sender.events) + (if announced then ItemEvents(applier.digest, item, pieces) else [])
      ensures watcher.states == TrackAll(old(watcher.states), notes)
      ensures HasContent(item) && (out == Done || pieces != []) ==> Applied(Corrected(applier.digest, item)) in notes
      ensures out == TooLarge || out == Full ==> !Smooth(AsReceiver(), old(View()), steps)
    {
      hide Inv, Conducts, Smooth, Splits, CutFrom, ContentEvents, EventFits, ChunksFit, Corrected, ItemEvents, Pieces,
        StoppedAt, BusyAt, TrackAll, Track;
      ghost var r, start, s := AsReceiver(), View(), sender;
      pieces := [];
      AnnouncedAlone(applier.digest, item);
      var event := Corrected(applier.digest, item);
      out, announced, steps, left, notes := PushAndMaybeDrain(env, event, true, DRAIN_EVERY_N_CHUNKS);
      if out == Done && HasContent(item) {
        TrackOneMore(old(watcher.states), notes, Applied(event));
        notes := notes + [Applied(event)];
        watcher.RecordAppliedEvent(event);
        if item.disk.found.Some? {
          ghost var middle, s1, more, heard := View(), sender, [], [];
          out, pieces, more, left, heard := StreamContent(env, item.event.path, item.disk.found.value);
          ConductsMore(r, start, s, DRAIN_EVERY_N_CHUNKS, steps, middle, s1, DRAIN_EVERY_N_CHUNKS, more,
                       View(), sender, left);
          steps := steps + more;
          AnnouncedWith(applier.digest, item, pieces);
          TrackAllAppend(old(watcher.states), notes, heard);
          notes := notes + heard;
          if out == Busy {
            StoppedIsBusy(env, old(seqNum) + 1, seqNum, item.disk.found.value, pieces);
          }
        }
      }
    }

    /** The peer is told just that. Next to a peer that keeps up it is everything, unless the lock is not obtained. */
    method PushWithContent(env: Surroundings, item: Item)
        returns (out: Outcome, ghost announced: bool, ghost pieces: seq<Bytes>,
                 ghost steps: seq<SystemStep>, ghost left: int, ghost notes: seq<Note>)
      requires Valid() && instanceId in shm.activeMask
      requires ItemFits(codec, instanceId, applier.digest, chunkSize, item)
      requires seqNum + |Reads(item)| + 1 < U64_LIMIT
      modifies this, shm, shm.rb, applier, watcher
      ensures Valid() && instanceId in shm.activeMask
      ensures out == Done || out == TooLarge || out == Full || out == Busy
      ensures Conducts(AsReceiver(), old(View()), old(sender), DRAIN_EVERY_N_CHUNKS, steps, View(), sender, left)
      ensures CutFrom(Reads(item), pieces) && (out == Done ==> announced && Splits(Reads(item), pieces))
      ensures sender.events
           == old(sender.events) + (if announced then ItemEvents(applier.digest, item, pieces) else [])
      ensures watcher.states == TrackAll(old(watcher.states), notes)
      ensures HasContent(item) && (out == Done || pieces != []) ==> Applied(Corrected(applier.digest, item)) in notes
      ensures old(sender.events == ToldPeer()) && !Registers(OpsOf(instanceId, steps), Other(instanceId)) ==>
        sender.events == ToldPeer()
      ensures out == Busy ==> BusyAt(env, seqNum)
      ensures Unhindered(env) ==> forall f: nat :: KeptUp(AsReceiver(), old(View()), steps, f) ==> out == Done
    {
      hide Inv, Conducts, Smooth, Splits, CutFrom, ItemFits, ItemEvents, Told, KeptUp, Registers, Pieces, BusyAt,
        TrackAll, Corrected, HasContent;
      ghost var r, start, s := AsReceiver(), View(), sender;
      out, announced, pieces, steps, left, notes := PushWithContentInner(env, item);
      if Unhindered(env) {
        NeverBusy(env, seqNum);
      }
      RunIsOver(r, start, s, steps, View(), sender, left, out == TooLarge || out == Full);
    }

    /** Sends everything the scan at the start has found, up to the first failure. */
    method InitialSync(env: Surroundings, items: seq<Item>)
        returns (out: Outcome, ghost cuts: seq<seq<Bytes>>, ghost steps: seq<SystemStep>, ghost left: int,
                 ghost notes: seq<Note>)
      requires Valid() && instanceId in shm.activeMask && seqNum + PushBound(items) < U64_LIMIT
      requires forall k :: 0 <= k < |items| ==> ItemFits(codec, instanceId, applier.digest, chunkSize, items[k])
      modifies this, shm, shm.rb, applier, watcher
      ensures Valid() && instanceId in shm.activeMask
      ensures out == Done || out == TooLarge || out == Full || out == Busy
      ensures Conducts(AsReceiver(), old(View()), old(sender), DRAIN_EVERY_N_CHUNKS, steps, View(), sender, left)
      ensures SentUpTo(items, cuts) && (out == Done ==> SentWhole(items, cuts))
      ensures sender.events == old(sender.events) + ScanEvents(applier.digest, items[..|cuts|], cuts)
      ensures watcher.states == TrackAll(old(watcher.states), notes)
      ensures out == Done ==>
        forall k :: 0 <= k < |items| && HasContent(items[k]) ==> Applied(Corrected(applier.digest, items[k])) in notes
      ensures old(sender.events == ToldPeer()) && !Registers(OpsOf(instanceId, steps), Other(instanceId)) ==>
        sender.events == ToldPeer()
      ensures out == Busy ==> BusyAt(env, seqNum)
      ensures Unhindered(env) ==> forall f: nat :: KeptUp(AsReceiver(), old(View()), steps, f) ==> out == Done
    {
      hide Inv, Conducts, Smooth, Splits, CutFrom, Reads, ItemEvents, ScanEvents, ItemFits, PushBound, Told, KeptUp,
        Registers, SentWhole, SentUpTo, Pieces, BusyAt, Lossless, TrackAll, Corrected, HasContent;
      ghost var r, start, s := AsReceiver(), View(), sender;
      cuts, steps, left, notes := [], [], DRAIN_EVERY_N_CHUNKS, [];
      NothingTracked(watcher.states);
      ConductsNothing(r, start, s, left);
      NothingScanned(applier.digest, items);
      assert items[0..] == items && items[..|items|] == items;
      out := Done;
      for i := 0 to |items|
        invariant Valid() && instanceId in shm.activeMask && seqNum + PushBound(items[i..]) < U64_LIMIT
        invariant out == Done && left == DRAIN_EVERY_N_CHUNKS
        invariant |cuts| == i && SentWhole(items[..i], cuts) && SentUpTo(items, cuts)
        invariant Conducts(r, start, s, DRAIN_EVERY_N_CHUNKS, steps, View(), sender, left)
        invariant sender.events == s.events + ScanEvents(applier.digest, items[..i], cuts)
        invariant watcher.states == TrackAll(old(watcher.states), notes)
        invariant forall k :: 0 <= k < i && HasContent(items[k]) ==>
          Applied(Corrected(applier.digest, items[k])) in notes
      {
        ghost var middle, s1, announced, pieces, more, heard := View(), sender, false, [], [], [];
        PushBoundSplit(items, i);
        out, announced, pieces, more, left, heard := PushWithContentInner(env, items[i]);
        ConductsMore(r, start, s, DRAIN_EVERY_N_CHUNKS, steps, middle, s1, DRAIN_EVERY_N_CHUNKS, more,
                     View(), sender, left);
        steps := steps + more;
        TrackAllAppend(old(watcher.states), notes, heard);
        notes := notes + heard;
        if announced {
          OneMoreSent(items, cuts, pieces);
          ScanEventsOneMore(applier.digest, items[..i], cuts, items[i], pieces);
          assert items[..i + 1] == items[..i] + [items[i]];
          cuts := cuts + [pieces];
        }
        if out != Done {
          break;
        }
      }
      if Unhindered(env) {
        NeverBusy(env, seqNum);
      }
      RunIsOver(r, start, s, steps, View(), sender, left, out == TooLarge || out == Full);
    }
  }

  lemma {:induction false} StoppedWhen(env: Surroundings, from: nat, n: nat, content: Bytes, pieces: seq<Bytes>)
    ensures n == from + |pieces| + 1 && false in env.locks(n) ==> StoppedAt(env, from, n, content, pieces)
    ensures n == from + |pieces| && pieces != [] && |pieces| % DRAIN_EVERY_N_CHUNKS == 0 && !env.drains(n, false) ==>
      StoppedAt(env, from, n, content, pieces)
    ensures n == from + |pieces| && Concat(pieces) == content && !env.drains(n, true) ==>
      StoppedAt(env, from, n, content, pieces)
  {
  }

  lemma {:induction false} NothingTracked(states: States)
    ensures TrackAll(states, []) == states
  {
  }

  lemma {:induction false} NeverBusy(env: Surroundings, n: nat)
    requires Unhindered(env)
    ensures !BusyAt(env, n)
  {
  }

  lemma {:induction false} BusyWhen(env: Surroundings, n: nat)
    ensures false in env.locks(n) || !env.drains(n, false) ==> BusyAt(env, n)
  {
  }

  /** An item of which only the announcement was sent. */
  lemma {:induction false} AnnouncedAlone(h: Digest, item: Item)
    ensures CutFrom(Reads(item), []) && (Reads(item) == [] ==> Splits(Reads(item), []))
    ensures ItemEvents(h, item, []) == if Corrected(h, item).Heartbeat? then [] else [Corrected(h, item)]
  {
  }

  lemma {:induction false} AnnouncedWith(h: Digest, item: Item, pieces: seq<Bytes>)
    requires HasContent(item)
    ensures !Corrected(h, item).Heartbeat?
    ensures ItemEvents(h, item, pieces) == [Corrected(h, item)] + ContentEvents(item.event.path, pieces, 0)
  {
  }

  lemma {:induction false} NothingScanned(h: Digest, items: seq<Item>)
    ensures ScanEvents(h, [], []) == [] && SentWhole([], []) && SentUpTo(items, [])
  {
  }

  lemma {:induction false} NothingApplied(h: Digest, strategy: ConflictStrategy, s: Receiving, me: Id, times: seq<int>)
    ensures HandleAll(h, strategy, s, WithTimes(OnlyApplied([], me), times)) == s
  {
  }

  /** A registered reader's pop returns what it is owed and leaves the mask alone. */
  lemma {:induction false} RegisteredPop(world: World, id: Id)
    requires Inv(world) && id in world.ring.active
    ensures Legal(world, Pop(id)) && world.logs[id].tracked
    ensures Next(world, Pop(id)).ring.active == world.ring.active && |Next(world, Pop(id)).logs| == 2
    ensures Step(world.ring, Pop(id)).1 == Frames(Owed(world.logs[id]))
  {
    assert ReaderInv(world.ring, world.logs[id], id);
    TrackedPopReturns(world.ring, world.logs[id], id);
    PopDelivers(world.ring, world.logs[id], id);
  }
}
