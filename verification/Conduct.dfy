/** What the methods of an engine do to the system, as runs that compose. */
module Conduct {
  import opened ByteStrings
  import opened RingModel
  import opened RingProofs
  import opened RingBounds
  import opened Events
  import opened ApplyProofs
  import opened SyncModel
  import opened StreamBounds
  import opened SequenceNumbers
  import opened Transport

  // ---------------------------------------------------------------------------
  // Frames that fit
  // ---------------------------------------------------------------------------

  /** The event fits a frame under every 64-bit counter and time. */
  ghost predicate EventFits(codec: Codec, id: Id, e: SyncEvent) {
    forall n: u64, t: i64 :: |codec.encode(Envelope(id, n, t, e))| + 4 < U32_LIMIT
  }

  ghost predicate ChunksFit(codec: Codec, id: Id, path: Path, chunkSize: nat) {
    forall offset: u64, data: Bytes :: |data| <= chunkSize ==> EventFits(codec, id, FileContent(path, offset, data))
  }

  lemma {:induction false} ChunkFits(codec: Codec, id: Id, path: Path, chunkSize: nat, offset: nat, data: Bytes)
    requires ChunksFit(codec, id, path, chunkSize) && offset < U64_LIMIT && |data| <= chunkSize
    ensures EventFits(codec, id, FileContent(path, offset, data))
  {
    var offset64: u64 := offset;
    hide EventFits;
    assert EventFits(codec, id, FileContent(path, offset64, data));
  }

  // ---------------------------------------------------------------------------
  // Runs
  // ---------------------------------------------------------------------------

  /** Bytes that are no envelope of instance `id`. */
  function NotOwn(codec: Codec, id: Id): Bytes -> bool {
    (frame: Bytes) => !Own(codec, id, frame)
  }

  /**
   From one system to another by legal steps, in which instance `r.me` stamps its pushes in order
   and makes no more than eight of them between two pops: `left` and `left'` are how many more of
   them may follow, `s` and `s'` the sender's record.
   */
  ghost predicate Conducts(r: Receiver, before: System, s: Sender, left: int, steps: seq<SystemStep>,
                           after: System, s': Sender, left': int)
  {
    && Inv(before.world) && SystemRun(r, before, steps) && after == SystemEnd(r, before, steps)
    && var ops := OpsOf(r.me, steps);
       && LegalRun(before.world, ops) && Exec(before.world, ops) == after.world
       && Disciplined(r.codec, r.me, before.world, s, ops) && s' == SenderEnd(r.codec, r.me, before.world, s, ops)
       && Spaced(before.world, ops, r.me, left) && left' == LeftAfter(before.world, ops, r.me, left)
  }

  lemma {:induction false} ConductsNothing(r: Receiver, sys: System, s: Sender, left: int)
    requires Inv(sys.world) && 0 <= left
    ensures Conducts(r, sys, s, left, [], sys, s, left) && Smooth(r, sys, [])
  {
  }

  lemma {:induction false} SystemAppend(r: Receiver, sys: System, a: seq<SystemStep>, b: seq<SystemStep>)
    requires Inv(sys.world) && SystemRun(r, sys, a) && SystemRun(r, SystemEnd(r, sys, a), b)
    ensures SystemRun(r, sys, a + b) && SystemEnd(r, sys, a + b) == SystemEnd(r, SystemEnd(r, sys, a), b)
    decreases |a|
  {
    hide Inv, SystemNext, StepLegal;
    if a == [] {
      assert a + b == b;
    } else {
      assert (a + b)[0] == a[0] && (a + b)[1..] == a[1..] + b;
      SystemAppend(r, SystemNext(r, sys, a[0]), a[1..], b);
    }
  }

  lemma {:induction false} ConductsMore(r: Receiver, x: System, sx: Sender, lx: int, a: seq<SystemStep>,
                                        y: System, sy: Sender, ly: int, b: seq<SystemStep>,
                                        z: System, sz: Sender, lz: int)
    requires Conducts(r, x, sx, lx, a, y, sy, ly) && Conducts(r, y, sy, ly, b, z, sz, lz)
    ensures Conducts(r, x, sx, lx, a + b, z, sz, lz)
    ensures Smooth(r, x, a + b) ==> Smooth(r, x, a) && Smooth(r, y, b)
  {
    hide Inv, SystemRun, SystemEnd, LegalRun, Exec, Disciplined, SenderEnd, Spaced, LeftAfter, AllAccepted;
    SystemAppend(r, x, a, b);
    OpsOfAppend(r.me, a, b);
    var p, q := OpsOf(r.me, a), OpsOf(r.me, b);
    ExecAppend(x.world, p, q);
    DisciplinedAppend(r.codec, r.me, x.world, sx, p, q);
    SpacedAppend(x.world, p, q, r.me, lx);
    SplitRun(x.world, p, q);
  }

  /** No push of the run is refused. */
  ghost predicate Smooth(r: Receiver, before: System, steps: seq<SystemStep>) {
    && Inv(before.world) && LegalRun(before.world, OpsOf(r.me, steps))
    && AllAccepted(before.world, OpsOf(r.me, steps))
  }

  /** Ring operations that leave the receiver alone, as steps of the system. */
  function AsSteps(ops: seq<Op>): (steps: seq<SystemStep>)
    ensures |steps| == |ops|
  {
    if ops == [] then [] else [Transport(ops[0])] + AsSteps(ops[1..])
  }

  predicate LeaveAlone(ops: seq<Op>, me: Id) {
    ops == [] || (LeavesAlone(ops[0], me) && LeaveAlone(ops[1..], me))
  }

  lemma {:induction false} StepsOfOps(r: Receiver, sys: System, ops: seq<Op>)
    requires Inv(sys.world) && LegalRun(sys.world, ops) && LeaveAlone(ops, r.me)
    ensures SystemRun(r, sys, AsSteps(ops)) && OpsOf(r.me, AsSteps(ops)) == ops
    ensures SystemEnd(r, sys, AsSteps(ops)) == System(Exec(sys.world, ops), sys.applier)
    ensures r.me in sys.world.ring.active ==> r.me in Exec(sys.world, ops).ring.active
    decreases |ops|
  {
    hide Inv, Advance, Legal, LeavesAlone;
    if ops != [] {
      var next := System(Advance(sys.world, ops[0]), sys.applier);
      StaysRegistered(sys.world, ops[0], r.me);
      StepsOfOps(r, next, ops[1..]);
      assert AsSteps(ops)[1..] == AsSteps(ops[1..]);
    }
  }

  lemma {:induction false} StaysRegistered(world: World, op: Op, me: Id)
    requires Inv(world) && Legal(world, op) && LeavesAlone(op, me)
    ensures me in world.ring.active ==> me in Advance(world, op).ring.active
  {
  }

  /** Steps of the peer alone change nothing in the sender's record. */
  lemma {:induction false} PeerRunKeeps(r: Receiver, world: World, s: Sender, left: int, ops: seq<Op>)
    requires Inv(world) && LegalRun(world, ops) && PeerRun(ops, r.me, NotOwn(r.codec, r.me)) && 0 <= left
    ensures LeaveAlone(ops, r.me)
    ensures Disciplined(r.codec, r.me, world, s, ops) && SenderEnd(r.codec, r.me, world, s, ops) == s
    ensures Spaced(world, ops, r.me, left) && LeftAfter(world, ops, r.me, left) == left
    decreases |ops|
  {
    hide Inv, Advance, Legal, Step;
    if ops != [] {
      assert PeerOp(ops[0], r.me, NotOwn(r.codec, r.me));
      PeerRunKeeps(r, Advance(world, ops[0]), s, left, ops[1..]);
    }
  }

  /** What one push, with all its attempts, makes of the sender's record. */
  lemma {:induction false} PushRunStamps(r: Receiver, world: World, s: Sender, left: int, ops: seq<Op>,
                                         payload: Payload, locks: seq<bool>, out: Outcome)
    requires Inv(world) && LegalRun(world, ops)
    requires PushRun(world, ops, r.me, payload, NotOwn(r.codec, r.me), locks, out)
    requires Own(r.codec, r.me, payload) && 0 < left
    requires s.count < r.codec.decode(payload).value.seqNum
          || (s.count == r.codec.decode(payload).value.seqNum && s.retry == Some(payload))
    ensures LeaveAlone(ops, r.me)
    ensures Disciplined(r.codec, r.me, world, s, ops)
    ensures
      var e, s' := r.codec.decode(payload).value, SenderEnd(r.codec, r.me, world, s, ops);
      && s'.count <= e.seqNum
      && s'.events == s.events + (if out == Accepted && !e.event.Heartbeat? then [e.event] else [])
    ensures Spaced(world, ops, r.me, left)
    ensures LeftAfter(world, ops, r.me, left) == if out == Accepted then left - 1 else left
    decreases |ops|
  {
    hide Inv, Advance, Legal, Step;
    if ops != [] {
      var op, next, outcome := ops[0], Advance(world, ops[0]), Step(world.ring, ops[0]).1;
      if op == Push(r.me, payload) && outcome != Full {
        assert ops[1..] == [];
      } else if op == Push(r.me, payload) {
        PushRunStamps(r, next, SenderAfter(r.codec, r.me, s, op, outcome), left, ops[1..], payload, locks[1..], out);
      } else {
        assert PeerOp(op, r.me, NotOwn(r.codec, r.me));
        PushRunStamps(r, next, s, left, ops[1..], payload, locks, out);
      }
    }
  }

  lemma {:induction false} PushConducts(r: Receiver, sys: System, s: Sender, left: int, ops: seq<Op>,
                                        payload: Payload, locks: seq<bool>, out: Outcome)
    requires Inv(sys.world) && LegalRun(sys.world, ops)
    requires PushRun(sys.world, ops, r.me, payload, NotOwn(r.codec, r.me), locks, out)
    requires Own(r.codec, r.me, payload) && 0 < left && s.count < r.codec.decode(payload).value.seqNum
    ensures
      var e, s' := r.codec.decode(payload).value, SenderEnd(r.codec, r.me, sys.world, s, ops);
      && Conducts(r, sys, s, left, AsSteps(ops), System(Exec(sys.world, ops), sys.applier), s',
                  if out == Accepted then left - 1 else left)
      && s'.count <= e.seqNum
      && s'.events == s.events + (if out == Accepted && !e.event.Heartbeat? then [e.event] else [])
    ensures OpsOf(r.me, AsSteps(ops)) == ops
    ensures Smooth(r, sys, AsSteps(ops)) <==> AllAccepted(sys.world, ops)
    ensures r.me in sys.world.ring.active ==> r.me in Exec(sys.world, ops).ring.active
  {
    hide Inv, LegalRun, Exec, PushRun, Disciplined, SenderEnd, Spaced, LeftAfter, AllAccepted, SystemRun, SystemEnd;
    PushRunStamps(r, sys.world, s, left, ops, payload, locks, out);
    StepsOfOps(r, sys, ops);
  }

  /**
   The run is one push of instance `r.me`: all its attempts carry the event with counter `n` and the time
   `now`, and the answers to its requests for the lock lead to the outcome.
   */
  ghost predicate OnePush(r: Receiver, before: System, steps: seq<SystemStep>, n: nat, now: i64, event: SyncEvent,
                          locks: seq<bool>, out: Outcome)
  {
    && Inv(before.world) && LegalRun(before.world, OpsOf(r.me, steps))
    && var payload := r.codec.encode(Envelope(r.me, n, now, event));
       && |payload| + 4 < U32_LIMIT
       && PushRun(before.world, OpsOf(r.me, steps), r.me, payload, NotOwn(r.codec, r.me), locks, out)
  }

  /** An accepted push put a frame behind all others that is read back as the stamped event. */
  lemma {:induction false} PushIsReadBack(r: Receiver, before: System, steps: seq<SystemStep>, n: nat, now: i64,
                                          event: SyncEvent, locks: seq<bool>)
    requires OnePush(r, before, steps, n, now, event, locks, Accepted) && Lossless(r.codec)
    ensures
      var sent := Exec(before.world, OpsOf(r.me, steps)).logs[Other(r.me)].sent;
      sent != [] && r.codec.decode(sent[|sent| - 1]) == Some(Envelope(r.me, n, now, event))
  {
    hide Inv, LegalRun, Exec, PushRun;
    AcceptedIsLast(before.world, OpsOf(r.me, steps), r.me, r.codec.encode(Envelope(r.me, n, now, event)),
                   NotOwn(r.codec, r.me), locks, Other(r.me));
  }

  lemma {:induction false} PeerConducts(r: Receiver, sys: System, s: Sender, left: int, ops: seq<Op>)
    requires Inv(sys.world) && LegalRun(sys.world, ops) && PeerRun(ops, r.me, NotOwn(r.codec, r.me)) && 0 <= left
    ensures Conducts(r, sys, s, left, AsSteps(ops), System(Exec(sys.world, ops), sys.applier), s, left)
    ensures r.me in sys.world.ring.active ==> r.me in Exec(sys.world, ops).ring.active
  {
    hide Inv, LegalRun, Exec, PeerRun, Disciplined, SenderEnd, Spaced, LeftAfter, SystemRun, SystemEnd;
    PeerRunKeeps(r, sys.world, s, left, ops);
    StepsOfOps(r, sys, ops);
  }

  lemma {:induction false} ReceiveConducts(r: Receiver, sys: System, s: Sender, left: int, localTimes: seq<int>)
    requires Inv(sys.world) && StepLegal(r, sys, Receive(localTimes)) && 0 <= left
    ensures Conducts(r, sys, s, left, [Receive(localTimes)],
                     SystemNext(r, sys, Receive(localTimes)), s, DRAIN_EVERY_N_CHUNKS)
  {
    hide Inv, Advance, RunAll, Step, Legal;
    var step, next := Receive(localTimes), SystemNext(r, sys, Receive(localTimes));
    OneStep(sys.world, Pop(r.me));
    assert [step][0] == step && [step][1..] == [];
    assert SystemRun(r, next, []) && SystemEnd(r, next, []) == next;
    assert OpsOf(r.me, []) == [];
    assert OpsOf(r.me, [step]) == [Pop(r.me)];
    var ops := [Pop(r.me)];
    assert ops[0] == Pop(r.me) && ops[1..] == [];
    assert LegalRun(next.world, []) && Exec(next.world, []) == next.world;
    assert Disciplined(r.codec, r.me, next.world, s, []) && SenderEnd(r.codec, r.me, next.world, s, []) == s;
    assert Spaced(next.world, [], r.me, DRAIN_EVERY_N_CHUNKS);
    assert LeftAfter(next.world, [], r.me, DRAIN_EVERY_N_CHUNKS) == DRAIN_EVERY_N_CHUNKS;
    assert Spaced(sys.world, ops, r.me, left) && LeftAfter(sys.world, ops, r.me, left) == DRAIN_EVERY_N_CHUNKS;
  }

  // ---------------------------------------------------------------------------
  // What follows for whole runs
  // ---------------------------------------------------------------------------

  /**
   The run began with a drained ring, nobody else pushed, no frame was longer than `f`, and
   whenever this instance popped the ring was drained again.
   */
  ghost predicate KeptUp(r: Receiver, before: System, steps: seq<SystemStep>, f: nat) {
    && Inv(before.world) && LegalRun(before.world, OpsOf(r.me, steps))
    && r.me in before.world.ring.active && Drained(before.world.ring) && 9 * f + 4 <= |before.world.ring.bytes|
    && KeepsUp(before.world, OpsOf(r.me, steps), r.me, f)
  }

  lemma {:induction false} KeptUpIsSmooth(r: Receiver, before: System, s: Sender, left: int, steps: seq<SystemStep>,
                                          after: System, s': Sender, left': int, f: nat)
    requires Conducts(r, before, s, left, steps, after, s', left') && left <= DRAIN_EVERY_N_CHUNKS
    requires KeptUp(r, before, steps, f)
    ensures Smooth(r, before, steps)
  {
    hide Inv, LegalRun, Drained, KeepsUp, Spaced, AllAccepted;
    KeepingUpMeetsNoRefusal(before.world, OpsOf(r.me, steps), r.me, f, left);
  }

  /** As long as the peer does not register again it will be told exactly what was accepted. */
  lemma {:induction false} ToldAtEnd(r: Receiver, before: System, s: Sender, left: int, steps: seq<SystemStep>,
                                     after: System, s': Sender, left': int)
    requires Conducts(r, before, s, left, steps, after, s', left')
    requires !Registers(OpsOf(r.me, steps), Other(r.me))
    requires s.events == Told(r.codec, Other(r.me), before.world.logs[Other(r.me)])
    ensures |after.world.logs| == 2 && s'.events == Told(r.codec, Other(r.me), after.world.logs[Other(r.me)])
  {
    hide Told, LegalRun, Exec, Disciplined, SenderEnd, Registers;
    ToldIsAccepted(r.codec, r.me, before.world, s, OpsOf(r.me, steps));
  }

  /** Both together: what the peer is told, and that a run next to one that keeps up is not refused. */
  lemma {:induction false} RunIsOver(r: Receiver, before: System, s: Sender, steps: seq<SystemStep>,
                                     after: System, s': Sender, left': int, refused: bool)
    requires Conducts(r, before, s, DRAIN_EVERY_N_CHUNKS, steps, after, s', left')
    requires refused ==> !Smooth(r, before, steps)
    ensures |before.world.logs| == 2 && |after.world.logs| == 2
    ensures !Registers(OpsOf(r.me, steps), Other(r.me)) ==>
      s.events == Told(r.codec, Other(r.me), before.world.logs[Other(r.me)]) ==>
        s'.events == Told(r.codec, Other(r.me), after.world.logs[Other(r.me)])
    ensures forall f: nat :: KeptUp(r, before, steps, f) ==> !refused
  {
    hide Told, LegalRun, Exec, Disciplined, SenderEnd, Registers, SystemRun, SystemEnd, Spaced, LeftAfter, Smooth,
      KeptUp;
    if !Registers(OpsOf(r.me, steps), Other(r.me))
       && s.events == Told(r.codec, Other(r.me), before.world.logs[Other(r.me)]) {
      ToldAtEnd(r, before, s, DRAIN_EVERY_N_CHUNKS, steps, after, s', left');
    }
    forall f: nat | KeptUp(r, before, steps, f) ensures !refused {
      KeptUpIsSmooth(r, before, s, DRAIN_EVERY_N_CHUNKS, steps, after, s', left', f);
    }
  }
}
