/**
 What the reader's loop can do to any reader, tracked or overrun: it never goes round for ever, and
 it returns unless it is led behind the end of the ring.
 */
module RingReads {
  import opened ByteStrings
  import opened RingModel
  import opened RingProofs
  import opened RingBounds

  // ---------------------------------------------------------------------------
  // The frames in front of the write cursor
  // ---------------------------------------------------------------------------

  /** From offset 0 to the write cursor lie whole frames, read or not. */
  ghost predicate HasHead(ring: Ring)
    requires InRange(ring)
  {
    exists head :: Flat(ring.bytes, 0, ring.write, head)
  }

  /** A frame written at `s` follows the frames in front of it, or is the first one itself. */
  lemma {:induction false} WrittenHead(b: Bytes, b': Bytes, w: nat, s: nat, e: nat, x: Bytes, wrap: bool,
                                       head: seq<Bytes>)
      returns (head': seq<Bytes>)
    requires Flat(b, 0, w, head) && Written(b, b', w, s, e, x, wrap) && w <= |b|
    requires if wrap then s == 0 else s == w
    ensures Flat(b', 0, e, head')
  {
    if wrap {
      head' := [x];
    } else {
      FlatFrame(b, b', 0, w, head);
      FlatAppend(b', 0, w, e, head, x);
      head' := head + [x];
    }
  }

  lemma {:induction false} PushKeepsHead(ring: Ring, payload: Payload)
    requires InRange(ring) && HasHead(ring)
    ensures InRange(PushStep(ring, payload).0) && HasHead(PushStep(ring, payload).0)
  {
    hide Flat, Written, BytesAfter, Verdict, Fits;
    var cap, w, f := |ring.bytes|, ring.write, FrameLength(payload);
    if Verdict(ring, f) == Accepted {
      SomebodyCounts(ring.active);
      var i: Id := if Counted(ring.active, 0) then 0 else 1;
      AcceptedBounds(ring, f);
      AcceptedFits(ring, f, i);
      FitsGeometry(cap, ring.cursors[i], w, f);
      WriteStaysInRange(cap, w, f);
      BytesAfterWritten(ring.bytes, w, payload);
      var b', s := BytesAfter(ring.bytes, w, payload), StartOf(cap, w, f);
      var head :| Flat(ring.bytes, 0, w, head);
      var head' := WrittenHead(ring.bytes, b', w, s, s + f, payload, NeedsWrap(cap, w, f), head);
      NothingAtZero(b');
      assert Flat(b', 0, PushStep(ring, payload).0.write, if s + f == cap then [] else head');
    }
  }

  lemma {:induction false} NothingAtZero(b: Bytes)
    ensures Flat(b, 0, 0, [])
  {
  }

  lemma {:induction false} SomebodyCounts(active: set<Id>)
    ensures Counted(active, 0) || Counted(active, 1)
  {
    if active != {} {
      var i :| i in active;
    }
  }

  lemma {:induction false} StepKeepsHead(world: World, op: Op)
    requires Inv(world) && Legal(world, op) && HasHead(world.ring)
    ensures HasHead(Advance(world, op).ring)
  {
    hide Flat, ScanFrames, BytesAfter, Unread;
    if op.Push? {
      PushKeepsHead(world.ring, op.payload);
    }
  }

  lemma {:induction false} RunKeepsHead(world: World, ops: seq<Op>)
    requires Inv(world) && LegalRun(world, ops) && HasHead(world.ring)
    ensures HasHead(Exec(world, ops).ring)
    decreases |ops|
  {
    hide Inv, Advance, Legal, HasHead;
    if ops != [] {
      StepKeepsHead(world, ops[0]);
      RunKeepsHead(Advance(world, ops[0]), ops[1..]);
    }
  }

  // ---------------------------------------------------------------------------
  // Every loop ends
  // ---------------------------------------------------------------------------

  /** Within `fuel` turns the loop comes to a turn that would read behind the end of the ring. */
  predicate LeadsOutside(b: Bytes, cursor: nat, write: nat, fuel: nat)
    requires 8 <= |b| && cursor < |b|
    decreases fuel
  {
    cursor != write && fuel > 0 &&
    match TurnAt(b, cursor, write)
    case Outside => true
    case Break(_) => false
    case Frame(_, next) => LeadsOutside(b, next, write, fuel - 1)
  }

  /** From a boundary between the frames in front of the write cursor the loop ends. */
  lemma {:induction false} ScanFromBoundary(b: Bytes, c: nat, write: nat, q: seq<Bytes>, fuel: nat)
    requires 8 <= |b| && c <= write && write + 4 <= |b| && Flat(b, c, write, q) && write - c <= 4 * fuel
    ensures ScanFrames(b, c, write, fuel).ended
  {
    FlatBounds(b, c, write, q);
    ScanIsExact(b, c, write, q, fuel);
  }

  /** Behind a sentinel, or at the end of the ring, the loop is in front of the frames it started from. */
  lemma {:induction false} ScanFromStart(b: Bytes, write: nat, head: seq<Bytes>, fuel: nat)
    requires 8 <= |b| && write + 4 <= |b| && Flat(b, 0, write, head) && write <= 4 * fuel
    ensures ScanFrames(b, 0, write, fuel).ended
    ensures
      var turn := TurnAtZero(b, write);
      turn.Frame? && 0 < fuel ==> ScanFrames(b, turn.next, write, fuel - 1).ended
  {
    ScanFromBoundary(b, 0, write, head, fuel);
    if write != 0 {
      FlatNext(b, 0, write, head);
      var next := 4 + |head[0]|;
      assert TurnAtZero(b, write) == Frame(head[0], next);
      hide Flat;
      if 0 < fuel {
        ScanFromBoundary(b, next, write, head[1..], fuel - 1);
      }
    }
  }

  /** Cursors only grow until the loop goes back to offset 0, and that it does once. */
  lemma {:induction false} LoopEnds(b: Bytes, c: nat, write: nat, head: seq<Bytes>, fuel: nat)
    requires 8 <= |b| && c < |b| && write + 4 <= |b| && Flat(b, 0, write, head)
    requires |b| - c + write <= 4 * fuel
    ensures ScanFrames(b, c, write, fuel).ended || LeadsOutside(b, c, write, fuel)
    decreases |b| - c
  {
    hide Flat, FromLittleEndian;
    if c != write && TurnAt(b, c, write).Frame? {
      var next := TurnAt(b, c, write).next;
      if FromLittleEndian(b[c..c + 4]) == WRAP_SENTINEL {
        ScanFromStart(b, write, head, fuel);
      } else if next == 0 {
        ScanFromStart(b, write, head, fuel - 1);
      } else {
        assert c + 4 <= next;
        LoopEnds(b, next, write, head, fuel - 1);
      }
    }
  }

  lemma {:induction false} EndedStaysInside(b: Bytes, c: nat, write: nat, fuel: nat)
    requires 8 <= |b| && c < |b| && ScanFrames(b, c, write, fuel).ended
    ensures !LeadsOutside(b, c, write, fuel)
    decreases fuel
  {
    if c != write && TurnAt(b, c, write).Frame? {
      EndedStaysInside(b, TurnAt(b, c, write).next, write, fuel - 1);
    }
  }

  /**
   Over every history, for every reader, overrun or not: its pop returns exactly when the loop is
   not led behind the end of the ring. It never goes round for ever.
   */
  lemma {:induction false} PopReturnsUnlessOutside(cap: nat, ops: seq<Op>, i: Id)
    requires 8 <= cap < U32_LIMIT && LegalHistory(cap, ops)
    ensures
      var ring := After(cap, ops).ring;
      PopReturns(ring, i) <==> !LeadsOutside(ring.bytes, ring.cursors[i], ring.write, cap)
  {
    hide Inv, LegalRun, Exec, ScanFrames, LeadsOutside, Flat;
    StartInv(cap);
    StartHasHead(cap);
    RunKeepsHead(Start(cap), ops);
    var ring := After(cap, ops).ring;
    var head :| Flat(ring.bytes, 0, ring.write, head);
    LoopEnds(ring.bytes, ring.cursors[i], ring.write, head, cap);
    if PopReturns(ring, i) {
      EndedStaysInside(ring.bytes, ring.cursors[i], ring.write, cap);
    }
  }

  lemma {:induction false} StartHasHead(cap: nat)
    requires 8 <= cap < U32_LIMIT
    ensures InRange(Start(cap).ring) && HasHead(Start(cap).ring)
  {
    assert Flat(Start(cap).ring.bytes, 0, 0, []);
  }

  /**
   Where no frame can be, the pop ends without one: behind a sentinel of an empty ring head it stands at
   offset 0, and in front of a length that leads behind the ring within 32 bits it stays.
   */
  lemma {:induction false} NoFrameEndsPop(ring: Ring, i: Id)
    requires InRange(ring) && ring.cursors[i] != ring.write && ring.cursors[i] + 4 <= |ring.bytes|
    ensures
      var c, cap := ring.cursors[i], |ring.bytes|;
      var len := FromLittleEndian(ring.bytes[c..c + 4]);
      && (len == 0xffff_ffff && ring.write == 0 ==>
           PopStep(ring, i) == (ring.(cursors := ring.cursors[i := 0]), Frames([])))
      && (len != 0xffff_ffff && cap < c + 4 + len < 0x1_0000_0000 ==> PopStep(ring, i) == (ring, Frames([])))
  {
    assert ring.cursors[i := ring.cursors[i]] == ring.cursors;
  }

  // ---------------------------------------------------------------------------
  // A pop that is led outside
  // ---------------------------------------------------------------------------

  /** At offset 4 stands a length that leads to the last byte of the ring. */
  lemma {:induction false} LastByteIsOutside(ring: Ring)
    requires InRange(ring) && 12 <= |ring.bytes| && ring.cursors[1] == 4 && ring.write == 8
    requires ring.bytes[4..8] == LittleEndian(|ring.bytes| - 9)
    ensures !PopReturns(ring, 1)
  {
    var b, cap := ring.bytes, |ring.bytes|;
    LittleEndianRoundTrip(cap - 9);
    assert TurnAt(b, 4, 8) == Frame(b[8..cap - 1], cap - 1);
    assert TurnAt(b, cap - 1, 8) == Outside;
    assert !ScanFrames(b, cap - 1, 8, cap - 1).ended;
  }

  lemma {:induction false} RegisteredIsTracked(world: World, i: Id)
    requires Inv(world) && i in world.ring.active
    ensures world.logs[i].tracked
  {
  }

  /** The third frame in front of an overrun cursor puts its own payload there. */
  lemma {:induction false} PayloadInFront(ring: Ring, payload: Payload)
    requires InRange(ring) && ring.write == 0 && |payload| == 4 && 12 <= |ring.bytes|
    requires PushStep(ring, payload).1 == Accepted
    ensures PushStep(ring, payload).0.bytes[4..8] == payload
    ensures |PushStep(ring, payload).0.bytes| == |ring.bytes|
  {
    BytesAfterWritten(ring.bytes, 0, payload);
  }

  /**
   In every ring of at least twelve bytes there is a history after which the pop of a reader that
   was forced out does not return: its cursor stands inside a frame, and what it takes for a length
   leads it to the last byte of the ring.
   */
  lemma {:induction false} OverrunReaderIsLedOutside(cap: nat) returns (ops: seq<Op>)
    requires 12 <= cap < U32_LIMIT
    ensures LegalHistory(cap, ops)
    ensures 1 !in After(cap, ops).ring.active && !PopReturns(After(cap, ops).ring, 1)
  {
    hide Inv, LegalRun, Exec, BytesAfter, Verdict, NeedsWrap, Advance, Start, PushStep, Step, InRange, PopReturns;
    StartInv(cap);
    var first := MoveTo(cap, 4);
    var w1 := After(cap, first);
    ForcedOut(w1);
    var w2 := Advance(w1, ForceUnregister(1));
    RegisteredIsTracked(w2, 0);
    var large: Payload, last: Payload := seq(cap - 8, _ => 0), LittleEndian(cap - 9);
    OverrunPush(w2, large);
    var w3 := Advance(w2, Push(0, large));
    PopAdvances(w3, 0);
    var w4 := Advance(w3, Pop(0));
    OverrunPush(w4, last);
    PayloadInFront(w4.ring, last);
    PushAdvances(w4, Push(0, last));
    LastByteIsOutside(Advance(w4, Push(0, last)).ring);
    ExecOneMore(Start(cap), first, ForceUnregister(1));
    var second := [Push(0, large), Pop(0), Push(0, last)];
    ThreeSteps(w2, second[0], second[1], second[2]);
    ExecAppend(Start(cap), first + [ForceUnregister(1)], second);
    ops := first + [ForceUnregister(1)] + second;
  }

  lemma {:induction false} ForcedOut(world: World)
    requires Inv(world) && world.ring.active == {0, 1}
    ensures Advance(world, ForceUnregister(1)).ring == world.ring.(active := {0})
  {
  }
}
