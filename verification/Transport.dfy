/** The shared-memory transport: a ring updated in place, byte by byte. */
module Transport {
  import opened ByteStrings
  import opened RingModel
  import opened RingProofs
  import opened RingBounds

  const MIN_SIZE := HEADER_SIZE + 8
  const MAX_SIZE := HEADER_SIZE + U32_LIMIT - 1

  /** What opening a segment demands of its header. */
  predicate HeaderBoundsOk(ring: Ring, totalSize: nat) {
    && MIN_SIZE <= totalSize <= MAX_SIZE
    && 0 < |ring.bytes| <= totalSize - HEADER_SIZE
    && ring.write < |ring.bytes|
    && |ring.cursors| == 2 && ring.cursors[0] < |ring.bytes| && ring.cursors[1] < |ring.bytes|
  }

  /** What is demanded: a permitted size, a ring that ends within the segment, and cursors within the ring. */
  lemma {:induction false} OpensIffInside(ring: Ring, totalSize: nat)
    requires |ring.cursors| == 2
    ensures HeaderBoundsOk(ring, totalSize)
       <==> && 64 <= totalSize <= 0x1_0000_0037 && 1 <= |ring.bytes| && 56 + |ring.bytes| <= totalSize
            && ring.write < |ring.bytes| && forall i: Id :: ring.cursors[i] < |ring.bytes|
  {
    if HeaderBoundsOk(ring, totalSize) {
      forall i: Id ensures ring.cursors[i] < |ring.bytes| {
        assert i == 0 || i == 1;
      }
    }
  }

  /** A second instance can open the segment at any moment of any run. */
  lemma {:induction false} ReachedHeadersOpen(totalSize: nat, ops: seq<Op>)
    requires MIN_SIZE <= totalSize <= MAX_SIZE && LegalHistory(totalSize - HEADER_SIZE, ops)
    ensures HeaderBoundsOk(After(totalSize - HEADER_SIZE, ops).ring, totalSize)
  {
    hide Inv, After, LegalHistory;
    assert InRange(After(totalSize - HEADER_SIZE, ops).ring);
  }

  /** What the other instance may do in between, as far as instance `me` is concerned. */
  predicate PeerOp(op: Op, me: Id, honest: Bytes -> bool) {
    match op
    case Push(id, payload) => id != me && honest(payload)
    case Pop(id) => id != me
    case Register(id) => id != me
    case Unregister(id) => id != me
    case ForceUnregister(_) => false
  }

  predicate PeerRun(ops: seq<Op>, me: Id, honest: Bytes -> bool) {
    forall k :: 0 <= k < |ops| ==> PeerOp(ops[k], me, honest)
  }

  /**
   `n` attempts of instance `id` to push one payload, all of them refused for want of room, with
   anything the peer does in between.
   */
  ghost predicate TriedInVain(world: World, ops: seq<Op>, id: Id, payload: Payload, honest: Bytes -> bool, n: nat)
    requires Inv(world) && LegalRun(world, ops)
    decreases |ops|
  {
    if ops == [] then n == 0
    else if ops[0] == Push(id, payload) then
      && 0 < n && Step(world.ring, ops[0]).1 == Full
      && TriedInVain(Advance(world, ops[0]), ops[1..], id, payload, honest, n - 1)
    else PeerOp(ops[0], id, honest) && TriedInVain(Advance(world, ops[0]), ops[1..], id, payload, honest, n)
  }

  /**
   All attempts of instance `id` to push one payload, with anything the peer does in between.
   `locks` are the answers to the requests for the lock, one for each attempt that the clock allows.
   An attempt is made when its answer is yes; a frame that got in, or never will, ends the call, and so
   does the first answer that is no; without room the next attempt follows, if there is one.
   */
  ghost predicate PushRun(world: World, ops: seq<Op>, id: Id, payload: Payload, honest: Bytes -> bool,
                          locks: seq<bool>, out: Outcome)
    requires Inv(world) && LegalRun(world, ops)
    decreases |ops|
  {
    if ops == [] then if locks == [] then out == Full else !locks[0] && out == Busy
    else if ops[0] == Push(id, payload) then
      && locks != [] && locks[0]
      && var verdict := Step(world.ring, ops[0]).1;
         if verdict == Full then PushRun(Advance(world, ops[0]), ops[1..], id, payload, honest, locks[1..], out)
         else out == verdict && |ops| == 1
    else PeerOp(ops[0], id, honest) && PushRun(Advance(world, ops[0]), ops[1..], id, payload, honest, locks, out)
  }

  lemma {:induction false} TriedAppend(world: World, a: seq<Op>, b: seq<Op>, id: Id, payload: Payload,
                                       honest: Bytes -> bool, m: nat, n: nat)
    requires Inv(world) && LegalRun(world, a) && LegalRun(Exec(world, a), b)
    requires TriedInVain(world, a, id, payload, honest, m) && TriedInVain(Exec(world, a), b, id, payload, honest, n)
    ensures LegalRun(world, a + b) && TriedInVain(world, a + b, id, payload, honest, m + n)
    decreases |a|
  {
    hide Inv, Advance, Legal, Step, PeerOp;
    ExecAppend(world, a, b);
    if a == [] {
      assert a + b == b;
    } else {
      var m' := if a[0] == Push(id, payload) then m - 1 else m;
      TriedAppend(Advance(world, a[0]), a[1..], b, id, payload, honest, m', n);
      assert (a + b)[0] == a[0] && (a + b)[1..] == a[1..] + b;
    }
  }

  /** Attempts in vain, and then the rest of the call. */
  lemma {:induction false} TriedThenRest(world: World, a: seq<Op>, b: seq<Op>, id: Id, payload: Payload,
                                         honest: Bytes -> bool, n: nat, locks: seq<bool>, out: Outcome)
    requires Inv(world) && LegalRun(world, a) && LegalRun(Exec(world, a), b)
    requires TriedInVain(world, a, id, payload, honest, n) && n <= |locks| && (forall k :: 0 <= k < n ==> locks[k])
    requires PushRun(Exec(world, a), b, id, payload, honest, locks[n..], out)
    ensures LegalRun(world, a + b) && PushRun(world, a + b, id, payload, honest, locks, out)
    decreases |a|
  {
    hide Inv, Advance, Legal, Step, PeerOp;
    ExecAppend(world, a, b);
    if a == [] {
      assert a + b == b && locks[0..] == locks;
    } else {
      assert (a + b)[0] == a[0] && (a + b)[1..] == a[1..] + b;
      if a[0] == Push(id, payload) {
        assert locks[1..][n - 1..] == locks[n..];
        TriedThenRest(Advance(world, a[0]), a[1..], b, id, payload, honest, n - 1, locks[1..], out);
      } else {
        TriedThenRest(Advance(world, a[0]), a[1..], b, id, payload, honest, n, locks, out);
      }
    }
  }

  lemma {:induction false} PeerTriesNothing(world: World, ops: seq<Op>, id: Id, payload: Payload,
                                            honest: Bytes -> bool)
    requires Inv(world) && LegalRun(world, ops) && PeerRun(ops, id, honest)
    ensures TriedInVain(world, ops, id, payload, honest, 0)
    decreases |ops|
  {
    hide Inv, Advance, Legal, Step;
    if ops != [] {
      assert PeerOp(ops[0], id, honest);
      PeerTriesNothing(Advance(world, ops[0]), ops[1..], id, payload, honest);
    }
  }

  lemma {:induction false} OneAttempt(world: World, id: Id, payload: Payload, honest: Bytes -> bool, locks: seq<bool>)
    requires Inv(world) && locks != [] && locks[0]
    ensures LegalRun(world, [Push(id, payload)])
    ensures
      var out := PushStep(world.ring, payload).1;
      && (if out == Full then TriedInVain(world, [Push(id, payload)], id, payload, honest, 1)
          else PushRun(world, [Push(id, payload)], id, payload, honest, locks, out))
      && (AllAccepted(world, [Push(id, payload)]) <==> out == Accepted)
  {
    hide Inv, Advance, PushStep;
    var op := Push(id, payload);
    OneStep(world, op);
    assert [op][1..] == [];
    assert Step(world.ring, op) == PushStep(world.ring, payload);
  }

  // ---------------------------------------------------------------------------
  // What the outcome of a push means
  // ---------------------------------------------------------------------------

  function Attempts(ops: seq<Op>, id: Id, payload: Payload): nat {
    if ops == [] then 0 else (if ops[0] == Push(id, payload) then 1 else 0) + Attempts(ops[1..], id, payload)
  }

  /** A frame that never fits, whatever the state of the ring. */
  predicate NeverFits(payload: Payload, cap: nat) {
    FrameLength(payload) + 4 > cap
  }

  /**
   The outcome is determined by the answers, the size of the frame and the attempts that were made.
   `Busy`: the answer to the next request is no. `Full`: all attempts that the clock allows were made.
   `TooLarge`: at the first attempt, and only for a frame that never fits.
   */
  lemma {:induction false} OutcomeOfPush(world: World, ops: seq<Op>, id: Id, payload: Payload, honest: Bytes -> bool,
                                         locks: seq<bool>, out: Outcome)
    requires Inv(world) && LegalRun(world, ops) && PushRun(world, ops, id, payload, honest, locks, out)
    ensures
      var n := Attempts(ops, id, payload);
      && n <= |locks| && (forall k :: 0 <= k < n ==> locks[k])
      && (out == Busy ==> n < |locks| && !locks[n])
      && (out == Busy || out == Full || out == Accepted || out == TooLarge)
      && (out == Full ==> n == |locks|)
      && (out == Accepted ==> 0 < n && !NeverFits(payload, |world.ring.bytes|))
      && (out == TooLarge ==> n == 1)
      && (locks != [] && locks[0] ==> (out == TooLarge <==> NeverFits(payload, |world.ring.bytes|)))
    decreases |ops|
  {
    hide Inv, Advance, Legal, PeerOp;
    if ops != [] {
      var next := Advance(world, ops[0]);
      SizeStays(world, ops[0]);
      if ops[0] == Push(id, payload) {
        hide Step;
        VerdictOfPush(world, id, payload);
        if Step(world.ring, ops[0]).1 == Full {
          OutcomeOfPush(next, ops[1..], id, payload, honest, locks[1..], out);
        } else {
          assert ops[1..] == [];
        }
      } else {
        OutcomeOfPush(next, ops[1..], id, payload, honest, locks, out);
      }
    }
  }

  lemma {:induction false} SizeStays(world: World, op: Op)
    requires Inv(world) && Legal(world, op)
    ensures |Advance(world, op).ring.bytes| == |world.ring.bytes|
  {
  }

  lemma {:induction false} VerdictOfPush(world: World, id: Id, payload: Payload)
    requires Inv(world)
    ensures
      var verdict := Step(world.ring, Push(id, payload)).1;
      && (verdict == Accepted || verdict == Full || verdict == TooLarge)
      && (verdict == TooLarge <==> NeverFits(payload, |world.ring.bytes|))
  {
  }

  /** An attempt at a moment when the ring has room is the last one, and the push is accepted. */
  lemma {:induction false} RoomEndsPush(world: World, a: seq<Op>, b: seq<Op>, id: Id, payload: Payload,
                                        honest: Bytes -> bool, locks: seq<bool>, out: Outcome)
    requires Inv(world) && LegalRun(world, a + [Push(id, payload)] + b)
    requires PushRun(world, a + [Push(id, payload)] + b, id, payload, honest, locks, out)
    requires LegalRun(world, a) && Verdict(Exec(world, a).ring, FrameLength(payload)) == Accepted
    ensures b == [] && out == Accepted
    decreases |a|
  {
    hide Inv, Advance, Legal, PeerOp, Verdict;
    var ops := a + [Push(id, payload)] + b;
    if a != [] {
      assert ops[0] == a[0] && ops[1..] == a[1..] + [Push(id, payload)] + b;
      var locks' := if a[0] == Push(id, payload) then locks[1..] else locks;
      RoomEndsPush(Advance(world, a[0]), a[1..], b, id, payload, honest, locks', out);
    }
  }

  /** What was accepted is the last frame for the other one, and for oneself. */
  lemma {:induction false} AcceptedIsLast(world: World, ops: seq<Op>, id: Id, payload: Payload, honest: Bytes -> bool,
                                          locks: seq<bool>, i: Id)
    requires Inv(world) && LegalRun(world, ops) && PushRun(world, ops, id, payload, honest, locks, Accepted)
    ensures
      var sent := Exec(world, ops).logs[i].sent;
      sent != [] && sent[|sent| - 1] == payload
    decreases |ops|
  {
    hide Inv, Legal, PeerOp;
    if ops[0] == Push(id, payload) && Step(world.ring, ops[0]).1 == Accepted {
      assert ops[1..] == [];
      AcceptedIsSent(world, id, payload, i);
    } else {
      hide Advance, Step;
      var locks' := if ops[0] == Push(id, payload) then locks[1..] else locks;
      AcceptedIsLast(Advance(world, ops[0]), ops[1..], id, payload, honest, locks', i);
    }
  }

  lemma {:induction false} AcceptedIsSent(world: World, id: Id, payload: Payload, i: Id)
    requires Inv(world) && Step(world.ring, Push(id, payload)).1 == Accepted
    ensures Advance(world, Push(id, payload)).logs[i].sent == world.logs[i].sent + [payload]
  {
    hide Inv, Step;
    assert i == 0 || i == 1;
  }

  class ShmTransport {
    const rb: array<byte>
    var rbWrite: nat
    var rbReadA: nat
    var rbReadB: nat
    var activeMask: set<Id>
    var seqA: nat
    var seqB: nat

    /** What each reader was sent and has received since it registered. */
    ghost var logs: seq<ReaderLog>

    ghost function Ring(): Ring
      reads this, rb
    {
      RingModel.Ring(rb[..], rbWrite, [rbReadA, rbReadB], activeMask)
    }

    ghost function World(): World
      reads this, rb
    {
      RingModel.World(Ring(), logs)
    }

    ghost predicate Valid()
      reads this, rb
    {
      Inv(World()) && rb.Length <= EXACT_CAPACITY
    }

    constructor (capacity: nat)
      requires 8 <= capacity < U32_LIMIT
      ensures fresh(rb) && World() == Start(capacity)
      ensures Valid() <==> capacity <= EXACT_CAPACITY
      ensures seqA == 0 && seqB == 0
    {
      rb := new byte[capacity](_ => 0);
      rbWrite, rbReadA, rbReadB := 0, 0, 0;
      activeMask := {};
      seqA, seqB := 0, 0;
      logs := [ReaderLog(true, [], []), ReaderLog(true, [], [])];
      new;
      assert rb[..] == seq(capacity, _ => 0);
      StartInv(capacity);
    }

    /** Creates a segment, or reports a size outside the permitted range. */
    static method Create(totalSize: nat) returns (shm: ShmTransport?)
      ensures shm != null <==> 64 <= totalSize <= 0x1_0000_0037
      ensures shm != null ==> fresh(shm) && fresh(shm.rb) && shm.World() == Start(totalSize - HEADER_SIZE)
      ensures shm != null ==> (shm.Valid() <==> totalSize - HEADER_SIZE <= EXACT_CAPACITY)
    {
      if totalSize < MIN_SIZE || MAX_SIZE < totalSize {
        return null;
      }
      shm := new ShmTransport(totalSize - HEADER_SIZE);
    }

    /** Copies `data` into the ring at offset `at`. */
    method CopyIn(at: nat, data: Bytes)
      requires at + |data| <= rb.Length
      modifies rb
      ensures rb[..] == Overwrite(old(rb[..]), at, data)
    {
      for i := 0 to |data|
        invariant forall k :: 0 <= k < rb.Length ==>
          rb[k] == if at <= k < at + i then data[k - at] else old(rb[k])
      {
        rb[at + i] := data[i];
      }
      assert rb[..] == Overwrite(old(rb[..]), at, data);
    }

    /** Copies `n` bytes out of the ring from offset `at`. */
    method CopyOut(at: nat, n: nat) returns (data: Bytes)
      requires at + n <= rb.Length
      ensures data == rb[..][at..at + n]
    {
      data := [];
      for i := 0 to n
        invariant data == rb[at..at + i]
      {
        data := data + [rb[at + i]];
      }
    }

    method FreeBytesLocked() returns (free: nat)
      requires InRange(Ring())
      ensures free == FreeBytes(Ring())
    {
      assert Ring().cursors[0] == rbReadA && Ring().cursors[1] == rbReadB;
      var used := 0;
      if activeMask == {} || 0 in activeMask {
        var u := Used(rbReadA, rbWrite, rb.Length);
        used := if used < u then u else used;
      }
      if activeMask == {} || 1 in activeMask {
        var u := Used(rbReadB, rbWrite, rb.Length);
        used := if used < u then u else used;
      }
      free := Monus(Monus(rb.Length, used), 1);
    }

    /** Writes the sentinel if the frame goes round, then the length field and the payload. */
    method WriteFrame(payload: Payload, needsWrap: bool) returns (start: nat)
      requires FrameLength(payload) + 4 <= rb.Length && rbWrite + 4 <= rb.Length
      requires needsWrap == NeedsWrap(rb.Length, rbWrite, FrameLength(payload))
      modifies rb
      ensures start == StartOf(rb.Length, rbWrite, FrameLength(payload))
      ensures rb[..] == BytesAfter(old(rb[..]), rbWrite, payload)
    {
      start := rbWrite;
      if needsWrap {
        if rbWrite != 0 {
          CopyIn(rbWrite, LittleEndian(WRAP_SENTINEL));
        }
        start := 0;
      }
      CopyIn(start, LittleEndian(|payload|));
      CopyIn(start + 4, payload);
    }

    /** In the permitted capacities none of the 32-bit sums of a push wraps around. */
    static lemma {:induction false} NoOverflow(cap: u32, w: u32, frameLen: u32)
      requires cap <= EXACT_CAPACITY && w + 4 <= cap && (w == 0 || 4 <= w) && frameLen + 4 <= cap
      ensures WrappingAdd(w, frameLen) == w + frameLen
      ensures NeedsWrap(cap, w, frameLen) ==> WrappingAdd(cap - w, frameLen) == cap - w + frameLen
    {
    }

    /**
     The size test and the room test, with the source's 32-bit sums, which are right in a valid
     ring. The source's check for a tail too short for a sentinel is the dead branch.
     */
    method CheckRoom(frameLen: u32) returns (verdict: Outcome, needsWrap: bool)
      requires InRange(Ring()) && 4 <= frameLen
      ensures verdict == MachineVerdict(Ring(), frameLen)
      ensures Valid() ==> verdict == Verdict(Ring(), frameLen)
      ensures Valid() && verdict == Accepted ==>
        && needsWrap == NeedsWrap(rb.Length, rbWrite, frameLen)
        && StartOf(rb.Length, rbWrite, frameLen) + frameLen < U32_LIMIT
    {
      hide FreeBytes, Unread;
      var cap, w := rb.Length, rbWrite;
      assert w + 4 <= cap;
      if frameLen > Monus(cap, 4) {
        return TooLarge, false;
      }
      if Valid() {
        NoOverflow(cap, w, frameLen);
      }
      var tailRemaining := cap - w;
      var end := WrappingAdd(w, frameLen);
      var wouldLeaveTinyTail := end < cap && cap - end < 4;
      needsWrap := end > cap || wouldLeaveTinyTail;
      var required := if needsWrap then WrappingAdd(tailRemaining, frameLen) else frameLen;
      var free := FreeBytesLocked();
      if required > free {
        return Full, needsWrap;
      }
      if needsWrap && w != 0 && tailRemaining < 4 {
        assert false;
      }
      verdict := Accepted;
    }

    /** One attempt to push, made while the lock is held. */
    method TryPush(id: Id, payload: Payload) returns (out: Outcome)
      requires Valid()
      modifies this`rbWrite, this`seqA, this`seqB, this`logs, rb
      ensures Valid()
      ensures (Ring(), out) == PushStep(old(Ring()), payload)
      ensures out == Accepted || out == TooLarge || out == Full
      ensures World() == Next(old(World()), Push(id, payload))
      ensures seqA == old(seqA) + (if out == Accepted && id == 0 then 1 else 0)
      ensures seqB == old(seqB) + (if out == Accepted && id == 1 then 1 else 0)
    {
      hide Inv, Next, BytesAfter, Verdict, NeedsWrap, StartOf, Around;
      ghost var before := World();
      NextInv(before, Push(id, payload));
      NextOnPush(before, id, payload);
      var frameLen: u32 := 4 + |payload|;
      var needsWrap;
      out, needsWrap := CheckRoom(frameLen);
      if out == Accepted {
        AcceptedBounds(before.ring, frameLen);
        var actualWrite := WriteFrame(payload, needsWrap);
        rbWrite := Around(WrappingAdd(actualWrite, frameLen), rb.Length);
        if id == 0 {
          seqA := seqA + 1;
        } else {
          seqB := seqB + 1;
        }
      }
      logs := Next(before, Push(id, payload)).logs;
    }

    /** Anything the other instance does while this one is not inside. */
    method PeerMoves(me: Id, honest: Bytes -> bool) returns (ghost ops: seq<Op>)
      requires Valid()
      modifies this, rb
      ensures Valid()
      ensures LegalRun(old(World()), ops) && World() == Exec(old(World()), ops) && PeerRun(ops, me, honest)
    {
      hide Inv, Next, LegalRun, Exec, PushStep, PopStep, ScanFrames;
      ghost var start := World();
      ops := [];
      NoOps(start);
      var peer, moves: nat := Other(me), *;
      for i := 0 to moves
        invariant Valid() && LegalRun(start, ops) && World() == Exec(start, ops) && PeerRun(ops, me, honest)
      {
        ghost var op;
        var kind: nat, payload: Payload := *, *;
        if kind == 0 && honest(payload) {
          op := Push(peer, payload);
          var out := TryPush(peer, payload);
        } else if kind == 1 && PopReturns(RingModel.Ring(rb[..], rbWrite, [rbReadA, rbReadB], activeMask), peer) {
          op := Pop(peer);
          var popped := PopEvents(peer, true);
        } else if kind == 2 {
          op := Unregister(peer);
          UnregisterInstance(peer, true);
        } else {
          op := Register(peer);
          var ok := RegisterInstance(peer, true);
        }
        ExecOneMore(start, ops, op);
        ops := ops + [op];
      }
    }

    /**
     Serialised events go in with as many attempts as the clock allows, one for each of the answers in
     `locks`: a full ring is tried again, while the peer goes on; an event that can never fit, and a
     lock that is not obtained, end the call at once.
     */
    method PushEvent(id: Id, payload: Payload, honest: Bytes -> bool, locks: seq<bool>)
        returns (out: Outcome, ghost ops: seq<Op>)
      requires Valid() && locks != []
      modifies this, rb
      ensures Valid()
      ensures LegalRun(old(World()), ops) && World() == Exec(old(World()), ops)
      ensures PushRun(old(World()), ops, id, payload, honest, locks, out)
      ensures out == Accepted || out == TooLarge || out == Full || out == Busy
      ensures out == Busy ==> false in locks
      ensures out == Full ==> Attempts(ops, id, payload) == |locks|
      ensures out == TooLarge || out == Full ==> !AllAccepted(old(World()), ops)
    {
      hide Inv, Next, LegalRun, Exec, PushStep, PushRun, TriedInVain, AllAccepted, Attempts;
      ghost var start := World();
      ops := [];
      NoOps(start);
      PeerTriesNothing(start, [], id, payload, honest);
      var tries := 0;
      while true
        invariant Valid() && LegalRun(start, ops) && World() == Exec(start, ops)
        invariant tries < |locks| && forall k :: 0 <= k < tries ==> locks[k]
        invariant TriedInVain(start, ops, id, payload, honest, tries)
        decreases |locks| - tries
      {
        ghost var before := World();
        ghost var moves := PeerMoves(id, honest);
        ExecAppend(start, ops, moves);
        PeerTriesNothing(before, moves, id, payload, honest);
        TriedAppend(start, ops, moves, id, payload, honest, tries, 0);
        ops := ops + moves;
        before := World();
        if !locks[tries] {
          out := Busy;
          NothingMore(before, id, payload, honest, locks[tries..], out);
          TriedThenRest(start, ops, [], id, payload, honest, tries, locks, out);
          assert ops + [] == ops;
          OutcomeOfPush(start, ops, id, payload, honest, locks, out);
          return;
        }
        out := TryPush(id, payload);
        OneAttempt(before, id, payload, honest, locks[tries..]);
        OneStep(before, Push(id, payload));
        ExecAppend(start, ops, [Push(id, payload)]);
        SplitRun(start, ops, [Push(id, payload)]);
        if out != Full {
          TriedThenRest(start, ops, [Push(id, payload)], id, payload, honest, tries, locks, out);
          ops := ops + [Push(id, payload)];
          OutcomeOfPush(start, ops, id, payload, honest, locks, out);
          return;
        }
        TriedAppend(start, ops, [Push(id, payload)], id, payload, honest, tries, 1);
        ops := ops + [Push(id, payload)];
        tries := tries + 1;
        if tries == |locks| {
          NothingMore(World(), id, payload, honest, locks[tries..], out);
          TriedThenRest(start, ops, [], id, payload, honest, tries, locks, out);
          assert ops + [] == ops;
          OutcomeOfPush(start, ops, id, payload, honest, locks, out);
          return;
        }
      }
    }

    static lemma {:induction false} NothingMore(world: World, id: Id, payload: Payload, honest: Bytes -> bool,
                                                locks: seq<bool>, out: Outcome)
      requires Inv(world) && (if locks == [] then out == Full else !locks[0] && out == Busy)
      ensures LegalRun(world, []) && PushRun(world, [], id, payload, honest, locks, out)
    {
    }

    static lemma {:induction false} NoOps(world: World)
      requires Inv(world)
      ensures LegalRun(world, []) && Exec(world, []) == world
    {
    }

    /** One turn of the reader's loop, with the source's 32-bit sums. */
    method TakeTurn(cursor: nat) returns (turn: Turn)
      requires 8 <= rb.Length < U32_LIMIT && cursor < rb.Length && !TurnAt(rb[..], cursor, rbWrite).Outside?
      ensures turn == TurnAt(rb[..], cursor, rbWrite)
    {
      hide FromLittleEndian, Around;
      var lenBuf := CopyOut(cursor, 4);
      var len := FromLittleEndian(lenBuf);
      if len == WRAP_SENTINEL {
        if rbWrite == 0 {
          return Break(0);
        }
        lenBuf := CopyOut(0, 4);
        var len2 := FromLittleEndian(lenBuf);
        if len2 == WRAP_SENTINEL || WrappingAdd(4, len2) > rb.Length {
          return Break(0);
        }
        var data := CopyOut(4, len2);
        return Frame(data, Around(WrappingAdd(4, len2), rb.Length));
      }
      if WrappingAdd(WrappingAdd(cursor, 4), len) > rb.Length {
        return Break(cursor);
      }
      var data := CopyOut(cursor + 4, len);
      turn := Frame(data, Around(WrappingAdd(WrappingAdd(cursor, 4), len), rb.Length));
    }

    /** The reader's loop. */
    method ReadAll(start: nat) returns (frames: seq<Bytes>, cursor: nat)
      requires 8 <= rb.Length < U32_LIMIT && start < rb.Length
      requires ScanFrames(rb[..], start, rbWrite, rb.Length).ended
      ensures ScanFrames(rb[..], start, rbWrite, rb.Length) == Scan(frames, cursor, true)
    {
      hide TurnAt, ScanFrames;
      ghost var b := rb[..];
      ghost var all, fuel: nat := ScanFrames(b, start, rbWrite, rb.Length), rb.Length;
      frames, cursor := [], start;
      while cursor != rbWrite
        invariant cursor < rb.Length && frames <= all.frames
        invariant ScanFrames(b, cursor, rbWrite, fuel) == Scan(all.frames[|frames|..], all.cursor, true)
        decreases fuel
      {
        ScanTurn(b, cursor, rbWrite, fuel);
        var turn := TakeTurn(cursor);
        if turn.Break? {
          return frames, turn.cursor;
        }
        assert all.frames[|frames|..][1..] == all.frames[|frames| + 1..];
        frames := frames + [turn.data];
        cursor := turn.next;
        fuel := fuel - 1;
      }
      ScanEnds(b, cursor, rbWrite, fuel);
    }

    /**
     All that the reader's loop finds, or nothing if the lock is not obtained. For a reader that was
     never overrun this is everything it has not seen yet, in order, and its cursor ends at the
     write cursor.
     */
    method PopEvents(id: Id, locked: bool) returns (out: Outcome)
      requires Valid() && PopReturns(Ring(), id)
      modifies this`rbReadA, this`rbReadB, this`logs
      ensures Valid()
      ensures World() == if locked then Next(old(World()), Pop(id)) else old(World())
      ensures out == if locked then PopStep(old(Ring()), id).1 else Busy
      ensures locked && old(logs)[id].tracked ==>
        && out == Frames(Owed(old(logs)[id]))
        && Ring() == old(Ring()).(cursors := old(Ring()).cursors[id := rbWrite])
    {
      if !locked {
        return Busy;
      }
      ghost var before := World();
      assert before.ring.cursors[0] == rbReadA && before.ring.cursors[1] == rbReadB;
      NextInv(before, Pop(id));
      PopEffect(before, id);
      hide Inv, Next, PopStep, ScanFrames, Owed;
      var start: nat := if id == 0 then rbReadA else rbReadB;
      var frames, cursor := ReadAll(start);
      if id == 0 {
        rbReadA := cursor;
      } else {
        rbReadB := cursor;
      }
      logs := Next(before, Pop(id)).logs;
      assert before.ring.cursors[id := cursor] == [rbReadA, rbReadB];
      out := Frames(frames);
    }

    static lemma {:induction false} ScanEnds(b: Bytes, cursor: nat, write: nat, fuel: nat)
      requires 8 <= |b| && cursor < |b|
      ensures cursor == write ==> ScanFrames(b, cursor, write, fuel) == Scan([], cursor, true)
    {
    }

    /** What the loop still has to find, after one more turn. */
    static lemma {:induction false} ScanTurn(b: Bytes, cursor: nat, write: nat, fuel: nat)
      requires 8 <= |b| && cursor < |b| && cursor != write && ScanFrames(b, cursor, write, fuel).ended
      ensures fuel > 0 && !TurnAt(b, cursor, write).Outside?
      ensures
        var scan, turn := ScanFrames(b, cursor, write, fuel), TurnAt(b, cursor, write);
        if turn.Break? then scan == Scan([], turn.cursor, true)
        else
          var rest := ScanFrames(b, turn.next, write, fuel - 1);
          rest.ended && scan.frames == [turn.data] + rest.frames && scan.cursor == rest.cursor
    {
    }

    static lemma {:induction false} PopEffect(world: World, id: Id)
      requires Inv(world) && PopReturns(world.ring, id)
      ensures
        var scan := ScanFrames(world.ring.bytes, world.ring.cursors[id], world.ring.write, |world.ring.bytes|);
        && PopStep(world.ring, id).0 == world.ring.(cursors := world.ring.cursors[id := scan.cursor])
        && PopStep(world.ring, id).1 == Frames(scan.frames)
        && Next(world, Pop(id)).ring == PopStep(world.ring, id).0 && |Next(world, Pop(id)).logs| == 2
        && (world.logs[id].tracked ==> scan.frames == Owed(world.logs[id]) && scan.cursor == world.ring.write)
    {
      if world.logs[id].tracked {
        PopDelivers(world.ring, world.logs[id], id);
        var cursors, cursor := world.ring.cursors, PopStep(world.ring, id).0.cursors[id];
        assert cursors[id := cursor][id] == cursors[id := world.ring.write][id];
      }
    }

    /**
     Sets the liveness bit and moves the read cursor to the end; false for an unknown instance, or
     if the lock is not obtained.
     */
    method RegisterInstance(instance: nat, locked: bool) returns (ok: bool)
      requires Valid()
      modifies this`activeMask, this`rbReadA, this`rbReadB, this`logs
      ensures Valid()
      ensures ok <==> instance <= 1 && locked
      ensures World() == if ok then Next(old(World()), Register(instance)) else old(World())
    {
      if instance > 1 || !locked {
        return false;
      }
      var id: Id := instance;
      ghost var before := World();
      NextInv(before, Register(id));
      activeMask := activeMask + {id};
      if id == 0 {
        rbReadA := rbWrite;
      } else {
        rbReadB := rbWrite;
      }
      logs := Next(before, Register(id)).logs;
      assert before.ring.cursors[id := rbWrite] == [rbReadA, rbReadB];
      ok := true;
    }

    /** Clears the bit of the leaving instance; without the lock the bit stays. */
    method UnregisterInstance(id: Id, locked: bool)
      requires Valid()
      modifies this`activeMask, this`logs
      ensures Valid()
      ensures World() == if locked then Next(old(World()), Unregister(id)) else old(World())
    {
      if locked {
        ghost var before := World();
        NextInv(before, Unregister(id));
        activeMask := activeMask - {id};
        logs := Next(before, Unregister(id)).logs;
      }
    }

    /** Clears the bit of a peer that was found offline, if the lock is obtained. */
    method ForceUnregisterPeer(peer: Id, locked: bool) returns (ok: bool)
      requires Valid()
      modifies this`activeMask, this`logs
      ensures Valid() && ok == locked
      ensures World() == if ok then Next(old(World()), ForceUnregister(peer)) else old(World())
    {
      if locked {
        ghost var before := World();
        NextInv(before, ForceUnregister(peer));
        if peer in activeMask {
          activeMask := activeMask - {peer};
        }
        logs := Next(before, ForceUnregister(peer)).logs;
      }
      ok := locked;
    }
  }
}
