/**
 When pushes are accepted and when they are refused: how many frames fit without a pop, why
 a refusal lasts, and for which capacities 32-bit arithmetic computes the same decisions.
 */
module RingBounds {
  import opened Arithmetic
  import opened ByteStrings
  import opened RingModel
  import opened RingProofs

  // ---------------------------------------------------------------------------
  // Bursts
  // ---------------------------------------------------------------------------

  /** From the cursor of reader `i` to the write cursor lie whole frames. */
  ghost predicate InSync(ring: Ring, i: Id)
    requires InRange(ring)
  {
    ring.cursors[i] + 4 <= |ring.bytes| && exists q :: Unread(ring.bytes, ring.cursors[i], ring.write, q)
  }

  ghost predicate CountedInSync(ring: Ring)
    requires InRange(ring)
  {
    forall i: Id :: Counted(ring.active, i) ==> InSync(ring, i)
  }

  /** Every reader that holds back writers stands at the write cursor. */
  predicate Drained(ring: Ring)
    requires InRange(ring)
  {
    forall i: Id :: Counted(ring.active, i) ==> ring.cursors[i] == ring.write
  }

  /** A reader that stands at the write cursor is in sync, whatever happened to it before. */
  lemma {:induction false} DrainedIsInSync(ring: Ring)
    requires InRange(ring) && Drained(ring)
    ensures CountedInSync(ring)
  {
    forall i: Id | Counted(ring.active, i) ensures InSync(ring, i) {
      AtWriteIsInSync(ring, i);
    }
  }

  lemma {:induction false} AtWriteIsInSync(ring: Ring, i: Id)
    requires InRange(ring) && ring.cursors[i] == ring.write
    ensures InSync(ring, i)
  {
    assert Flat(ring.bytes, ring.write, ring.write, []);
    assert Unread(ring.bytes, ring.cursors[i], ring.write, []);
  }

  lemma {:induction false} PushKeepsInSync(ring: Ring, payload: Payload, i: Id)
    requires InRange(ring) && Counted(ring.active, i) && InSync(ring, i)
    ensures InRange(PushStep(ring, payload).0) && InSync(PushStep(ring, payload).0, i)
  {
    if Verdict(ring, FrameLength(payload)) == Accepted {
      AcceptedFits(ring, FrameLength(payload), i);
      WriteStaysInRange(|ring.bytes|, ring.write, FrameLength(payload));
      var q :| Unread(ring.bytes, ring.cursors[i], ring.write, q);
      hide Unread, BytesAfter, WriteAfter, Fits;
      PushAppends(ring.bytes, ring.cursors[i], ring.write, q, payload);
    }
  }

  lemma {:induction false} PopInSync(ring: Ring, i: Id)
    requires InRange(ring) && InSync(ring, i)
    ensures PopStep(ring, i).0 == ring.(cursors := ring.cursors[i := ring.write])
  {
    var q :| Unread(ring.bytes, ring.cursors[i], ring.write, q);
    hide Unread;
    UnreadLength(ring.bytes, ring.cursors[i], ring.write, q);
    ScanIsExact(ring.bytes, ring.cursors[i], ring.write, q, |ring.bytes|);
  }

  function Pushes(ops: seq<Op>): nat {
    if ops == [] then 0 else (if ops[0].Push? then 1 else 0) + Pushes(ops[1..])
  }

  /** Pushes of frames of at most `f` bytes, with pops of anybody at any point between them. */
  predicate IsBurst(ops: seq<Op>, f: nat) {
    forall k :: 0 <= k < |ops| ==> ops[k].Pop? || (ops[k].Push? && FrameLength(ops[k].payload) <= f)
  }

  /** Every push of the run is accepted at its first attempt. */
  ghost predicate AllAccepted(world: World, ops: seq<Op>)
    requires Inv(world) && LegalRun(world, ops)
    decreases |ops|
  {
    ops != [] ==>
      && (ops[0].Push? ==> Step(world.ring, ops[0]).1 == Accepted)
      && AllAccepted(Advance(world, ops[0]), ops[1..])
  }

  lemma {:induction false} SplitRun(world: World, a: seq<Op>, b: seq<Op>)
    requires Inv(world) && LegalRun(world, a + b)
    ensures LegalRun(world, a) && LegalRun(Exec(world, a), b)
    ensures AllAccepted(world, a + b) <==> AllAccepted(world, a) && AllAccepted(Exec(world, a), b)
    decreases |a|
  {
    hide Inv, Advance, Legal, Step;
    if a == [] {
      assert a + b == b;
    } else {
      assert (a + b)[0] == a[0] && (a + b)[1..] == a[1..] + b;
      SplitRun(Advance(world, a[0]), a[1..], b);
    }
  }

  /** How many pushes of the run went round to offset 0 behind a sentinel. */
  ghost function Wraps(world: World, ops: seq<Op>): nat
    requires Inv(world) && LegalRun(world, ops)
    decreases |ops|
  {
    if ops == [] then 0
    else
      (if ops[0].Push? && NeedsWrap(|world.ring.bytes|, world.ring.write, FrameLength(ops[0].payload)) then 1 else 0)
      + Wraps(Advance(world, ops[0]), ops[1..])
  }

  /**
   The state of a burst that began at position `anchor` with `budget` bytes still to come and
   no frame longer than `f`: nobody lags behind the anchor, and the budget fits before it.
   */
  predicate OnCourse(ring: Ring, anchor: nat, budget: nat, f: nat, wrapped: bool)
    requires InRange(ring)
  {
    && anchor + 4 <= |ring.bytes|
    && (forall i: Id :: Counted(ring.active, i) ==>
         Used(ring.cursors[i], ring.write, |ring.bytes|) <= Used(anchor, ring.write, |ring.bytes|))
    && (if wrapped then ring.write < anchor && ring.write + budget < anchor
        else anchor <= ring.write && ring.write - anchor + budget + f + 4 <= |ring.bytes|)
  }

  lemma {:induction false} OnCourseAccepts(ring: Ring, anchor: nat, budget: nat, f: nat, wrapped: bool,
      payload: Payload)
    requires InRange(ring) && OnCourse(ring, anchor, budget, f, wrapped)
    requires FrameLength(payload) <= f <= budget
    ensures Verdict(ring, FrameLength(payload)) == Accepted
    ensures wrapped ==> !NeedsWrap(|ring.bytes|, ring.write, FrameLength(payload))
  {
    var cap, w, g := |ring.bytes|, ring.write, FrameLength(payload);
    assert MaxUsed(ring) <= Used(anchor, w, cap);
    if NeedsWrap(cap, w, g) {
      assert !wrapped && g < anchor;
    }
  }

  lemma {:induction false} OnCourseAfterPush(ring: Ring, anchor: nat, budget: nat, f: nat, wrapped: bool,
      payload: Payload)
      returns (wrapped': bool)
    requires InRange(ring) && OnCourse(ring, anchor, budget, f, wrapped)
    requires FrameLength(payload) <= f <= budget
    ensures InRange(PushStep(ring, payload).0)
    ensures OnCourse(PushStep(ring, payload).0, anchor, budget - f, f, wrapped')
    ensures wrapped || NeedsWrap(|ring.bytes|, ring.write, FrameLength(payload)) ==> wrapped'
  {
    var cap, w, g := |ring.bytes|, ring.write, FrameLength(payload);
    OnCourseAccepts(ring, anchor, budget, f, wrapped, payload);
    WriteStaysInRange(cap, w, g);
    var ring' := PushStep(ring, payload).0;
    wrapped' := ring'.write < anchor;
    forall i: Id | Counted(ring.active, i)
      ensures Used(ring.cursors[i], ring'.write, cap) <= Used(anchor, ring'.write, cap)
    {
      AcceptedFits(ring, g, i);
      FitsGeometry(cap, ring.cursors[i], w, g);
    }
  }

  lemma {:induction false} PopAdvances(world: World, i: Id)
    requires Inv(world) && world.logs[i].tracked
    ensures Legal(world, Pop(i))
    ensures
      var world' := Advance(world, Pop(i));
      && world'.ring == world.ring.(cursors := world.ring.cursors[i := world.ring.write])
      && (forall j: Id :: world'.logs[j].tracked == world.logs[j].tracked)
      && world'.logs[Other(i)] == world.logs[Other(i)]
  {
    TrackedPopReturns(world.ring, world.logs[i], i);
    PopDelivers(world.ring, world.logs[i], i);
  }

  lemma {:induction false} PopMovesOneCursor(world: World, id: Id)
    requires Inv(world) && Legal(world, Pop(id))
    ensures
      var world' := Advance(world, Pop(id));
      && |world'.ring.cursors| == 2
      && world'.ring == world.ring.(cursors := world.ring.cursors[id := world'.ring.cursors[id]])
      && (forall j: Id :: world'.logs[j].tracked == world.logs[j].tracked)
  {
    hide ScanFrames, Unread;
  }

  lemma {:induction false} OnCourseAfterPop(world: World, id: Id, anchor: nat, budget: nat, f: nat, wrapped: bool)
    requires Inv(world) && Legal(world, Pop(id)) && OnCourse(world.ring, anchor, budget, f, wrapped)
    requires CountedInSync(world.ring)
    ensures OnCourse(Advance(world, Pop(id)).ring, anchor, budget, f, wrapped)
    ensures CountedInSync(Advance(world, Pop(id)).ring)
  {
    assert InRange(world.ring) && InRange(Advance(world, Pop(id)).ring);
    PopRing(world, id);
    hide Inv, Advance, Legal, InRange, PopStep;
    PopMovesOneCursor(world, id);
    if Counted(world.ring.active, id) {
      hide InSync;
      PopInSync(world.ring, id);
    }
    PoppedInSync(world.ring, Advance(world, Pop(id)).ring, id);
  }

  lemma {:induction false} PopRing(world: World, id: Id)
    requires Inv(world) && Legal(world, Pop(id))
    ensures Advance(world, Pop(id)).ring == PopStep(world.ring, id).0
  {
    hide ScanFrames, Unread;
  }

  /** The popping reader, if it counts, stands at the write cursor; the others stand where they were. */
  lemma {:induction false} PoppedInSync(ring: Ring, ring': Ring, id: Id)
    requires InRange(ring) && InRange(ring') && CountedInSync(ring)
    requires ring' == ring.(cursors := ring.cursors[id := ring'.cursors[id]])
    requires Counted(ring.active, id) ==> ring'.cursors[id] == ring.write
    ensures CountedInSync(ring')
  {
    forall i: Id | Counted(ring'.active, i) ensures InSync(ring', i) {
      assert InSync(ring, i);
      if i == id {
        assert Flat(ring.bytes, ring.write, ring.write, []);
        assert Unread(ring'.bytes, ring'.cursors[i], ring'.write, []);
      } else {
        hide Unread;
        assert ring'.cursors[i] == ring.cursors[i];
      }
    }
  }

  lemma {:induction false} PushAdvances(world: World, op: Op)
    requires Inv(world) && op.Push?
    ensures CountedInSync(world.ring) ==> CountedInSync(Advance(world, op).ring)
    ensures Advance(world, op).ring == PushStep(world.ring, op.payload).0
    ensures Step(world.ring, op).1 == Verdict(world.ring, FrameLength(op.payload))
  {
    if CountedInSync(world.ring) {
      assert PushStep(world.ring, op.payload).0.active == world.ring.active;
      hide InSync, Unread, BytesAfter, Verdict;
      forall i: Id | Counted(world.ring.active, i) ensures InSync(Advance(world, op).ring, i) {
        PushKeepsInSync(world.ring, op.payload, i);
      }
    }
  }

  lemma {:induction false} BurstFromCourse(world: World, ops: seq<Op>, f: nat, anchor: nat, wrapped: bool)
    requires Inv(world) && LegalRun(world, ops) && IsBurst(ops, f) && CountedInSync(world.ring)
    requires OnCourse(world.ring, anchor, Times(Pushes(ops), f), f, wrapped)
    ensures AllAccepted(world, ops)
    ensures Wraps(world, ops) <= if wrapped then 0 else 1
    decreases |ops|
  {
    hide Inv, Advance, Step, PushStep, Verdict, NeedsWrap, OnCourse, CountedInSync;
    if ops != [] {
      var op, budget := ops[0], Times(Pushes(ops), f);
      if op.Push? {
        OnCourseAccepts(world.ring, anchor, budget, f, wrapped, op.payload);
        var wrapped' := OnCourseAfterPush(world.ring, anchor, budget, f, wrapped, op.payload);
        PushAdvances(world, op);
        BurstFromCourse(Advance(world, op), ops[1..], f, anchor, wrapped');
      } else {
        OnCourseAfterPop(world, op.id, anchor, budget, f, wrapped);
        BurstFromCourse(Advance(world, op), ops[1..], f, anchor, wrapped);
      }
    }
  }

  /**
   From a ring drained for all counted readers, any `k + 1` frames of at most `f` bytes are
   accepted without waiting for a pop if `(k + 2) * f + 4 <= cap`, and at most one of them wraps.
   */
  lemma {:induction false} BurstAccepted(world: World, ops: seq<Op>, k: nat, f: nat)
    requires Inv(world) && LegalRun(world, ops) && IsBurst(ops, f) && Pushes(ops) <= k + 1
    requires Drained(world.ring) && (k + 2) * f + 4 <= |world.ring.bytes|
    ensures AllAccepted(world, ops) && Wraps(world, ops) <= 1
  {
    hide Inv, LegalRun, AllAccepted, Wraps, IsBurst;
    TimesIsMonotonic(Pushes(ops), k + 1, f);
    TimesIsProduct(k + 2, f);
    DrainedIsInSync(world.ring);
    BurstFromCourse(world, ops, f, world.ring.write, false);
  }

  // ---------------------------------------------------------------------------
  // The bound is exact
  // ---------------------------------------------------------------------------

  function Repeat(op: Op, n: nat): (ops: seq<Op>)
    ensures |ops| == n && forall k :: 0 <= k < n ==> ops[k] == op
  {
    seq(n, _ => op)
  }

  lemma {:induction false} RepeatPushes(op: Op, n: nat)
    requires op.Push?
    ensures Pushes(Repeat(op, n)) == n
  {
    if n > 0 {
      RepeatPushes(op, n - 1);
      assert Repeat(op, n)[1..] == Repeat(op, n - 1);
    }
  }

  lemma {:induction false} PushesAreLegal(world: World, op: Op, n: nat)
    requires Inv(world) && op.Push?
    ensures LegalRun(world, Repeat(op, n))
    decreases n
  {
    hide Inv, Advance;
    if n > 0 {
      PushesAreLegal(Advance(world, op), op, n - 1);
      assert Repeat(op, n)[1..] == Repeat(op, n - 1);
    }
  }

  /** Behind a reader at offset `r`, no frame of `r` bytes or more fits at offset 0. */
  lemma {:induction false} NoRoomAtZero(ring: Ring, f: nat, r: nat)
    requires InRange(ring) && ring.write == 0 && Counted(ring.active, 0) && 0 < ring.cursors[0] == r <= f
    ensures Verdict(ring, f) != Accepted
  {
    assert Used(ring.cursors[0], 0, |ring.bytes|) <= MaxUsed(ring);
  }

  /** Where an accepted frame of at least `r` bytes leaves the ring when reader 0 stays at `r`. */
  lemma {:induction false} AcceptedStaysInFront(ring: Ring, payload: Payload, r: nat)
    requires InRange(ring) && Counted(ring.active, 0)
    requires 0 < ring.cursors[0] == r <= FrameLength(payload) && r <= ring.write
    requires Verdict(ring, FrameLength(payload)) == Accepted
    ensures
      var ring', end := PushStep(ring, payload).0, ring.write + FrameLength(payload);
      && ring'.cursors == ring.cursors && ring'.active == ring.active && |ring'.bytes| == |ring.bytes|
      && ((ring'.write == 0 && end == |ring.bytes|) || (ring'.write == end <= |ring.bytes| - 4))
  {
    AcceptedFits(ring, FrameLength(payload), 0);
    FitsGeometry(|ring.bytes|, r, ring.write, FrameLength(payload));
  }

  /** A reader at `r <= f` that does not move: the first frame that has to go round is refused. */
  lemma {:induction false} FrameGoingRoundIsRefused(world: World, op: Op, n: nat, r: nat)
    requires Inv(world) && op.Push? && LegalRun(world, Repeat(op, n))
    requires Counted(world.ring.active, 0) && 0 < world.ring.cursors[0] == r <= FrameLength(op.payload)
    requires r <= world.ring.write
    requires
      var end := world.ring.write + Times(n, FrameLength(op.payload));
      end > |world.ring.bytes| - 4 && end != |world.ring.bytes|
    ensures !AllAccepted(world, Repeat(op, n))
    decreases n
  {
    hide Inv, Advance, Step, PushStep, Verdict, Counted;
    if AllAccepted(world, Repeat(op, n)) {
      assert InRange(world.ring) && n > 0;
      PushAdvances(world, op);
      AcceptedStaysInFront(world.ring, op.payload, r);
      var world' := Advance(world, op);
      assert Repeat(op, n)[1..] == Repeat(op, n - 1);
      if world'.ring.write == 0 {
        assert n - 1 > 0 && Repeat(op, n - 1)[0] == op;
        assert AllAccepted(world', Repeat(op, n - 1));
        PushAdvances(world', op);
        NoRoomAtZero(world'.ring, FrameLength(op.payload), r);
        assert false;
      } else {
        FrameGoingRoundIsRefused(world', op, n - 1, r);
      }
    }
  }

  /** Both instances have just registered in a new ring. */
  ghost predicate BothRegistered(world: World, cap: nat): (both: bool)
    ensures both ==> Inv(world)
  {
    && Inv(world) && |world.ring.bytes| == cap && world.ring.write == 0 && world.ring.cursors == [0, 0]
    && world.ring.active == {0, 1} && world.logs == [ReaderLog(true, [], []), ReaderLog(true, [], [])]
  }

  const REGISTRATIONS: seq<Op> := [Register(0), Register(1)]

  lemma {:induction false} RegisterBoth(cap: nat)
    requires 8 <= cap < U32_LIMIT
    ensures LegalHistory(cap, REGISTRATIONS) && BothRegistered(After(cap, REGISTRATIONS), cap)
  {
    hide Unread;
    StartInv(cap);
    var start := Start(cap);
    var one := Advance(start, Register(0));
    assert one.ring.cursors == [0, 0];
    var both := Advance(one, Register(1));
    assert both.ring.cursors == [0, 0];
    hide Inv, Advance;
    OneStep(start, Register(0));
    ExecOneMore(start, [Register(0)], Register(1));
    assert [Register(0)] + [Register(1)] == REGISTRATIONS;
  }

  lemma {:induction false} FirstPush(world: World, cap: nat, payload: Payload)
    requires BothRegistered(world, cap) && FrameLength(payload) + 4 <= cap
    ensures
      var world' := Advance(world, Push(0, payload));
      && |world'.ring.cursors| == 2
      && world'.ring.write == FrameLength(payload) && world'.ring.active == {0, 1}
      && world'.logs[0].tracked && world'.logs[1].tracked
  {
    hide Unread, BytesAfter;
    assert world.ring.cursors[0] == 0 && world.ring.cursors[1] == 0;
    assert Verdict(world.ring, FrameLength(payload)) == Accepted;
  }

  /** Registrations, and one frame of `a` bytes, popped by both: a drained ring at write position `a`. */
  lemma {:induction false} MoveTo(cap: nat, a: nat) returns (ops: seq<Op>)
    requires 8 <= cap < U32_LIMIT && 4 <= a <= cap - 4
    ensures LegalHistory(cap, ops)
    ensures
      var ring := After(cap, ops).ring;
      ring.write == a && ring.cursors == [a, a] && ring.active == {0, 1}
  {
    hide Inv, Advance, LegalRun, Exec, Start;
    StartInv(cap);
    RegisterBoth(cap);
    var payload: Payload := seq(a - 4, _ => 0);
    var both, more := After(cap, REGISTRATIONS), [Push(0, payload), Pop(0), Pop(1)];
    FirstPush(both, cap, payload);
    var w1 := Advance(both, more[0]);
    PopAdvances(w1, 0);
    PopAdvances(Advance(w1, Pop(0)), 1);
    ThreeSteps(both, more[0], more[1], more[2]);
    ExecAppend(Start(cap), REGISTRATIONS, more);
    ops := REGISTRATIONS + more;
  }

  lemma {:induction false} ThreeSteps(world: World, a: Op, b: Op, c: Op)
    requires Inv(world) && Legal(world, a) && Legal(Advance(world, a), b)
    requires Legal(Advance(Advance(world, a), b), c)
    ensures LegalRun(world, [a, b, c])
    ensures Exec(world, [a, b, c]) == Advance(Advance(Advance(world, a), b), c)
  {
    hide Inv, Advance, Legal;
    var w1 := Advance(world, a);
    var w2 := Advance(w1, b);
    var w3 := Advance(w2, c);
    assert [c][0] == c && [c][1..] == [];
    assert LegalRun(w3, []) && Exec(w3, []) == w3;
    assert LegalRun(w2, [c]) && Exec(w2, [c]) == w3;
    assert [b, c][0] == b && [b, c][1..] == [c];
    assert LegalRun(w1, [b, c]) && Exec(w1, [b, c]) == w3;
    assert [a, b, c][0] == a && [a, b, c][1..] == [b, c];
  }

  /** Whatever happened before, a burst of `k + 1` frames of at most `f` bytes meets no refusal. */
  ghost predicate BurstsAlwaysAccepted(cap: nat, k: nat, f: nat)
    requires 8 <= cap < U32_LIMIT
  {
    forall history: seq<Op>, burst: seq<Op> ::
      LegalHistory(cap, history) && Drained(After(cap, history).ring)
      && LegalRun(After(cap, history), burst) && IsBurst(burst, f) && Pushes(burst) <= k + 1
      ==> AllAccepted(After(cap, history), burst)
  }

  lemma {:induction false} OversizeIsRefused(world: World, op: Op, n: nat)
    requires Inv(world) && op.Push? && 0 < n && LegalRun(world, Repeat(op, n))
    requires FrameLength(op.payload) + 4 > |world.ring.bytes|
    ensures !AllAccepted(world, Repeat(op, n))
  {
    hide Inv, Advance;
    assert Repeat(op, n)[0] == op;
  }

  lemma {:induction false} SomeBurstIsRefused(cap: nat, k: nat, f: nat) returns (history: seq<Op>, burst: seq<Op>)
    requires 8 <= cap < U32_LIMIT && 5 <= f < U32_LIMIT && (k + 2) * f + 4 > cap
    ensures LegalHistory(cap, history) && Drained(After(cap, history).ring)
    ensures LegalRun(After(cap, history), burst) && IsBurst(burst, f) && Pushes(burst) <= k + 1
    ensures !AllAccepted(After(cap, history), burst)
  {
    hide Inv, LegalRun, AllAccepted, Advance, Exec;
    var op := Push(0, seq(f - 4, _ => 0));
    burst := Repeat(op, k + 1);
    RepeatPushes(op, k + 1);
    TimesIsProduct(k + 2, f);
    var a := if f + Times(k + 1, f) == cap then f - 1 else f;
    if f > cap - 4 {
      history := REGISTRATIONS;
      RegisterBoth(cap);
      PushesAreLegal(After(cap, history), op, k + 1);
      OversizeIsRefused(After(cap, history), op, k + 1);
    } else {
      history := MoveTo(cap, a);
      PushesAreLegal(After(cap, history), op, k + 1);
      FrameGoingRoundIsRefused(After(cap, history), op, k + 1, a);
    }
  }

  /** The capacity bound for bursts is exact, for every burst length and every frame size. */
  lemma {:induction false} BurstBoundIsExact(cap: nat, k: nat, f: nat)
    requires 8 <= cap < U32_LIMIT && 5 <= f < U32_LIMIT
    ensures BurstsAlwaysAccepted(cap, k, f) <==> (k + 2) * f + 4 <= cap
  {
    if (k + 2) * f + 4 <= cap {
      forall history: seq<Op>, burst: seq<Op> |
        LegalHistory(cap, history) && Drained(After(cap, history).ring)
        && LegalRun(After(cap, history), burst) && IsBurst(burst, f) && Pushes(burst) <= k + 1
        ensures AllAccepted(After(cap, history), burst)
      {
        BurstAccepted(After(cap, history), burst, k, f);
      }
    } else {
      var history, burst := SomeBurstIsRefused(cap, k, f);
    }
  }

  // ---------------------------------------------------------------------------
  // A refusal lasts
  // ---------------------------------------------------------------------------

  /** A frame of `f` bytes does not fit in front of reader `i`. */
  predicate BlockedBy(ring: Ring, i: Id, f: nat)
    requires InRange(ring)
  {
    Counted(ring.active, i) && !Fits(|ring.bytes|, ring.cursors[i], ring.write, f)
  }

  /** What fits for nobody is refused, and a refusal always has a reader that causes it. */
  lemma {:induction false} RefusalHasReader(ring: Ring, f: nat)
    requires InRange(ring)
    ensures Verdict(ring, f) != Accepted <==> exists i: Id :: BlockedBy(ring, i, f)
  {
    if Verdict(ring, f) == Accepted {
      forall i: Id | Counted(ring.active, i) ensures !BlockedBy(ring, i, f) {
        AcceptedFits(ring, f, i);
      }
    } else {
      assert BlockedBy(ring, 0, f) || BlockedBy(ring, 1, f);
    }
  }

  lemma {:induction false} SmallerFrameKeepsBlock(cap: nat, r: nat, w: nat, f: nat, g: nat)
    requires 8 <= cap && r + 4 <= cap && w + 4 <= cap && 4 <= f && 4 <= g
    requires !Fits(cap, r, w, f) && Fits(cap, r, w, g)
    ensures WriteAfter(cap, w, g) + 4 <= cap
    ensures !Fits(cap, r, WriteAfter(cap, w, g), f)
  {
    FitsGeometry(cap, r, w, g);
  }

  /** A step that leaves reader `i` where it is and registered. */
  predicate LeavesAlone(op: Op, i: Id) {
    match op
    case Push(_, _) => true
    case Pop(id) => id != i
    case Register(id) => id != i
    case Unregister(id) => id != i
    case ForceUnregister(peer) => peer != i
  }

  lemma {:induction false} BlockSurvivesStep(world: World, op: Op, i: Id, f: nat)
    requires Inv(world) && Legal(world, op) && LeavesAlone(op, i)
    requires i in world.ring.active && BlockedBy(world.ring, i, f) && 4 <= f
    ensures i in Advance(world, op).ring.active && BlockedBy(Advance(world, op).ring, i, f)
  {
    var ring := world.ring;
    if op.Push? && Step(ring, op).1 == Accepted {
      AcceptedFits(ring, FrameLength(op.payload), i);
      SmallerFrameKeepsBlock(|ring.bytes|, ring.cursors[i], ring.write, f, FrameLength(op.payload));
    }
  }

  /**
   A push refused because of registered reader `i` stays refused, whatever anybody pushes and
   whatever the other reader does, until `i` itself pops, registers again or loses its bit.
   */
  lemma {:induction false} RefusalIsStable(world: World, ops: seq<Op>, i: Id, payload: Payload)
    requires Inv(world) && LegalRun(world, ops)
    requires forall k :: 0 <= k < |ops| ==> LeavesAlone(ops[k], i)
    requires i in world.ring.active && BlockedBy(world.ring, i, FrameLength(payload))
    ensures i in Exec(world, ops).ring.active && BlockedBy(Exec(world, ops).ring, i, FrameLength(payload))
    ensures PushStep(Exec(world, ops).ring, payload).0 == Exec(world, ops).ring
    ensures PushStep(Exec(world, ops).ring, payload).1 == Verdict(Exec(world, ops).ring, FrameLength(payload))
    ensures Verdict(Exec(world, ops).ring, FrameLength(payload)) != Accepted
    decreases |ops|
  {
    hide Inv, Advance, BlockedBy, LeavesAlone;
    if ops == [] {
      RefusalHasReader(world.ring, FrameLength(payload));
    } else {
      BlockSurvivesStep(world, ops[0], i, FrameLength(payload));
      RefusalIsStable(Advance(world, ops[0]), ops[1..], i, payload);
    }
  }

  // ---------------------------------------------------------------------------
  // 32-bit arithmetic
  // ---------------------------------------------------------------------------

  /** The largest capacity for which no sum below can reach 2^32. */
  const EXACT_CAPACITY := 0x8000_0003

  /** A sum of two 32-bit values as the release build computes it. */
  function WrappingAdd(x: u32, y: u32): u32 {
    if x + y < U32_LIMIT then x + y else x + y - U32_LIMIT
  }

  /** The decision of the source with its 32-bit sums. */
  function MachineVerdict(ring: Ring, frame: u32): Outcome
    requires InRange(ring)
  {
    var cap := |ring.bytes|;
    var w := ring.write;
    if frame > Monus(cap, 4) then TooLarge
    else
      var end := WrappingAdd(w, frame);
      var tinyTail := end < cap && cap - end < 4;
      var required := if end > cap || tinyTail then WrappingAdd(cap - w, frame) else frame;
      if required > FreeBytes(ring) then Full else Accepted
  }

  /** Every decision in every reachable state is the one without overflow. */
  ghost predicate MachineIsExact(cap: nat)
    requires 8 <= cap < U32_LIMIT
  {
    forall history: seq<Op>, payload: Payload :: LegalHistory(cap, history) ==>
      MachineVerdict(After(cap, history).ring, FrameLength(payload))
      == Verdict(After(cap, history).ring, FrameLength(payload))
  }

  /**
   The 32-bit decisions are right in every reachable state exactly when the capacity is at
   most 0x8000_0003. Above that, a ring that was filled to its last position and drained
   takes a second frame of that size without wrapping.
   */
  lemma {:induction false} MachineIsExactUpTo(cap: nat)
    requires 8 <= cap < U32_LIMIT
    ensures MachineIsExact(cap) <==> cap <= EXACT_CAPACITY
  {
    if cap > EXACT_CAPACITY {
      var history := MoveTo(cap, cap - 4);
      var payload: Payload := seq(cap - 8, _ => 0);
      var ring := After(cap, history).ring;
      assert MachineVerdict(ring, FrameLength(payload)) != Verdict(ring, FrameLength(payload));
    }
  }

  /** The capacity 2^31 is covered, and the sums behind an accepted frame stay below it. */
  lemma {:induction false} SumsStayIn32Bits(ring: Ring, payload: Payload, i: Id)
    requires InRange(ring) && |ring.bytes| <= EXACT_CAPACITY
    requires Verdict(ring, FrameLength(payload)) != TooLarge && (ring.write == 0 || 4 <= ring.write)
    ensures
      var cap, w, f := |ring.bytes|, ring.write, FrameLength(payload);
      && w + f < U32_LIMIT && Required(cap, w, f) < U32_LIMIT
      && StartOf(cap, w, f) + f < U32_LIMIT && Used(ring.cursors[i], w, cap) < U32_LIMIT
      && |payload| != WRAP_SENTINEL
      && (NeedsWrap(cap, w, f) ==> 0 < w && 4 <= cap - w)
  {
  }

  // ---------------------------------------------------------------------------
  // A reader that was forced out
  // ---------------------------------------------------------------------------

  /** Instance 1 is declared offline. */
  lemma {:induction false} ForceOut(world: World, cap: nat)
    requires BothRegistered(world, cap)
    ensures
      var world' := Advance(world, ForceUnregister(1));
      && world'.ring.write == 0 && world'.ring.cursors == [0, 0] && world'.ring.active == {0}
      && world'.logs == world.logs && |world'.ring.bytes| == cap
  {
    hide Unread;
  }

  /**
   Why nothing is claimed for a forced-out reader that has not registered again: in a ring of
   any capacity, two frames that fill the ring exactly are accepted over its cursor, and its
   next pop finds the queue empty.
   */
  lemma {:induction false} ForcedOutReaderLosesFrames(cap: nat) returns (ops: seq<Op>)
    requires 8 <= cap < U32_LIMIT
    ensures LegalHistory(cap, ops)
    ensures
      var world := After(cap, ops);
      && 1 !in world.ring.active && !world.logs[1].tracked
      && |Owed(world.logs[1])| == 2
      && Step(world.ring, Pop(1)).1 == Frames([])
  {
    hide Inv, LegalRun, Exec, BytesAfter, Verdict, NeedsWrap, Advance, Start, PushStep, Step, InRange, PopReturns;
    StartInv(cap);
    var small: Payload, large: Payload := [], seq(cap - 8, _ => 0);
    RegisterBoth(cap);
    var both := After(cap, REGISTRATIONS);
    ForceOut(both, cap);
    var w3 := Advance(both, ForceUnregister(1));
    OverrunPush(w3, small);
    var w4 := Advance(w3, Push(0, small));
    PopAdvances(w4, 0);
    var w5 := Advance(w4, Pop(0));
    OverrunPush(w5, large);
    var w6 := Advance(w5, Push(0, large));
    assert w6.logs[1].sent == [] + [small] + [large] && w6.logs[1].got == [];
    EmptyPop(w6.ring, 1);
    ExecOneMore(Start(cap), REGISTRATIONS, ForceUnregister(1));
    var first, second := REGISTRATIONS + [ForceUnregister(1)], [Push(0, small), Pop(0), Push(0, large)];
    ThreeSteps(w3, second[0], second[1], second[2]);
    ExecAppend(Start(cap), first, second);
    ops := first + second;
  }

  lemma {:induction false} EmptyPop(ring: Ring, i: Id)
    requires InRange(ring) && ring.cursors[i] == ring.write
    ensures Step(ring, Pop(i)).1 == Frames([])
  {
  }

  /** A frame that ends before the last four bytes or at the very end, counted for reader 0 alone. */
  lemma {:induction false} OverrunPush(world: World, payload: Payload)
    requires Inv(world) && world.ring.active == {0} && world.ring.cursors[0] == world.ring.write
    requires FrameLength(payload) + 4 <= |world.ring.bytes|
    requires
      var end := world.ring.write + FrameLength(payload);
      end + 4 <= |world.ring.bytes| || end == |world.ring.bytes|
    ensures
      var ring, world' := world.ring, Advance(world, Push(0, payload));
      && PushStep(ring, payload).1 == Accepted
      && world'.ring.write == Around(ring.write + FrameLength(payload), |ring.bytes|)
      && world'.ring.cursors == ring.cursors && world'.ring.active == {0}
      && world'.logs[0].tracked == world.logs[0].tracked
      && (world'.logs[1].tracked ==> Fits(|ring.bytes|, ring.cursors[1], ring.write, FrameLength(payload)))
      && world'.logs[1].sent == world.logs[1].sent + [payload] && world'.logs[1].got == world.logs[1].got
  {
  }
}
