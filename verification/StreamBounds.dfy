/** When a file can be streamed without waiting for one's own read cursor. */
module StreamBounds {
  import opened Arithmetic
  import opened ByteStrings
  import opened RingModel
  import opened RingProofs
  import opened RingBounds
  import Chunker

  const MIN_CHUNK_SIZE := 16 * 1024
  const DRAIN_EVERY_N_CHUNKS := 8
  const DEFAULT_SEGMENT := 64 * 1024 * 1024

  /** A quarter of the ring, within the smallest and the default chunk size. */
  function ChunkSize(cap: nat): nat {
    if cap / 4 < MIN_CHUNK_SIZE then MIN_CHUNK_SIZE
    else if Chunker.DEFAULT_CHUNK_SIZE < cap / 4 then Chunker.DEFAULT_CHUNK_SIZE
    else cap / 4
  }

  /** The chunk size by ranges of the capacity, in bytes. */
  lemma {:induction false} ChunkSizeByCapacity(cap: nat)
    ensures
      var size := ChunkSize(cap);
      && (cap < 65_536 ==> size == 16_384)
      && (65_536 <= cap < 16_777_216 ==> 4 * size <= cap < 4 * size + 4)
      && (16_777_216 <= cap ==> size == 4_194_304)
  {
  }

  /**
   When a full chunk, of which an envelope makes a frame of `4 + overhead` more bytes, is not too large for
   the ring for good: in small rings it depends on the 16 384 bytes, in large ones on a quarter of the ring
   or the four megabytes.
   */
  lemma {:induction false} FullChunkPassesIff(ring: Ring, overhead: nat)
    requires InRange(ring)
    ensures
      var cap := |ring.bytes|;
      Verdict(ring, 4 + overhead + ChunkSize(cap)) != TooLarge
      <==> if cap < 65_536 then overhead + 16_392 <= cap
           else if cap < 16_777_216 then overhead + 8 + cap / 4 <= cap
           else overhead + 4_194_312 <= cap
  {
    ChunkSizeByCapacity(|ring.bytes|);
  }

  // ---------------------------------------------------------------------------
  // Draining after every eighth chunk
  // ---------------------------------------------------------------------------

  /** How many more pushes instance `i` may have accepted before it has to pop. */
  function LeftAfterStep(op: Op, out: Outcome, i: Id, left: int): int {
    if op.Push? && op.id == i && out == Accepted then left - 1
    else if op == Pop(i) then DRAIN_EVERY_N_CHUNKS
    else left
  }

  ghost function LeftAfter(world: World, ops: seq<Op>, i: Id, left: int): int
    requires Inv(world) && LegalRun(world, ops)
    decreases |ops|
  {
    if ops == [] then left
    else LeftAfter(Advance(world, ops[0]), ops[1..], i, LeftAfterStep(ops[0], Step(world.ring, ops[0]).1, i, left))
  }

  /** After eight accepted pushes instance `i` attempts no other one before it pops. */
  ghost predicate Spaced(world: World, ops: seq<Op>, i: Id, left: int)
    requires Inv(world) && LegalRun(world, ops)
    decreases |ops|
  {
    && 0 <= left
    && (ops != [] ==>
         && (ops[0].Push? && ops[0].id == i ==> 0 < left)
         && Spaced(Advance(world, ops[0]), ops[1..], i, LeftAfterStep(ops[0], Step(world.ring, ops[0]).1, i, left)))
  }

  lemma {:induction false} SpacedAppend(world: World, a: seq<Op>, b: seq<Op>, i: Id, left: int)
    requires Inv(world) && LegalRun(world, a) && LegalRun(Exec(world, a), b)
    requires Spaced(world, a, i, left) && Spaced(Exec(world, a), b, i, LeftAfter(world, a, i, left))
    ensures LegalRun(world, a + b) && Spaced(world, a + b, i, left)
    ensures LeftAfter(world, a + b, i, left) == LeftAfter(Exec(world, a), b, i, LeftAfter(world, a, i, left))
    decreases |a|
  {
    hide Inv, Advance, Legal, Step, LeftAfterStep;
    ExecAppend(world, a, b);
    if a == [] {
      assert a + b == b;
    } else {
      var left' := LeftAfterStep(a[0], Step(world.ring, a[0]).1, i, left);
      SpacedAppend(Advance(world, a[0]), a[1..], b, i, left');
      assert (a + b)[0] == a[0] && (a + b)[1..] == a[1..] + b;
    }
  }

  /** Nobody but `i` pushes, with frames of at most `f` bytes, and whenever `i` pops the ring is drained. */
  ghost predicate KeepsUp(world: World, ops: seq<Op>, i: Id, f: nat)
    requires Inv(world) && LegalRun(world, ops)
    decreases |ops|
  {
    ops != [] ==>
      && (match ops[0]
          case Push(id, payload) => id == i && FrameLength(payload) <= f
          case Pop(id) => id == i ==> Drained(Advance(world, ops[0]).ring)
          case _ => LeavesAlone(ops[0], i))
      && KeepsUp(Advance(world, ops[0]), ops[1..], i, f)
  }

  /** A stream in the middle of a batch: `left` more frames fit before the next drain. */
  ghost predicate InBatch(world: World, i: Id, f: nat, left: int) {
    && Inv(world) && i in world.ring.active && CountedInSync(world.ring) && 0 <= left
    && 9 * f + 4 <= |world.ring.bytes|
    && exists anchor: nat, wrapped: bool :: OnCourse(world.ring, anchor, Times(left, f), f, wrapped)
  }

  lemma {:induction false} DrainedStartsBatch(world: World, i: Id, f: nat, left: int)
    requires Inv(world) && i in world.ring.active && Drained(world.ring) && 0 <= left <= DRAIN_EVERY_N_CHUNKS
    requires 9 * f + 4 <= |world.ring.bytes|
    ensures InBatch(world, i, f, left)
  {
    DrainedIsInSync(world.ring);
    TimesIsProduct(DRAIN_EVERY_N_CHUNKS, f);
    TimesIsMonotonic(left, DRAIN_EVERY_N_CHUNKS, f);
    assert OnCourse(world.ring, world.ring.write, Times(left, f), f, false);
  }

  lemma {:induction false} PushInBatch(world: World, i: Id, op: Op, f: nat, left: int)
    requires InBatch(world, i, f, left) && op.Push? && FrameLength(op.payload) <= f && 0 < left
    ensures Step(world.ring, op).1 == Accepted
    ensures InBatch(Advance(world, op), i, f, left - 1)
  {
    hide Inv, OnCourse, PushStep, Verdict;
    var anchor: nat, wrapped: bool :| OnCourse(world.ring, anchor, Times(left, f), f, wrapped);
    assert Times(left, f) == Times(left - 1, f) + f;
    OnCourseAccepts(world.ring, anchor, Times(left, f), f, wrapped, op.payload);
    var wrapped' := OnCourseAfterPush(world.ring, anchor, Times(left, f), f, wrapped, op.payload);
    PushAdvances(world, op);
    PushLeavesMask(world, op);
    assert OnCourse(Advance(world, op).ring, anchor, Times(left - 1, f), f, wrapped');
  }

  /** Nothing that the other instance does, short of pushing, takes room away. */
  lemma {:induction false} OthersInBatch(world: World, i: Id, op: Op, f: nat, left: int)
    requires InBatch(world, i, f, left) && Legal(world, op) && LeavesAlone(op, i) && !op.Push?
    ensures InBatch(Advance(world, op), i, f, left)
  {
    hide Inv, OnCourse, Advance, CountedInSync, LeavesAlone, Legal;
    var anchor: nat, wrapped: bool :| OnCourse(world.ring, anchor, Times(left, f), f, wrapped);
    if op.Pop? {
      OnCourseAfterPop(world, op.id, anchor, Times(left, f), f, wrapped);
      PopLeavesMask(world, op.id);
    } else {
      MaskOnCourse(world, i, op, anchor, Times(left, f), f, wrapped);
    }
    assert OnCourse(Advance(world, op).ring, anchor, Times(left, f), f, wrapped);
  }

  lemma {:induction false} MaskOnCourse(world: World, i: Id, op: Op, anchor: nat, budget: nat, f: nat, wrapped: bool)
    requires Inv(world) && i in world.ring.active && CountedInSync(world.ring) && LeavesAlone(op, i)
    requires op.Register? || op.Unregister? || op.ForceUnregister?
    requires OnCourse(world.ring, anchor, budget, f, wrapped)
    ensures OnCourse(Advance(world, op).ring, anchor, budget, f, wrapped)
    ensures CountedInSync(Advance(world, op).ring) && i in Advance(world, op).ring.active
  {
    hide Inv, Advance, LeavesAlone, InSync;
    MaskEffect(world, i, op);
    var ring, ring' := world.ring, Advance(world, op).ring;
    forall j: Id | Counted(ring'.active, j)
      ensures InSync(ring', j)
      ensures Used(ring'.cursors[j], ring'.write, |ring'.bytes|) <= Used(anchor, ring'.write, |ring'.bytes|)
    {
      if ring'.cursors[j] == ring'.write {
        AtWriteIsInSync(ring', j);
      } else {
        SameInSync(ring, ring', j);
      }
    }
  }

  /** The mask changes, and whoever is new in it stands at the write cursor. */
  lemma {:induction false} MaskEffect(world: World, i: Id, op: Op)
    requires Inv(world) && i in world.ring.active && LeavesAlone(op, i)
    requires op.Register? || op.Unregister? || op.ForceUnregister?
    ensures
      var ring, ring' := world.ring, Advance(world, op).ring;
      && ring'.bytes == ring.bytes && ring'.write == ring.write && i in ring'.active
      && forall j: Id :: j in ring'.active ==>
           ring'.cursors[j] == ring'.write || (j in ring.active && ring'.cursors[j] == ring.cursors[j])
  {
    hide Inv;
  }

  lemma {:induction false} SameInSync(a: Ring, b: Ring, i: Id)
    requires InRange(a) && InRange(b) && InSync(a, i)
    requires b.bytes == a.bytes && b.write == a.write && b.cursors[i] == a.cursors[i]
    ensures InSync(b, i)
  {
  }

  lemma {:induction false} PushLeavesMask(world: World, op: Op)
    requires Inv(world) && op.Push?
    ensures Advance(world, op).ring.active == world.ring.active
  {
  }

  lemma {:induction false} PopLeavesMask(world: World, id: Id)
    requires Inv(world) && Legal(world, Pop(id))
    ensures Advance(world, Pop(id)).ring.active == world.ring.active
  {
  }

  lemma {:induction false} BatchesFit(world: World, ops: seq<Op>, i: Id, f: nat, left: int)
    requires InBatch(world, i, f, left) && LegalRun(world, ops)
    requires Spaced(world, ops, i, left) && KeepsUp(world, ops, i, f)
    ensures AllAccepted(world, ops)
    decreases |ops|
  {
    hide Inv, Advance, Step, Legal, Drained, OnCourse, CountedInSync;
    if ops != [] {
      var op, rest := ops[0], ops[1..];
      var next := Advance(world, op);
      var left' := LeftAfterStep(op, Step(world.ring, op).1, i, left);
      if op.Push? {
        PushInBatch(world, i, op, f, left);
      } else if op == Pop(i) {
        PopLeavesMask(world, i);
        DrainedStartsBatch(next, i, f, left');
      } else {
        OthersInBatch(world, i, op, f, left);
      }
      BatchesFit(next, rest, i, f, left');
    }
  }

  /**
   Streaming with a drain after every eighth chunk, next to a peer that pushes nothing and has
   caught up by each drain: with `9 * f + 4 <= cap` every push is accepted at its first attempt.
   */
  lemma {:induction false} KeepingUpMeetsNoRefusal(world: World, ops: seq<Op>, i: Id, f: nat, left: int)
    requires Inv(world) && LegalRun(world, ops) && i in world.ring.active && Drained(world.ring)
    requires left <= DRAIN_EVERY_N_CHUNKS && Spaced(world, ops, i, left) && KeepsUp(world, ops, i, f)
    requires 9 * f + 4 <= |world.ring.bytes|
    ensures AllAccepted(world, ops)
  {
    DrainedStartsBatch(world, i, f, left);
    BatchesFit(world, ops, i, f, left);
  }

  /** The bound on batches is exact: every drained ring takes eight frames of `f` bytes iff it holds. */
  lemma {:induction false} BatchBoundIsExact(cap: nat, f: nat)
    requires 8 <= cap < U32_LIMIT && 5 <= f < U32_LIMIT
    ensures BurstsAlwaysAccepted(cap, DRAIN_EVERY_N_CHUNKS - 1, f) <==> 9 * f + 4 <= cap
  {
    BurstBoundIsExact(cap, DRAIN_EVERY_N_CHUNKS - 1, f);
  }

  /** The default segment streams default chunks as long as an envelope adds less than 3 MB. */
  lemma {:induction false} DefaultSegmentStreams(overhead: nat)
    ensures
      var cap := DEFAULT_SEGMENT - HEADER_SIZE;
      9 * (4 + overhead + ChunkSize(cap)) + 4 <= cap <==> overhead <= 3_262_225
  {
  }

  // ---------------------------------------------------------------------------
  // Small rings jam
  // ---------------------------------------------------------------------------

  /** The bytes of all frames of the run. */
  function Volume(ops: seq<Op>): nat {
    if ops == [] then 0 else (if ops[0].Push? then FrameLength(ops[0].payload) else 0) + Volume(ops[1..])
  }

  /** How many frames of at least `f` bytes instance `i` pushes. */
  function LargePushes(ops: seq<Op>, i: Id, f: nat): nat {
    if ops == [] then 0
    else (if ops[0].Push? && ops[0].id == i && f <= FrameLength(ops[0].payload) then 1 else 0)
         + LargePushes(ops[1..], i, f)
  }

  lemma {:induction false} LargePushesHaveVolume(ops: seq<Op>, i: Id, f: nat)
    ensures Times(LargePushes(ops, i, f), f) <= Volume(ops)
  {
    if ops != [] {
      LargePushesHaveVolume(ops[1..], i, f);
    }
  }

  /** What reader `i` has still to read. */
  function Backlog(ring: Ring, i: Id): nat
    requires InRange(ring)
  {
    Used(ring.cursors[i], ring.write, |ring.bytes|)
  }

  lemma {:induction false} BacklogAfterStep(world: World, op: Op, i: Id)
    requires Inv(world) && Legal(world, op) && LeavesAlone(op, i) && i in world.ring.active
    requires op.Push? ==> Step(world.ring, op).1 == Accepted
    ensures
      var ring' := Advance(world, op).ring;
      && i in ring'.active
      && Backlog(ring', i) >= Backlog(world.ring, i) + (if op.Push? then FrameLength(op.payload) else 0)
  {
    var ring := world.ring;
    if op.Push? {
      AcceptedFits(ring, FrameLength(op.payload), i);
      FitsGeometry(|ring.bytes|, ring.cursors[i], ring.write, FrameLength(op.payload));
    }
  }

  lemma {:induction false} BacklogIsBounded(world: World, ops: seq<Op>, i: Id)
    requires Inv(world) && LegalRun(world, ops) && i in world.ring.active
    requires forall k :: 0 <= k < |ops| ==> LeavesAlone(ops[k], i)
    requires AllAccepted(world, ops)
    ensures Backlog(world.ring, i) + Volume(ops) < |world.ring.bytes|
    decreases |ops|
  {
    hide Inv, Advance, LeavesAlone, Legal, Step, Backlog;
    if ops == [] {
      BacklogFits(world, i);
    } else {
      BacklogAfterStep(world, ops[0], i);
      BacklogIsBounded(Advance(world, ops[0]), ops[1..], i);
    }
  }

  lemma {:induction false} BacklogFits(world: World, i: Id)
    requires Inv(world)
    ensures Backlog(world.ring, i) < |world.ring.bytes|
  {
  }

  /** Below this capacity eight chunks never fit between two drains. */
  const JAM_CAPACITY := 8 * (4 + Chunker.DEFAULT_CHUNK_SIZE)

  /**
   In a ring of at most 33 554 464 bytes a sender that pushes eight full chunks without popping
   is refused before the eighth is in, whatever the peer does: its own cursor is in the way.
   */
  lemma {:induction false} EightChunksJam(world: World, ops: seq<Op>, i: Id)
    requires Inv(world) && LegalRun(world, ops) && i in world.ring.active
    requires forall k :: 0 <= k < |ops| ==> LeavesAlone(ops[k], i)
    requires LargePushes(ops, i, 4 + ChunkSize(|world.ring.bytes|)) >= DRAIN_EVERY_N_CHUNKS
    requires |world.ring.bytes| <= JAM_CAPACITY
    ensures !AllAccepted(world, ops)
  {
    hide Inv, LegalRun, AllAccepted, LeavesAlone;
    var f := 4 + ChunkSize(|world.ring.bytes|);
    LargePushesHaveVolume(ops, i, f);
    TimesIsMonotonic(DRAIN_EVERY_N_CHUNKS, LargePushes(ops, i, f), f);
    TimesIsProduct(DRAIN_EVERY_N_CHUNKS, f);
    if AllAccepted(world, ops) {
      BacklogIsBounded(world, ops, i);
    }
  }
}
