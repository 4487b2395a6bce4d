/**
 The shared ring buffer as a state machine on values: one byte array, one write cursor, one
 read cursor and one liveness bit per instance. Every step mirrors the body that runs while
 the lock is held. A push is one attempt; a refused attempt leaves the ring unchanged, and
 the retry loop of the caller is the scheduler that attempts it again.
 */
module RingModel {
  import opened ByteStrings

  /** The two instances: 0 is the host, 1 the joiner. */
  type Id = i: int | 0 <= i < 2

  function Other(i: Id): Id { 1 - i }

  /** Bytes of a segment in front of the ring. */
  const HEADER_SIZE := 0x38

  /** A serialised event whose length plus its four-byte prefix fits a 32-bit integer. */
  type Payload = b: Bytes | |b| + 4 < U32_LIMIT

  /** The length field that stands for "continue at offset 0". */
  const WRAP_SENTINEL: u32 := 0xFFFF_FFFF

  /** `active` holds the instances whose bit is set in the source's `active_mask`. */
  datatype Ring = Ring(bytes: Bytes, write: nat, cursors: seq<nat>, active: set<Id>)

  datatype Op =
    | Push(id: Id, payload: Payload)
    | Pop(id: Id)
    | Register(id: Id)
    | Unregister(id: Id)
    | ForceUnregister(peer: Id)

  /** `Busy` is what a caller sees that did not obtain the lock; no step of the ring ends so. */
  datatype Outcome =
    | Accepted
    | TooLarge
    | Full
    | Frames(frames: seq<Bytes>)
    | Done
    | Busy

  /** What cursors may be: below the capacity, the write cursor with room for a length field behind it. */
  predicate InRange(ring: Ring) {
    && 8 <= |ring.bytes| <= U32_LIMIT - 1
    && ring.write + 4 <= |ring.bytes|
    && |ring.cursors| == 2
    && (forall i: Id :: ring.cursors[i] < |ring.bytes|)
  }

  function Empty(capacity: nat): (ring: Ring)
    requires 8 <= capacity < U32_LIMIT
    ensures InRange(ring) && |ring.bytes| == capacity
  {
    Ring(seq(capacity, _ => 0), 0, [0, 0], {})
  }

  // ---------------------------------------------------------------------------
  // Free space
  // ---------------------------------------------------------------------------

  /** Bytes between a read cursor and the write cursor. */
  function Used(read: nat, write: nat, cap: nat): nat
    requires read <= cap
  {
    if write >= read then write - read else cap - read + write
  }

  /** Whether instance `i` holds back writers: everybody does while nobody is registered. */
  predicate Counted(active: set<Id>, i: Id) {
    active == {} || i in active
  }

  function MaxUsed(ring: Ring): nat
    requires InRange(ring)
  {
    var cap := |ring.bytes|;
    var a := if Counted(ring.active, 0) then Used(ring.cursors[0], ring.write, cap) else 0;
    var b := if Counted(ring.active, 1) then Used(ring.cursors[1], ring.write, cap) else 0;
    if a < b then b else a
  }

  function Monus(x: nat, y: nat): nat {
    if x < y then 0 else x - y
  }

  /** One byte always stays free, so that a full ring differs from an empty one. */
  function FreeBytes(ring: Ring): nat
    requires InRange(ring)
  {
    Monus(Monus(|ring.bytes|, MaxUsed(ring)), 1)
  }

  // ---------------------------------------------------------------------------
  // Push
  // ---------------------------------------------------------------------------

  /** A frame that would cross the end, or leave a tail too short for a sentinel, starts at 0. */
  predicate NeedsWrap(cap: nat, write: nat, frame: nat) {
    write + frame > cap || (write + frame < cap && cap - (write + frame) < 4)
  }

  function Required(cap: nat, write: nat, frame: nat): nat
    requires write <= cap
  {
    if NeedsWrap(cap, write, frame) then cap - write + frame else frame
  }

  /** A frame fits in front of one reader at `r` without reaching it. */
  predicate Fits(cap: nat, r: nat, w: nat, f: nat)
    requires r <= cap && w <= cap
  {
    f + 4 <= cap && Used(r, w, cap) + Required(cap, w, f) < cap
  }

  function FrameLength(payload: Payload): u32 {
    4 + |payload|
  }

  function Verdict(ring: Ring, frame: nat): (verdict: Outcome)
    requires InRange(ring)
    ensures verdict == TooLarge || verdict == Full || verdict == Accepted
  {
    if frame > Monus(|ring.bytes|, 4) then TooLarge
    else if Required(|ring.bytes|, ring.write, frame) > FreeBytes(ring) then Full
    else Accepted
  }

  function StartOf(cap: nat, write: nat, frame: nat): nat {
    if NeedsWrap(cap, write, frame) then 0 else write
  }

  /** An offset behind a frame, modulo the capacity. */
  function Around(x: nat, cap: nat): (r: nat)
    requires 0 < cap
    ensures x < cap ==> r == x
    ensures x == cap ==> r == 0
    ensures r < cap
  {
    x % cap
  }

  function WriteAfter(cap: nat, write: nat, frame: nat): nat
    requires 0 < cap
  {
    Around(StartOf(cap, write, frame) + frame, cap)
  }

  /** The sentinel (when the frame wraps), then the length field, then the payload. */
  function BytesAfter(bytes: Bytes, write: nat, payload: Payload): (r: Bytes)
    requires FrameLength(payload) + 4 <= |bytes| && write + 4 <= |bytes|
    ensures |r| == |bytes|
  {
    var frame := FrameLength(payload);
    var start := StartOf(|bytes|, write, frame);
    var b0 := if start != write then Overwrite(bytes, write, LittleEndian(WRAP_SENTINEL)) else bytes;
    var b1 := Overwrite(b0, start, LittleEndian(|payload|));
    Overwrite(b1, start + 4, payload)
  }

  function PushStep(ring: Ring, payload: Payload): (r: (Ring, Outcome))
    requires InRange(ring)
  {
    var frame := FrameLength(payload);
    var verdict := Verdict(ring, frame);
    if verdict != Accepted then (ring, verdict)
    else
      (ring.(bytes := BytesAfter(ring.bytes, ring.write, payload),
             write := WriteAfter(|ring.bytes|, ring.write, frame)),
       Accepted)
  }

  // ---------------------------------------------------------------------------
  // Pop
  // ---------------------------------------------------------------------------

  /** One turn of the reader's loop: a frame and the next cursor, or a `break`, or a read behind the ring. */
  datatype Turn = Frame(data: Bytes, next: nat) | Break(cursor: nat) | Outside

  /** A frame that ends behind the ring: the 32-bit sum shows it, unless it wraps around. */
  function TooLong(cursor: nat, end: nat): Turn {
    if end < U32_LIMIT then Break(cursor) else Outside
  }

  /** The frame behind a wrap sentinel, at offset 0. */
  function TurnAtZero(b: Bytes, write: nat): (turn: Turn)
    requires 8 <= |b|
    ensures turn.Frame? ==> turn.next < |b|
    ensures turn.Break? ==> turn.cursor < |b|
  {
    if write == 0 then Break(0)
    else
      var len := FromLittleEndian(b[0..4]);
      if len == WRAP_SENTINEL then Break(0)
      else if 4 + len > |b| then TooLong(0, 4 + len)
      else Frame(b[4..4 + len], Around(4 + len, |b|))
  }

  function TurnAt(b: Bytes, cursor: nat, write: nat): (turn: Turn)
    requires 8 <= |b|
    ensures turn.Frame? ==> turn.next < |b|
    ensures turn.Break? ==> turn.cursor < |b|
  {
    if cursor + 4 > |b| then Outside
    else
      var len := FromLittleEndian(b[cursor..cursor + 4]);
      if len == WRAP_SENTINEL then TurnAtZero(b, write)
      else if cursor + 4 + len > |b| then TooLong(cursor, cursor + 4 + len)
      else Frame(b[cursor + 4..cursor + 4 + len], Around(cursor + 4 + len, |b|))
  }

  datatype Scan = Scan(frames: seq<Bytes>, cursor: nat, ended: bool)

  /**
   The reader's loop over raw bytes: at most `fuel` turns are taken, and `ended` says whether
   the loop stopped, at the write cursor or by one of its `break`s. Bytes that spell no frames
   can send the loop round for ever, which shows as `!ended` for every fuel.
   */
  function ScanFrames(b: Bytes, cursor: nat, write: nat, fuel: nat): (r: Scan)
    requires 8 <= |b| && cursor < |b|
    ensures r.cursor < |b|
    decreases fuel
  {
    if cursor == write then Scan([], cursor, true)
    else if fuel == 0 then Scan([], cursor, false)
    else
      match TurnAt(b, cursor, write)
      case Outside => Scan([], cursor, false)
      case Break(stop) => Scan([], stop, true)
      case Frame(data, next) =>
        var rest := ScanFrames(b, next, write, fuel - 1);
        Scan([data] + rest.frames, rest.cursor, rest.ended)
  }

  function PopStep(ring: Ring, id: Id): (r: (Ring, Outcome))
    requires InRange(ring)
  {
    var scan := ScanFrames(ring.bytes, ring.cursors[id], ring.write, |ring.bytes|);
    (ring.(cursors := ring.cursors[id := scan.cursor]), Frames(scan.frames))
  }

  /** The reader's loop ends, and reads nothing behind the end of the ring. */
  predicate PopReturns(ring: Ring, id: Id)
    requires InRange(ring)
  {
    ScanFrames(ring.bytes, ring.cursors[id], ring.write, |ring.bytes|).ended
  }

  // ---------------------------------------------------------------------------
  // All steps
  // ---------------------------------------------------------------------------

  function Step(ring: Ring, op: Op): (r: (Ring, Outcome))
    requires InRange(ring)
  {
    match op
    case Push(_, payload) => PushStep(ring, payload)
    case Pop(id) => PopStep(ring, id)
    case Register(id) =>
      (ring.(active := ring.active + {id}, cursors := ring.cursors[id := ring.write]), Done)
    case Unregister(id) => (ring.(active := ring.active - {id}), Done)
    case ForceUnregister(peer) => (ring.(active := ring.active - {peer}), Done)
  }

  // ---------------------------------------------------------------------------
  // What an observer of one reader writes down
  // ---------------------------------------------------------------------------

  /**
   The history of one reader: the frames accepted since it last registered, the frames it
   popped since then, and whether every one of those frames fitted in front of its cursor.
   */
  datatype ReaderLog = ReaderLog(tracked: bool, sent: seq<Bytes>, got: seq<Bytes>)

  function Observe(log: ReaderLog, i: Id, ring: Ring, op: Op, out: Outcome): ReaderLog
    requires InRange(ring)
  {
    match op
    case Push(_, payload) =>
      if out == Accepted
      then log.(tracked := log.tracked && Fits(|ring.bytes|, ring.cursors[i], ring.write, FrameLength(payload)),
                sent := log.sent + [payload])
      else log
    case Pop(id) =>
      if id == i && out.Frames? then log.(got := log.got + out.frames) else log
    case Register(id) => if id == i then ReaderLog(true, [], []) else log
    case Unregister(_) => log
    case ForceUnregister(_) => log
  }

  datatype World = World(ring: Ring, logs: seq<ReaderLog>)

  function Start(capacity: nat): World
    requires 8 <= capacity < U32_LIMIT
  {
    World(Empty(capacity), [ReaderLog(true, [], []), ReaderLog(true, [], [])])
  }

  function Next(world: World, op: Op): World
    requires InRange(world.ring) && |world.logs| == 2
  {
    var (ring, out) := Step(world.ring, op);
    World(ring, [Observe(world.logs[0], 0, world.ring, op, out),
                 Observe(world.logs[1], 1, world.ring, op, out)])
  }

  /** Histories consist of operations that return. */
  predicate Legal(world: World, op: Op)
    requires InRange(world.ring)
  {
    op.Pop? ==> PopReturns(world.ring, op.id)
  }
}
