/**
 The byte-level invariant of the ring, kept by every step, and what follows from it over
 whole runs: each tracked reader receives exactly the accepted frames, once and in order.
 */
module RingProofs {
  import opened ByteStrings
  import opened RingModel

  // ---------------------------------------------------------------------------
  // What a queue of frames looks like in memory
  // ---------------------------------------------------------------------------

  /** `b[c..e]` holds exactly the frames `q`, one after the other. */
  ghost predicate Flat(b: Bytes, c: nat, e: nat, q: seq<Bytes>)
    decreases |q|
  {
    if q == [] then c == e
    else
      var n := |q[0]|;
      && c + 4 + n <= e <= |b|
      && n < WRAP_SENTINEL
      && b[c..c + 4] == LittleEndian(n)
      && b[c + 4..c + 4 + n] == q[0]
      && Flat(b, c + 4 + n, e, q[1..])
  }

  /** `p` is where the frames before the wrap end: the end of the ring, or a sentinel. */
  ghost predicate WrapPoint(b: Bytes, p: nat, w: nat) {
    || p == |b|
    || (p + 4 <= |b| && 0 < w && b[p..p + 4] == LittleEndian(WRAP_SENTINEL))
  }

  /** The first `k` frames of `q` lie in `b[r..p]`, the others in `b[0..w]`. */
  ghost predicate Wrapped(b: Bytes, r: nat, w: nat, q: seq<Bytes>, k: nat, p: nat) {
    && k <= |q|
    && w < r <= p <= |b|
    && Flat(b, r, p, q[..k])
    && Flat(b, 0, w, q[k..])
    && WrapPoint(b, p, w)
  }

  /** From cursor `r` to write position `w`, going round at most once, lie exactly the frames `q`. */
  ghost predicate Unread(b: Bytes, r: nat, w: nat, q: seq<Bytes>) {
    if r <= w then Flat(b, r, w, q) else exists k: nat, p: nat :: Wrapped(b, r, w, q, k, p)
  }

  // ---------------------------------------------------------------------------
  // Flat queues: framing, appending, length
  // ---------------------------------------------------------------------------

  lemma {:induction false} FlatFrame(b: Bytes, b': Bytes, c: nat, e: nat, q: seq<Bytes>)
    requires Flat(b, c, e, q) && |b| == |b'|
    requires forall i :: c <= i < e && i < |b| ==> b[i] == b'[i]
    ensures Flat(b', c, e, q)
    decreases |q|
  {
    if q != [] {
      var n := |q[0]|;
      FlatBounds(b, c, e, q);
      FlatBounds(b, c + 4 + n, e, q[1..]);
      assert b'[c..c + 4] == b[c..c + 4];
      assert b'[c + 4..c + 4 + n] == b[c + 4..c + 4 + n];
      FlatFrame(b, b', c + 4 + n, e, q[1..]);
    }
  }

  lemma {:induction false} FlatBounds(b: Bytes, c: nat, e: nat, q: seq<Bytes>)
    requires Flat(b, c, e, q)
    ensures c + 4 * |q| <= e
    ensures q != [] ==> e <= |b|
    decreases |q|
  {
    if q != [] {
      FlatBounds(b, c + 4 + |q[0]|, e, q[1..]);
    }
  }

  lemma {:induction false} FlatAppend(b: Bytes, c: nat, m: nat, e: nat, q: seq<Bytes>, x: Bytes)
    requires Flat(b, c, m, q) && Flat(b, m, e, [x])
    ensures Flat(b, c, e, q + [x])
    decreases |q|
  {
    if q == [] {
      assert q + [x] == [x];
    } else {
      var n := |q[0]|;
      FlatAppend(b, c + 4 + n, m, e, q[1..], x);
      assert (q + [x])[0] == q[0];
      assert (q + [x])[1..] == q[1..] + [x];
      FlatBounds(b, m, e, [x]);
      FlatBounds(b, c + 4 + n, m, q[1..]);
    }
  }

  lemma {:induction false} UnreadLength(b: Bytes, r: nat, w: nat, q: seq<Bytes>)
    requires Unread(b, r, w, q) && r <= |b| && w <= |b|
    ensures |q| <= |b|
  {
    if r <= w {
      FlatBounds(b, r, w, q);
    } else {
      var k: nat, p: nat :| Wrapped(b, r, w, q, k, p);
      FlatBounds(b, r, p, q[..k]);
      FlatBounds(b, 0, w, q[k..]);
    }
  }

  // ---------------------------------------------------------------------------
  // One push
  // ---------------------------------------------------------------------------

  /**
   `b'` is `b` with frame `x` written at `s` and, if `wrap`, a sentinel at `w`; `e` is the
   offset behind the frame.
   */
  ghost predicate Written(b: Bytes, b': Bytes, w: nat, s: nat, e: nat, x: Bytes, wrap: bool) {
    && |b'| == |b|
    && e == s + 4 + |x| <= |b|
    && Flat(b', s, e, [x])
    && (forall i :: 0 <= i < |b| && !(s <= i < e) && !(wrap && w <= i < w + 4) ==> b'[i] == b[i])
    && (wrap ==> w + 4 <= |b| && b'[w..w + 4] == LittleEndian(WRAP_SENTINEL))
  }

  /** The bytes an accepted push writes, seen from outside. */
  lemma {:induction false} BytesAfterWritten(b: Bytes, w: nat, payload: Payload)
    requires 8 <= |b| && FrameLength(payload) + 4 <= |b| && w + 4 <= |b|
    requires !NeedsWrap(|b|, w, FrameLength(payload)) || FrameLength(payload) <= w
    ensures
      var f := FrameLength(payload);
      var s := StartOf(|b|, w, f);
      Written(b, BytesAfter(b, w, payload), w, s, s + f, payload, NeedsWrap(|b|, w, f))
  {
    var f := FrameLength(payload);
    var s := StartOf(|b|, w, f);
    var b0 := if s != w then Overwrite(b, w, LittleEndian(WRAP_SENTINEL)) else b;
    var b1 := Overwrite(b0, s, LittleEndian(|payload|));
    var b' := Overwrite(b1, s + 4, payload);
    assert b' == BytesAfter(b, w, payload);
    hide Flat, LittleEndian, Overwrite, BytesAfter;
    OverwriteKeeps(b1, s + 4, payload, s, s + 4);
    OneFrame(b', s, payload);
    if NeedsWrap(|b|, w, f) {
      OverwriteKeeps(b0, s, LittleEndian(|payload|), w, w + 4);
      OverwriteKeeps(b1, s + 4, payload, w, w + 4);
    }
  }

  lemma {:induction false} OverwriteKeeps(b: Bytes, at: nat, data: Bytes, from: nat, to: nat)
    requires at + |data| <= |b| && from <= to <= |b| && (to <= at || at + |data| <= from)
    ensures Overwrite(b, at, data)[from..to] == b[from..to]
  {
  }

  /** The sentinel is four bytes 0xff, which no length field is. */
  lemma {:induction false} SentinelBytes(n: u32)
    ensures LittleEndian(WRAP_SENTINEL) == [0xff, 0xff, 0xff, 0xff]
    ensures LittleEndian(n) == [0xff, 0xff, 0xff, 0xff] <==> n == 0xffff_ffff
  {
    LittleEndianRoundTrip(n);
  }

  lemma {:induction false} OneFrame(b: Bytes, s: nat, payload: Payload)
    requires s + FrameLength(payload) <= |b|
    requires b[s..s + 4] == LittleEndian(|payload|) && b[s + 4..s + 4 + |payload|] == payload
    ensures Flat(b, s, s + FrameLength(payload), [payload])
  {
    hide LittleEndian;
    assert [payload][1..] == [];
  }

  lemma {:induction false} AcceptedFits(ring: Ring, f: nat, i: Id)
    requires InRange(ring) && Verdict(ring, f) == Accepted && Counted(ring.active, i)
    ensures Fits(|ring.bytes|, ring.cursors[i], ring.write, f)
  {
    assert i == 0 || i == 1;
  }

  /** Where a frame that fits leaves the write cursor, relative to the reader. */
  lemma {:induction false} FitsGeometry(cap: nat, r: nat, w: nat, f: nat)
    requires 8 <= cap && r < cap && w + 4 <= cap && 4 <= f
    requires Fits(cap, r, w, f)
    ensures
      var w' := WriteAfter(cap, w, f);
      && (NeedsWrap(cap, w, f) ==> 0 < w && r <= w && w' == f < r)
      && (!NeedsWrap(cap, w, f) && r <= w ==> (w + f == cap && w' == 0 < r) || (w' == w + f <= cap - 4))
      && (!NeedsWrap(cap, w, f) && w < r ==> w' == w + f < r)
  {
  }

  /** Reader before the writer, frame placed behind the others. */
  lemma {:induction false} AppendInFront(b: Bytes, b': Bytes, r: nat, w: nat, e: nat, q: seq<Bytes>, x: Bytes)
    requires r <= w && Flat(b, r, w, q) && Written(b, b', w, w, e, x, false)
    ensures Flat(b', r, e, q + [x])
  {
    FlatFrame(b, b', r, w, q);
    FlatAppend(b', r, w, e, q, x);
  }

  lemma {:induction false} WrappedAtEnd(b: Bytes, r: nat, q: seq<Bytes>)
    requires 0 < r <= |b| && Flat(b, r, |b|, q)
    ensures Unread(b, r, 0, q)
  {
    assert q[..|q|] == q && q[|q|..] == [];
    assert Wrapped(b, r, 0, q, |q|, |b|);
  }

  /** Reader before the writer, frame sent round to offset 0 behind a sentinel. */
  lemma {:induction false} AppendAround(b: Bytes, b': Bytes, r: nat, w: nat, e: nat, q: seq<Bytes>, x: Bytes)
    requires e < r <= w && Flat(b, r, w, q) && Written(b, b', w, 0, e, x, true)
    ensures Unread(b', r, e, q + [x])
  {
    FlatFrame(b, b', r, w, q);
    assert (q + [x])[..|q|] == q && (q + [x])[|q|..] == [x];
    assert Wrapped(b', r, e, q + [x], |q|, w);
  }

  /** Writer before the reader: the frame extends the second part of the queue. */
  lemma {:induction false} AppendBehind(b: Bytes, b': Bytes, r: nat, w: nat, e: nat, q: seq<Bytes>, x: Bytes)
    requires w < r && Unread(b, r, w, q) && Written(b, b', w, w, e, x, false) && e < r
    ensures Unread(b', r, e, q + [x])
  {
    var k: nat, p: nat :| Wrapped(b, r, w, q, k, p);
    FlatFrame(b, b', r, p, q[..k]);
    FlatFrame(b, b', 0, w, q[k..]);
    FlatAppend(b', 0, w, e, q[k..], x);
    assert (q + [x])[..k] == q[..k] && (q + [x])[k..] == q[k..] + [x];
    if p != |b| {
      assert b'[p..p + 4] == b[p..p + 4];
    }
    assert Wrapped(b', r, e, q + [x], k, p);
  }

  /** A push that fits appends its frame to the queue in front of the reader at `r`. */
  lemma {:induction false} PushAppends(b: Bytes, r: nat, w: nat, q: seq<Bytes>, payload: Payload)
    requires 8 <= |b| < U32_LIMIT && r + 4 <= |b| && w + 4 <= |b|
    requires Unread(b, r, w, q)
    requires Fits(|b|, r, w, FrameLength(payload))
    ensures Unread(BytesAfter(b, w, payload), r, WriteAfter(|b|, w, FrameLength(payload)), q + [payload])
  {
    hide BytesAfter, Written, Wrapped, Flat;
    var f := FrameLength(payload);
    var b' := BytesAfter(b, w, payload);
    FitsGeometry(|b|, r, w, f);
    BytesAfterWritten(b, w, payload);
    if w < r {
      AppendBehind(b, b', r, w, w + f, q, payload);
    } else if NeedsWrap(|b|, w, f) {
      AppendAround(b, b', r, w, f, q, payload);
    } else {
      AppendInFront(b, b', r, w, w + f, q, payload);
      if w + f == |b| {
        WrappedAtEnd(b', r, q + [payload]);
      }
    }
  }

  // ---------------------------------------------------------------------------
  // One frame of a pop
  // ---------------------------------------------------------------------------

  /** At `c` stands the length field and the data of frame `x`. */
  ghost predicate FrameAt(b: Bytes, c: nat, x: Bytes) {
    && c + 4 + |x| <= |b|
    && FromLittleEndian(b[c..c + 4]) == |x| != WRAP_SENTINEL
    && b[c + 4..c + 4 + |x|] == x
  }

  lemma {:induction false} FlatNext(b: Bytes, c: nat, e: nat, q: seq<Bytes>)
    requires Flat(b, c, e, q) && c < e
    ensures q != [] && FrameAt(b, c, q[0]) && Flat(b, c + 4 + |q[0]|, e, q[1..])
    ensures c + 4 + |q[0]| <= e
    ensures q[1..] != [] ==> c + 4 + |q[0]| + 4 <= e
  {
    LittleEndianRoundTrip(|q[0]|);
    FlatBounds(b, c + 4 + |q[0]|, e, q[1..]);
  }

  /** The loop turns to frame `x` and then stands at `next`, in front of the rest of the queue. */
  ghost predicate Takes(b: Bytes, c: nat, w: nat, x: Bytes, next: nat, rest: seq<Bytes>)
    requires 8 <= |b|
  {
    && TurnAt(b, c, w) == Frame(x, next)
    && next + 4 <= |b|
    && Unread(b, next, w, rest)
  }

  lemma {:induction false} TakesAfterSentinel(b: Bytes, c: nat, w: nat, q: seq<Bytes>, p: nat)
    requires 8 <= |b| && c + 4 <= |b| && w + 4 <= |b| && Wrapped(b, c, w, q, 0, p)
    ensures q != [] && Takes(b, c, w, q[0], 4 + |q[0]|, q[1..])
  {
    assert q[..0] == [] && q[0..] == q;
    LittleEndianRoundTrip(WRAP_SENTINEL);
    FlatNext(b, 0, w, q);
  }

  lemma {:induction false} TurnAtFrame(b: Bytes, c: nat, w: nat, x: Bytes)
    requires 8 <= |b| && FrameAt(b, c, x)
    ensures TurnAt(b, c, w) == Frame(x, Around(c + 4 + |x|, |b|))
  {
  }

  /** Behind the first frame of the part before the wrap the queue goes on, there or at offset 0. */
  lemma {:induction false} UnreadBehindFrame(b: Bytes, m: nat, w: nat, q: seq<Bytes>, k: nat, p: nat)
    requires 8 <= |b| && w < m <= p <= |b| && k <= |q| && WrapPoint(b, p, w)
    requires Flat(b, m, p, q[..k]) && Flat(b, 0, w, q[k..])
    ensures Around(m, |b|) + 4 <= |b| && Unread(b, Around(m, |b|), w, q)
  {
    FlatBounds(b, m, p, q[..k]);
    if m == |b| {
      assert q[k..] == q;
    } else {
      assert Wrapped(b, m, w, q, k, p);
    }
  }

  lemma {:induction false} TakesBeforeWrap(b: Bytes, c: nat, w: nat, q: seq<Bytes>, k: nat, p: nat)
    requires 8 <= |b| && c + 4 <= |b| && w + 4 <= |b| && Wrapped(b, c, w, q, k, p) && 0 < k
    ensures q != [] && Takes(b, c, w, q[0], Around(c + 4 + |q[0]|, |b|), q[1..])
  {
    hide Flat, WrapPoint, FrameAt, TurnAt, Unread;
    FlatBounds(b, c, p, q[..k]);
    FlatNext(b, c, p, q[..k]);
    assert q[..k][0] == q[0] && q[..k][1..] == q[1..][..k - 1] && q[k..] == q[1..][k - 1..];
    TurnAtFrame(b, c, w, q[0]);
    UnreadBehindFrame(b, c + 4 + |q[0]|, w, q[1..], k - 1, p);
  }

  /**
   At a cursor that has not reached the write cursor the loop takes the first frame of the
   queue: none of its `break` conditions holds, and it then stands in front of the other frames.
   */
  lemma {:induction false} TakesFirst(b: Bytes, c: nat, w: nat, q: seq<Bytes>) returns (next: nat)
    requires 8 <= |b| && c + 4 <= |b| && w + 4 <= |b| && c != w && Unread(b, c, w, q)
    ensures q != [] && Takes(b, c, w, q[0], next, q[1..])
  {
    if c < w {
      FlatNext(b, c, w, q);
      next := c + 4 + |q[0]|;
    } else {
      var k: nat, p: nat :| Wrapped(b, c, w, q, k, p);
      if k == 0 {
        TakesAfterSentinel(b, c, w, q, p);
        next := 4 + |q[0]|;
      } else {
        TakesBeforeWrap(b, c, w, q, k, p);
        next := Around(c + 4 + |q[0]|, |b|);
      }
    }
  }

  /** The loop over a proper queue ends at the write cursor with exactly that queue. */
  lemma {:induction false} ScanIsExact(b: Bytes, c: nat, w: nat, q: seq<Bytes>, fuel: nat)
    requires 8 <= |b| && c + 4 <= |b| && w + 4 <= |b|
    requires Unread(b, c, w, q) && |q| <= fuel
    ensures ScanFrames(b, c, w, fuel) == Scan(q, w, true)
    decreases |q|
  {
    hide Unread, TurnAt;
    if c == w {
      EmptyQueue(b, c, q);
    } else {
      var next := TakesFirst(b, c, w, q);
      ScanIsExact(b, next, w, q[1..], fuel - 1);
      assert q == [q[0]] + q[1..];
    }
  }

  lemma {:induction false} EmptyQueue(b: Bytes, c: nat, q: seq<Bytes>)
    requires Unread(b, c, c, q)
    ensures q == []
  {
    FlatBounds(b, c, c, q);
  }

  // ---------------------------------------------------------------------------
  // The invariant
  // ---------------------------------------------------------------------------

  /** The frames a reader still has to receive, according to its log. */
  function Owed(log: ReaderLog): seq<Bytes> {
    if |log.got| <= |log.sent| then log.sent[|log.got|..] else []
  }

  /** What holds of one reader as long as its cursor is respected. */
  ghost predicate ReaderInv(ring: Ring, log: ReaderLog, i: Id)
    requires InRange(ring)
  {
    log.tracked ==>
      && ring.cursors[i] + 4 <= |ring.bytes|
      && log.got <= log.sent
      && Unread(ring.bytes, ring.cursors[i], ring.write, Owed(log))
  }

  /** A tracked reader's pop always returns. */
  lemma {:induction false} TrackedPopReturns(ring: Ring, log: ReaderLog, i: Id)
    requires InRange(ring) && ReaderInv(ring, log, i) && log.tracked
    ensures PopReturns(ring, i)
  {
    UnreadLength(ring.bytes, ring.cursors[i], ring.write, Owed(log));
    ScanIsExact(ring.bytes, ring.cursors[i], ring.write, Owed(log), |ring.bytes|);
  }

  ghost predicate Inv(world: World): (inv: bool)
    ensures inv ==> InRange(world.ring) && |world.logs| == 2
  {
    && InRange(world.ring)
    && (world.ring.write == 0 || 4 <= world.ring.write)
    && |world.logs| == 2
    && (forall i: Id :: ReaderInv(world.ring, world.logs[i], i))
    && (forall i: Id :: i in world.ring.active ==> world.logs[i].tracked)
  }

  lemma {:induction false} StartInv(capacity: nat)
    requires 8 <= capacity < U32_LIMIT
    ensures Inv(Start(capacity))
  {
    var w := Start(capacity);
    assert w.ring.cursors[0] == 0 && w.ring.cursors[1] == 0;
    assert Owed(w.logs[0]) == [];
  }

  lemma {:induction false} AcceptedBounds(ring: Ring, f: nat)
    requires InRange(ring) && Verdict(ring, f) == Accepted
    ensures f + 4 <= |ring.bytes|
  {
  }

  lemma {:induction false} PushKeepsReader(ring: Ring, log: ReaderLog, i: Id, id: Id, payload: Payload)
    requires InRange(ring) && ReaderInv(ring, log, i)
    ensures
      var (ring', out) := PushStep(ring, payload);
      && InRange(ring')
      && (ring.write == 0 || 4 <= ring.write ==> ring'.write == 0 || 4 <= ring'.write)
      && ReaderInv(ring', Observe(log, i, ring, Push(id, payload), out), i)
  {
    var (ring', out) := PushStep(ring, payload);
    var log' := Observe(log, i, ring, Push(id, payload), out);
    if out == Accepted {
      AcceptedBounds(ring, FrameLength(payload));
      hide Unread, BytesAfter, Verdict, Around, StartOf, NeedsWrap;
      WriteStaysInRange(|ring.bytes|, ring.write, FrameLength(payload));
      if log'.tracked {
        PushAppends(ring.bytes, ring.cursors[i], ring.write, Owed(log), payload);
        assert Owed(log') == Owed(log) + [payload];
      }
    }
  }

  /** The write cursor never comes within four bytes of the end. */
  lemma {:induction false} WriteStaysInRange(cap: nat, w: nat, f: nat)
    requires 8 <= cap && w + 4 <= cap && 4 <= f && f + 4 <= cap
    ensures WriteAfter(cap, w, f) + 4 <= cap
    ensures WriteAfter(cap, w, f) == 0 || 4 <= WriteAfter(cap, w, f)
  {
  }

  lemma {:induction false} PopDelivers(ring: Ring, log: ReaderLog, i: Id)
    requires InRange(ring) && ReaderInv(ring, log, i) && log.tracked
    ensures PopStep(ring, i) == (ring.(cursors := ring.cursors[i := ring.write]), Frames(Owed(log)))
  {
    UnreadLength(ring.bytes, ring.cursors[i], ring.write, Owed(log));
    ScanIsExact(ring.bytes, ring.cursors[i], ring.write, Owed(log), |ring.bytes|);
  }

  lemma {:induction false} NextKeepsReader(world: World, op: Op, i: Id)
    requires Inv(world) && Legal(world, op)
    ensures var world' := Next(world, op); InRange(world'.ring) && ReaderInv(world'.ring, world'.logs[i], i)
  {
    hide BytesAfter, Verdict, WriteAfter, ScanFrames;
    var ring := world.ring;
    var log := world.logs[i];
    var (ring', out) := Step(ring, op);
    var world' := Next(world, op);
    assert world'.ring == ring' && world'.logs[i] == Observe(log, i, ring, op, out);
    match op
    case Push(id, payload) =>
      PushKeepsReader(ring, log, i, id, payload);
    case Pop(id) =>
      if id == i && log.tracked {
        PopDelivers(ring, log, i);
        var log' := world'.logs[i];
        assert log.got + Owed(log) == log.sent;
        assert Owed(log') == [];
      }
    case Register(id) =>
    case Unregister(_) =>
    case ForceUnregister(_) =>
  }

  lemma {:induction false} NextKeepsTracking(world: World, op: Op, i: Id)
    requires Inv(world) && Legal(world, op)
    ensures i in Next(world, op).ring.active ==> Next(world, op).logs[i].tracked
  {
    var (ring', out) := Step(world.ring, op);
    assert Next(world, op).logs[i] == Observe(world.logs[i], i, world.ring, op, out);
    if op.Push? && out == Accepted && i in world.ring.active {
      AcceptedFits(world.ring, FrameLength(op.payload), i);
    }
  }

  /** Every step keeps the invariant. */
  lemma {:induction false} NextInv(world: World, op: Op)
    requires Inv(world) && Legal(world, op)
    ensures Inv(Next(world, op))
  {
    var world' := Next(world, op);
    if op.Push? {
      PushKeepsReader(world.ring, world.logs[0], 0, op.id, op.payload);
    }
    NextKeepsReader(world, op, 0);
    forall i: Id ensures ReaderInv(world'.ring, world'.logs[i], i) {
      NextKeepsReader(world, op, i);
    }
    forall i: Id | i in world'.ring.active ensures world'.logs[i].tracked {
      NextKeepsTracking(world, op, i);
    }
  }

  lemma {:induction false} NextOnPush(world: World, id: Id, payload: Payload)
    requires Inv(world)
    ensures Next(world, Push(id, payload)).ring == PushStep(world.ring, payload).0
    ensures |Next(world, Push(id, payload)).logs| == 2
  {
  }

  // ---------------------------------------------------------------------------
  // No push destroys an unread byte
  // ---------------------------------------------------------------------------

  /** Position `x` lies between read cursor `r` and write cursor `w`. */
  predicate IsUnread(r: nat, w: nat, x: nat) {
    if r <= w then r <= x < w else r <= x || x < w
  }

  /** An accepted push changes no byte that a counted reader has still to read. */
  lemma {:induction false} PushSparesUnread(ring: Ring, payload: Payload, i: Id, x: nat)
    requires InRange(ring) && Counted(ring.active, i)
    requires x < |ring.bytes| && IsUnread(ring.cursors[i], ring.write, x)
    ensures PushStep(ring, payload).0.bytes[x] == ring.bytes[x]
    ensures InRange(PushStep(ring, payload).0)
    ensures IsUnread(ring.cursors[i], PushStep(ring, payload).0.write, x)
  {
    var f := FrameLength(payload);
    if Verdict(ring, f) == Accepted {
      AcceptedFits(ring, f, i);
      FitsGeometry(|ring.bytes|, ring.cursors[i], ring.write, f);
      BytesAfterWritten(ring.bytes, ring.write, payload);
      WriteStaysInRange(|ring.bytes|, ring.write, f);
    }
  }

  // ---------------------------------------------------------------------------
  // Runs
  // ---------------------------------------------------------------------------

  /** One legal step, which keeps the invariant. */
  ghost function Advance(world: World, op: Op): (world': World)
    requires Inv(world) && Legal(world, op)
    ensures Inv(world') && |world'.ring.bytes| == |world.ring.bytes|
  {
    NextInv(world, op); Next(world, op)
  }

  /** Every step of the run is legal where it is taken. */
  ghost predicate LegalRun(world: World, ops: seq<Op>)
    requires Inv(world)
    decreases |ops|
  {
    ops == [] || (Legal(world, ops[0]) && LegalRun(Advance(world, ops[0]), ops[1..]))
  }

  /** The world after a run; the invariant holds in it. */
  ghost function Exec(world: World, ops: seq<Op>): (world': World)
    requires Inv(world) && LegalRun(world, ops)
    ensures Inv(world') && |world'.ring.bytes| == |world.ring.bytes|
    decreases |ops|
  {
    if ops == [] then world else Exec(Advance(world, ops[0]), ops[1..])
  }

  ghost predicate LegalHistory(cap: nat, ops: seq<Op>)
    requires 8 <= cap < U32_LIMIT
  {
    StartInv(cap); LegalRun(Start(cap), ops)
  }

  /** The world reached from a fresh ring of `cap` bytes. */
  ghost function After(cap: nat, ops: seq<Op>): (world: World)
    requires 8 <= cap < U32_LIMIT && LegalHistory(cap, ops)
    ensures Inv(world) && |world.ring.bytes| == cap
  {
    StartInv(cap); Exec(Start(cap), ops)
  }

  lemma {:induction false} ExecAppend(world: World, a: seq<Op>, b: seq<Op>)
    requires Inv(world) && LegalRun(world, a) && LegalRun(Exec(world, a), b)
    ensures LegalRun(world, a + b) && Exec(world, a + b) == Exec(Exec(world, a), b)
    decreases |a|
  {
    hide Inv, Advance;
    if a == [] {
      assert a + b == b;
    } else {
      ExecAppend(Advance(world, a[0]), a[1..], b);
      assert (a + b)[0] == a[0] && (a + b)[1..] == a[1..] + b;
    }
  }

  lemma {:induction false} OneStep(world: World, op: Op)
    requires Inv(world) && Legal(world, op)
    ensures LegalRun(world, [op]) && Exec(world, [op]) == Advance(world, op)
  {
    hide Inv, Advance, Legal;
    assert [op][0] == op && [op][1..] == [];
    assert LegalRun(Advance(world, op), []);
  }

  lemma {:induction false} ExecOneMore(world: World, ops: seq<Op>, op: Op)
    requires Inv(world) && LegalRun(world, ops) && Legal(Exec(world, ops), op)
    ensures LegalRun(world, ops + [op]) && Exec(world, ops + [op]) == Advance(Exec(world, ops), op)
  {
    hide Inv, Advance, LegalRun, Exec, Legal;
    OneStep(Exec(world, ops), op);
    ExecAppend(world, ops, [op]);
  }

  /** The next pop of a tracked reader completes what it is owed. */
  lemma {:induction false} PopCompletes(world: World, i: Id)
    requires Inv(world) && world.logs[i].tracked
    ensures world.logs[i].got <= world.logs[i].sent
    ensures Step(world.ring, Pop(i)) == (world.ring.(cursors := world.ring.cursors[i := world.ring.write]),
                                         Frames(world.logs[i].sent[|world.logs[i].got|..]))
    ensures |Next(world, Pop(i)).logs| == 2 && Next(world, Pop(i)).logs[i].got == world.logs[i].sent
  {
    hide *;
    var log := world.logs[i];
    TrackedIsRespected(world, i);
    PopDelivers(world.ring, log, i);
    PopObserved(world, i);
    assert log.got + log.sent[|log.got|..] == log.sent;
  }

  lemma {:induction false} TrackedIsRespected(world: World, i: Id)
    requires Inv(world) && world.logs[i].tracked
    ensures ReaderInv(world.ring, world.logs[i], i)
    ensures world.logs[i].got <= world.logs[i].sent
    ensures Owed(world.logs[i]) == world.logs[i].sent[|world.logs[i].got|..]
  {
    hide Unread;
  }

  lemma {:induction false} PopObserved(world: World, i: Id)
    requires InRange(world.ring) && |world.logs| == 2
    ensures Step(world.ring, Pop(i)) == PopStep(world.ring, i) && PopStep(world.ring, i).1.Frames?
    ensures |Next(world, Pop(i)).logs| == 2
    ensures Next(world, Pop(i)).logs[i].got == world.logs[i].got + Step(world.ring, Pop(i)).1.frames
  {
    hide InRange, ScanFrames;
  }

  /**
   Exactly-once delivery over every run: what a tracked reader popped since it registered is
   a prefix of what was accepted since then, in order, and its next pop returns all the rest.
   */
  lemma {:induction false} ExactlyOnceFifo(cap: nat, ops: seq<Op>, i: Id)
    requires 8 <= cap < U32_LIMIT && LegalHistory(cap, ops)
    requires After(cap, ops).logs[i].tracked
    ensures
      var world := After(cap, ops);
      var log := world.logs[i];
      && log.got <= log.sent
      && Step(world.ring, Pop(i)) == (world.ring.(cursors := world.ring.cursors[i := world.ring.write]),
                                      Frames(log.sent[|log.got|..]))
      && Next(world, Pop(i)).logs[i].got == log.sent
  {
    hide Inv, After, LegalHistory, Step, Next;
    PopCompletes(After(cap, ops), i);
  }
}
