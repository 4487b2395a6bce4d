/**
 The lock around the ring: every step of the lock protocol of either instance, and every write
 inside a locked body, interleaves freely, from a new segment on. Seen from whoever holds the
 lock, the ring is at each moment the result of whole operations, one after the other.
 */
module LockedRing {
  import opened ByteStrings
  import opened RingModel
  import opened RingProofs
  import opened SpinLock

  /**
   `memory` is the ring as it stands in shared memory, `seen` what each instance found there
   when it last got the lock, and `done` the operations whose bodies have ended, in that order.
   The liveness bits that the lock protocol reads and writes are those of `lock`.
   */
  datatype Shared = Shared(lock: State, memory: Ring, seen: seq<Ring>, done: seq<Op>)

  /** A step of the lock protocol, any write inside a body, or the end of a body. */
  datatype Move = LockStep(action: Action) | Scribble(ring: Ring) | Finish(op: Op)

  /** What the body of a job does to the ring. */
  predicate Belongs(op: Op, i: Id, job: Job) {
    match job
    case Join => op == Op.Register(i)
    case Transfer => (op.Push? || op.Pop?) && op.id == i
    case Leave => op == Unregister(i)
    case Evict => op == ForceUnregister(Other(i))
  }

  /** A registration first writes nothing but its bit; then, and in other bodies, anything may be half written. */
  predicate Writing(pc: Pc) {
    pc.Seated? || (pc.Body? && pc.job != Join)
  }

  predicate CanMove(s: Shared, i: Id, move: Move)
    requires |s.lock.pcs| == 2 && |s.seen| == 2
  {
    match move
    case LockStep(a) => a != EndBody && Enabled(s.lock, i, a, STRICT)
    case Scribble(_) => Writing(s.lock.pcs[i]) && i !in s.lock.stopped
    case Finish(op) => Enabled(s.lock, i, EndBody, STRICT) && Belongs(op, i, JobOf(s.lock.pcs[i]))
  }

  /** Getting the lock, the instance sees the memory; its body works from what it saw. */
  function Moved(s: Shared, i: Id, move: Move): (s': Shared)
    requires |s.lock.pcs| == 2 && |s.seen| == 2 && CanMove(s, i, move)
    ensures |s'.lock.pcs| == 2 && |s'.seen| == 2
  {
    match move
    case LockStep(a) =>
      var lock := Do(s.lock, i, a);
      var enters := InBody(lock.pcs[i]) && !InBody(s.lock.pcs[i]);
      s.(lock := lock, seen := if enters then s.seen[i := s.memory] else s.seen)
    case Scribble(ring) => s.(memory := ring)
    case Finish(op) =>
      s.(lock := Do(s.lock, i, EndBody),
         memory := if InRange(s.seen[i]) then Step(s.seen[i], op).0 else s.seen[i],
         done := s.done + [op])
  }

  predicate CanRun(s: Shared, moves: seq<(Id, Move)>)
    requires |s.lock.pcs| == 2 && |s.seen| == 2
    decreases |moves|
  {
    moves != [] ==>
      CanMove(s, moves[0].0, moves[0].1) && CanRun(Moved(s, moves[0].0, moves[0].1), moves[1..])
  }

  function Ran(s: Shared, moves: seq<(Id, Move)>): (s': Shared)
    requires |s.lock.pcs| == 2 && |s.seen| == 2 && CanRun(s, moves)
    ensures |s'.lock.pcs| == 2 && |s'.seen| == 2
    decreases |moves|
  {
    if moves == [] then s else Ran(Moved(s, moves[0].0, moves[0].1), moves[1..])
  }

  /** A new segment. */
  function Created(cap: nat): Shared
    requires 8 <= cap < U32_LIMIT
  {
    Shared(Initial(), Empty(cap), [Empty(cap), Empty(cap)], [])
  }

  /** The bits that were set by registrations that have not ended. */
  function SeatedBits(s: State): set<Id>
    requires |s.pcs| == 2
  {
    (if s.pcs[0].Seated? then {0} else {}) + (if s.pcs[1].Seated? then {1} else {})
  }

  /** The operations done so far make up a legal history, and nobody alive inside saw anything but its result. */
  ghost predicate Serial(cap: nat, s: Shared): (serial: bool)
    requires 8 <= cap < U32_LIMIT
    ensures serial ==> |s.lock.pcs| == 2 && |s.seen| == 2
  {
    && SpinLock.Inv(s.lock) && |s.seen| == 2
    && LegalHistory(cap, s.done)
    && Agrees(s, After(cap, s.done).ring)
  }

  predicate Agrees(s: Shared, now: Ring)
    requires |s.lock.pcs| == 2 && |s.seen| == 2
  {
    && s.lock.mask == now.active + SeatedBits(s.lock)
    && (forall i: Id :: InBody(s.lock.pcs[i]) && i !in s.lock.stopped ==> s.seen[i] == now)
    && (!Writing(s.lock.pcs[0]) && !Writing(s.lock.pcs[1]) ==> s.memory == now)
  }

  /** Next to a live instance inside, nobody else, dead or alive, is in the middle of a write. */
  lemma {:induction false} InsideAlone(s: State, i: Id)
    requires SpinLock.Inv(s) && i !in s.stopped && InBody(s.pcs[i])
    ensures !Writing(s.pcs[Other(i)])
    ensures InBody(s.pcs[Other(i)]) ==> Other(i) in s.stopped
    ensures s.pcs[i] == Body(Transfer) ==> i in s.mask
  {
    assert BitInv(s, i) && HolderInv(s, i) && BitInv(s, Other(i)) && HolderInv(s, Other(i));
  }

  lemma {:induction false} LockStepEffect(s: State, i: Id, a: Action)
    requires |s.pcs| == 2 && Enabled(s, i, a, STRICT) && a != EndBody
    ensures
      var s' := Do(s, i, a);
      && s'.pcs == s.pcs[i := s'.pcs[i]] && s.stopped <= s'.stopped <= s.stopped + {i}
      && (s'.pcs[i].Seated? ==> s.pcs[i].Seated? || s'.mask == s.mask + {i})
      && (s.pcs[i].Seated? ==> s'.pcs[i].Seated?)
      && (!s'.pcs[i].Seated? || s.pcs[i].Seated? ==> s'.mask == s.mask)
      && (Writing(s.pcs[i]) ==> Writing(s'.pcs[i]))
      && (InBody(s.pcs[i]) ==> InBody(s'.pcs[i]))
  {
    hide Overlap;
  }

  lemma {:induction false} LockStepAgrees(s: Shared, i: Id, a: Action, now: Ring)
    requires SpinLock.Inv(s.lock) && |s.seen| == 2 && Agrees(s, now) && CanMove(s, i, LockStep(a))
    ensures SpinLock.Inv(Do(s.lock, i, a)) && Agrees(Moved(s, i, LockStep(a)), now)
  {
    hide SpinLock.Inv, Enabled;
    DoKeepsInv(s.lock, i, a);
    LockStepEffect(s.lock, i, a);
    var lock' := Do(s.lock, i, a);
    if InBody(lock'.pcs[i]) && i !in lock'.stopped {
      InsideAlone(lock', i);
    }
    hide Do;
    assert i == 0 || i == 1;
  }

  lemma {:induction false} LockStepKeepsSerial(cap: nat, s: Shared, i: Id, a: Action)
    requires 8 <= cap < U32_LIMIT && Serial(cap, s) && CanMove(s, i, LockStep(a))
    ensures Serial(cap, Moved(s, i, LockStep(a)))
  {
    hide LegalHistory, After, Agrees, SpinLock.Inv;
    LockStepAgrees(s, i, a, After(cap, s.done).ring);
  }

  lemma {:induction false} ScribbleKeepsSerial(cap: nat, s: Shared, i: Id, ring: Ring)
    requires 8 <= cap < U32_LIMIT && Serial(cap, s) && CanMove(s, i, Scribble(ring))
    ensures Serial(cap, Moved(s, i, Scribble(ring)))
  {
    hide LegalHistory, After, SpinLock.Inv;
    assert i == 0 || i == 1;
  }

  lemma {:induction false} OneMore(cap: nat, ops: seq<Op>, op: Op)
    requires 8 <= cap < U32_LIMIT && LegalHistory(cap, ops) && Legal(After(cap, ops), op)
    ensures LegalHistory(cap, ops + [op])
    ensures After(cap, ops + [op]).ring == Step(After(cap, ops).ring, op).0
  {
    hide RingProofs.Inv, Start, LegalRun, Exec, Step;
    StartInv(cap);
    ExecOneMore(Start(cap), ops, op);
  }

  lemma {:induction false} EffectOnMask(ring: Ring, i: Id, op: Op, job: Job)
    requires InRange(ring) && Belongs(op, i, job)
    ensures Step(ring, op).0.active
         == if job == Join then ring.active + {i}
            else ring.active - (if job == Leave then {i} else if job == Evict then {Other(i)} else {})
  {
  }

  lemma {:induction false} EndOfBody(s: State, i: Id)
    requires |s.pcs| == 2 && Enabled(s, i, EndBody, STRICT)
    ensures InBody(s.pcs[i]) && i !in s.stopped && Writing(s.pcs[i])
    ensures Do(s, i, EndBody).pcs == s.pcs[i := Releasing(JobOf(s.pcs[i]))]
    ensures Do(s, i, EndBody).stopped == s.stopped
    ensures
      var job := JobOf(s.pcs[i]);
      Do(s, i, EndBody).mask
      == if job == Join then s.mask
         else s.mask - (if job == Leave then {i} else if job == Evict then {Other(i)} else {})
  {
  }

  /** A body that ended leaves the others as they were, and the memory is what it made of it. */
  lemma {:induction false} AgreesAfter(s: Shared, s': Shared, i: Id, now: Ring, now': Ring)
    requires |s.lock.pcs| == 2 && |s.seen| == 2 && Agrees(s, now) && Holds(s.lock.pcs[i])
    requires s'.seen == s.seen && s'.memory == now' && s'.lock.stopped == s.lock.stopped
    requires s'.lock.pcs == s.lock.pcs[i := Releasing(JobOf(s.lock.pcs[i]))]
    requires InBody(s.lock.pcs[Other(i)]) ==> Other(i) in s.lock.stopped
    requires s'.lock.mask == now'.active + SeatedBits(s'.lock)
    ensures Agrees(s', now')
  {
    hide SeatedBits;
    assert i == 0 || i == 1;
  }

  lemma {:induction false} MaskAfter(s: State, s': State, i: Id, op: Op, ring: Ring)
    requires |s.pcs| == 2 && Enabled(s, i, EndBody, STRICT) && s' == Do(s, i, EndBody)
    requires InRange(ring) && Belongs(op, i, JobOf(s.pcs[i])) && !s.pcs[Other(i)].Seated?
    requires s.mask == ring.active + SeatedBits(s)
    ensures s'.mask == Step(ring, op).0.active + SeatedBits(s')
  {
    EndOfBody(s, i);
    EffectOnMask(ring, i, op, JobOf(s.pcs[i]));
    SeatedLeaves(s, s', i);
    hide Enabled, Do, Step, Belongs, SeatedBits;
  }

  lemma {:induction false} FinishAgrees(s: Shared, i: Id, op: Op, now: Ring)
    requires SpinLock.Inv(s.lock) && |s.seen| == 2 && Agrees(s, now) && InRange(now) && CanMove(s, i, Finish(op))
    ensures s.seen[i] == now
    ensures SpinLock.Inv(Do(s.lock, i, EndBody)) && Agrees(Moved(s, i, Finish(op)), Step(now, op).0)
  {
    hide SpinLock.Inv, Enabled, Do, Step, InRange, Belongs, SeatedBits;
    DoKeepsInv(s.lock, i, EndBody);
    EndOfBody(s.lock, i);
    InsideAlone(s.lock, i);
    EvictedIsNotSeated(s.lock, i);
    var s' := Moved(s, i, Finish(op));
    assert s.seen[i] == now && s.lock.mask == now.active + SeatedBits(s.lock);
    hide Agrees;
    MaskAfter(s.lock, s'.lock, i, op, now);
    AgreesAfter(s, s', i, now, Step(now, op).0);
  }

  lemma {:induction false} SeatedLeaves(s: State, s': State, i: Id)
    requires |s.pcs| == |s'.pcs| == 2 && Holds(s.pcs[i]) && s'.pcs == s.pcs[i := Releasing(JobOf(s.pcs[i]))]
    requires !s.pcs[Other(i)].Seated?
    ensures SeatedBits(s') == {} && SeatedBits(s) == if s.pcs[i].Seated? then {i} else {}
  {
  }

  lemma {:induction false} EvictedIsNotSeated(s: State, i: Id)
    requires SpinLock.Inv(s) && i !in s.stopped && InBody(s.pcs[i])
    ensures !s.pcs[Other(i)].Seated?
    ensures s.pcs[i].Seated? ==> i in s.mask
  {
    InsideAlone(s, i);
    assert LocalInv(s, i);
  }

  lemma {:induction false} FinishKeepsSerial(cap: nat, s: Shared, i: Id, op: Op)
    requires 8 <= cap < U32_LIMIT && Serial(cap, s) && CanMove(s, i, Finish(op))
    ensures Serial(cap, Moved(s, i, Finish(op)))
  {
    hide LegalHistory, After, Agrees, SpinLock.Inv, Step, Enabled, Do, Belongs;
    FinishAgrees(s, i, op, After(cap, s.done).ring);
    BodyIsLegal(cap, s, i, op);
    OneMore(cap, s.done, op);
  }

  /** Whoever transfers still has its bit, so its pop is one of a tracked reader and returns. */
  lemma {:induction false} BodyIsLegal(cap: nat, s: Shared, i: Id, op: Op)
    requires 8 <= cap < U32_LIMIT && Serial(cap, s) && CanMove(s, i, Finish(op))
    ensures Legal(After(cap, s.done), op)
  {
    hide SpinLock.Inv, After, LegalHistory;
    EndOfBody(s.lock, i);
    InsideAlone(s.lock, i);
    EvictedIsNotSeated(s.lock, i);
    if op.Pop? {
      RegisteredMayPop(After(cap, s.done), i);
    }
  }

  lemma {:induction false} RegisteredMayPop(world: World, i: Id)
    requires RingProofs.Inv(world) && i in world.ring.active
    ensures Legal(world, Pop(i))
  {
    assert ReaderInv(world.ring, world.logs[i], i);
    TrackedPopReturns(world.ring, world.logs[i], i);
  }

  lemma {:induction false} CreatedIsSerial(cap: nat)
    requires 8 <= cap < U32_LIMIT
    ensures Serial(cap, Created(cap))
  {
    InitialInv();
    StartInv(cap);
    hide RingProofs.Inv, SpinLock.Inv;
    assert Exec(Start(cap), []) == Start(cap);
  }

  lemma {:induction false} RunsAreSerial(cap: nat, s: Shared, moves: seq<(Id, Move)>)
    requires 8 <= cap < U32_LIMIT && Serial(cap, s) && CanRun(s, moves)
    ensures Serial(cap, Ran(s, moves))
    decreases |moves|
  {
    hide Serial, CanMove, Moved;
    if moves != [] {
      var (i, move) := moves[0];
      match move {
        case LockStep(a) => LockStepKeepsSerial(cap, s, i, a);
        case Scribble(ring) => ScribbleKeepsSerial(cap, s, i, ring);
        case Finish(op) => FinishKeepsSerial(cap, s, i, op);
      }
      RunsAreSerial(cap, Moved(s, i, move), moves[1..]);
    }
  }

  lemma {:induction false} RegisteredPopsOwed(world: World, i: Id)
    requires RingProofs.Inv(world) && i in world.ring.active
    ensures Step(world.ring, Pop(i)).1 == Frames(Owed(world.logs[i]))
  {
    assert ReaderInv(world.ring, world.logs[i], i);
    PopDelivers(world.ring, world.logs[i], i);
  }

  /** Whoever is alive inside saw the ring after the history so far, and what it pops is what it is owed. */
  lemma {:induction false} HolderSeesHistory(cap: nat, s: Shared, i: Id)
    requires 8 <= cap < U32_LIMIT && Serial(cap, s) && InBody(s.lock.pcs[i]) && i !in s.lock.stopped
    ensures s.seen[i] == After(cap, s.done).ring
    ensures s.lock.pcs[i] == Body(Transfer) ==>
      Step(s.seen[i], Pop(i)).1 == Frames(Owed(After(cap, s.done).logs[i]))
  {
    hide RingProofs.Inv, SpinLock.Inv, After, LegalHistory, Step, Owed;
    InsideAlone(s.lock, i);
    EvictedIsNotSeated(s.lock, i);
    if s.lock.pcs[i] == Body(Transfer) {
      RegisteredPopsOwed(After(cap, s.done), i);
    }
  }

  /**
   Locked bodies are atomic: from a new segment on, over every interleaving of lock steps, writes
   inside bodies and stops that keeps to the strict policy, the bodies that ended form a legal
   history of the ring. While nobody is in the middle of a write the memory is the ring after that
   history; so is what a live holder saw, and what it pops is exactly what it is owed.
   */
  lemma {:induction false} LockedBodiesAreAtomic(cap: nat, moves: seq<(Id, Move)>, i: Id)
    requires 8 <= cap < U32_LIMIT && CanRun(Created(cap), moves)
    ensures
      var s := Ran(Created(cap), moves);
      && LegalHistory(cap, s.done)
      && (!Writing(s.lock.pcs[0]) && !Writing(s.lock.pcs[1]) ==> s.memory == After(cap, s.done).ring)
      && (InBody(s.lock.pcs[i]) && i !in s.lock.stopped ==> s.seen[i] == After(cap, s.done).ring)
      && (s.lock.pcs[i] == Body(Transfer) && i !in s.lock.stopped ==>
           Step(s.seen[i], Pop(i)).1 == Frames(Owed(After(cap, s.done).logs[i])))
  {
    hide RingProofs.Inv, SpinLock.Inv, LegalHistory, After, Step, Owed, CanRun, Ran, Created, Writing;
    CreatedIsSerial(cap);
    RunsAreSerial(cap, Created(cap), moves);
    var s := Ran(Created(cap), moves);
    if InBody(s.lock.pcs[i]) && i !in s.lock.stopped {
      HolderSeesHistory(cap, s, i);
    }
  }
}
