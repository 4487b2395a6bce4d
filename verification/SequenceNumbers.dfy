/**
 The counters that one instance stamps its events with, over runs in which both instances push,
 pop, are refused, give up, and register again.
 */
module SequenceNumbers {
  import opened ByteStrings
  import opened RingModel
  import opened RingProofs
  import opened RingBounds
  import opened Events
  import opened ApplyProofs
  import opened SyncModel

  // ---------------------------------------------------------------------------
  // What an observer of one sender writes down
  // ---------------------------------------------------------------------------

  /** The bytes are an envelope of instance `id`. */
  predicate Own(codec: Codec, id: Id, frame: Bytes) {
    codec.decode(frame).Some? && codec.decode(frame).value.instance == id
  }

  /**
   The session of one sender: the last counter that was attempted, the payload that is still being
   tried, the counters that were handed out in vain, and the events that were accepted.
   */
  datatype Sender = Sender(count: nat, retry: Option<Bytes>, lost: set<nat>, events: seq<SyncEvent>)

  /** An instance pushes its own envelopes, each with a new counter or as one more attempt. */
  predicate Stamps(codec: Codec, id: Id, s: Sender, op: Op) {
    op.Push? ==>
      && (op.id != id ==> !Own(codec, id, op.payload))
      && (op.id == id ==>
           && Own(codec, id, op.payload)
           && (s.retry == Some(op.payload) || s.count < codec.decode(op.payload).value.seqNum))
  }

  /** The numbers strictly between two. */
  function Between(low: nat, high: nat): (numbers: set<nat>)
    ensures forall n: nat :: n in numbers <==> low < n < high
  {
    if high <= low + 1 then {} else Between(low, high - 1) + {high - 1}
  }

  /** The counter that is given up when counter `n` is attempted, and those that never were attempted. */
  function GivenUp(s: Sender, n: nat): set<nat> {
    (if n != s.count && s.retry.Some? then {s.count} else {}) + Between(s.count, n)
  }

  /** A sender that registers begins a new session, counting from 1 again. */
  function SenderAfter(codec: Codec, id: Id, s: Sender, op: Op, out: Outcome): Sender {
    match op
    case Push(i, payload) =>
      if i != id || codec.decode(payload).None? then s
      else
        var e := codec.decode(payload).value;
        var lost := s.lost + GivenUp(s, e.seqNum);
        if out == Accepted
        then Sender(e.seqNum, None, lost, s.events + (if IsApplied(e, Other(id)) then [e.event] else []))
        else Sender(e.seqNum, Some(payload), lost, s.events)
    case Register(i) => if i == id then Sender(0, None, {}, s.events) else s
    case _ => s
  }

  /** Throughout the run instance `id` stamps its pushes in order, and nobody else uses its name. */
  ghost predicate Disciplined(codec: Codec, id: Id, world: World, s: Sender, ops: seq<Op>)
    requires Inv(world) && LegalRun(world, ops)
    decreases |ops|
  {
    ops != [] ==>
      && Stamps(codec, id, s, ops[0])
      && Disciplined(codec, id, Advance(world, ops[0]),
                     SenderAfter(codec, id, s, ops[0], Step(world.ring, ops[0]).1), ops[1..])
  }

  ghost function SenderEnd(codec: Codec, id: Id, world: World, s: Sender, ops: seq<Op>): Sender
    requires Inv(world) && LegalRun(world, ops)
    decreases |ops|
  {
    if ops == [] then s
    else SenderEnd(codec, id, Advance(world, ops[0]),
                   SenderAfter(codec, id, s, ops[0], Step(world.ring, ops[0]).1), ops[1..])
  }

  lemma {:induction false} DisciplinedAppend(codec: Codec, id: Id, world: World, s: Sender, a: seq<Op>, b: seq<Op>)
    requires Inv(world) && LegalRun(world, a) && LegalRun(Exec(world, a), b)
    requires Disciplined(codec, id, world, s, a)
    requires Disciplined(codec, id, Exec(world, a), SenderEnd(codec, id, world, s, a), b)
    ensures LegalRun(world, a + b) && Disciplined(codec, id, world, s, a + b)
    ensures SenderEnd(codec, id, world, s, a + b)
         == SenderEnd(codec, id, Exec(world, a), SenderEnd(codec, id, world, s, a), b)
    decreases |a|
  {
    hide Inv, Advance, Legal, Step, Stamps, SenderAfter;
    ExecAppend(world, a, b);
    if a == [] {
      assert a + b == b;
    } else {
      var s' := SenderAfter(codec, id, s, a[0], Step(world.ring, a[0]).1);
      DisciplinedAppend(codec, id, Advance(world, a[0]), s', a[1..], b);
      assert (a + b)[0] == a[0] && (a + b)[1..] == a[1..] + b;
    }
  }

  predicate Registers(ops: seq<Op>, i: Id) {
    ops != [] && (ops[0] == Register(i) || Registers(ops[1..], i))
  }

  lemma {:induction false} LaterRegisters(ops: seq<Op>, i: Id)
    requires ops != [] && !Registers(ops, i)
    ensures ops[0] != Register(i) && !Registers(ops[1..], i)
  {
  }

  // ---------------------------------------------------------------------------
  // What the other one receives
  // ---------------------------------------------------------------------------

  lemma {:induction false} ToldOneMore(codec: Codec, id: Id, s: Sender, world: World, op: Op)
    requires Inv(world) && Legal(world, op) && Stamps(codec, id, s, op) && op != Register(Other(id))
    ensures
      var s', world' := SenderAfter(codec, id, s, op, Step(world.ring, op).1), Advance(world, op);
      s.events == Told(codec, Other(id), world.logs[Other(id)])
      ==> s'.events == Told(codec, Other(id), world'.logs[Other(id)])
  {
    hide Inv, Step;
    var log, out := world.logs[Other(id)], Step(world.ring, op).1;
    assert Advance(world, op).logs[Other(id)] == Observe(log, Other(id), world.ring, op, out);
    if op.Push? && out == Accepted {
      ArrivalsAppend(codec, Other(id), log.sent, [op.payload]);
      assert [op.payload][1..] == [];
      EventsInAppend(Arrivals(codec, Other(id), log.sent), Arrivals(codec, Other(id), [op.payload]));
      if op.id == id {
        var e := codec.decode(op.payload).value;
        assert Arrivals(codec, Other(id), [op.payload]) == if IsApplied(e, Other(id)) then [e] else [];
        assert EventsIn([e]) == [e.event];
      } else {
        assert Arrivals(codec, Other(id), [op.payload]) == [];
      }
    }
  }

  /** As long as the other one does not register again, it will be told exactly the accepted events. */
  lemma {:induction false} ToldIsAccepted(codec: Codec, id: Id, world: World, s: Sender, ops: seq<Op>)
    requires Inv(world) && LegalRun(world, ops) && Disciplined(codec, id, world, s, ops)
    requires !Registers(ops, Other(id)) && s.events == Told(codec, Other(id), world.logs[Other(id)])
    ensures SenderEnd(codec, id, world, s, ops).events == Told(codec, Other(id), Exec(world, ops).logs[Other(id)])
    decreases |ops|
  {
    hide Inv, Advance, Step, Stamps, SenderAfter, Told, Registers, Legal;
    if ops != [] {
      LaterRegisters(ops, Other(id));
      ToldOneMore(codec, id, s, world, ops[0]);
      var s' := SenderAfter(codec, id, s, ops[0], Step(world.ring, ops[0]).1);
      ToldIsAccepted(codec, id, Advance(world, ops[0]), s', ops[1..]);
    }
  }

  // ---------------------------------------------------------------------------
  // Counters
  // ---------------------------------------------------------------------------

  /** The counters in the frames of instance `id`, in the order of the frames. */
  function OwnNumbers(codec: Codec, id: Id, frames: seq<Bytes>): seq<nat> {
    if frames == [] then []
    else
      var last := frames[|frames| - 1];
      OwnNumbers(codec, id, frames[..|frames| - 1])
      + (if Own(codec, id, last) then [codec.decode(last).value.seqNum] else [])
  }

  /** The counters above `from` up to `upto`, but for the missing ones. */
  function Handed(from: nat, upto: nat, missing: set<nat>): seq<nat>
    requires from <= upto
    decreases upto
  {
    if from == upto then [] else Handed(from, upto - 1, missing) + (if upto in missing then [] else [upto])
  }

  predicate Increasing(numbers: seq<nat>) {
    forall i, j :: 0 <= i < j < |numbers| ==> numbers[i] < numbers[j]
  }

  /** Every counter in the range that is not missing is there, once, and in order. */
  lemma {:induction false} HandedIsExact(from: nat, upto: nat, missing: set<nat>)
    requires from <= upto
    ensures Increasing(Handed(from, upto, missing))
    ensures forall n: nat :: n in Handed(from, upto, missing) <==> from < n <= upto && n !in missing
    decreases upto
  {
    if from < upto {
      HandedIsExact(from, upto - 1, missing);
      var before := Handed(from, upto - 1, missing);
      forall i | 0 <= i < |before| ensures before[i] < upto {
        assert before[i] in before;
      }
    }
  }

  lemma {:induction false} HandedAgrees(from: nat, upto: nat, a: set<nat>, b: set<nat>)
    requires from <= upto && forall n: nat :: from < n <= upto ==> (n in a <==> n in b)
    ensures Handed(from, upto, a) == Handed(from, upto, b)
    decreases upto
  {
    if from < upto {
      HandedAgrees(from, upto - 1, a, b);
    }
  }

  lemma {:induction false} HandedSkips(from: nat, mid: nat, upto: nat, missing: set<nat>)
    requires from <= mid <= upto && forall n: nat :: mid < n <= upto ==> n in missing
    ensures Handed(from, upto, missing) == Handed(from, mid, missing)
    decreases upto
  {
    if mid < upto {
      HandedSkips(from, mid, upto - 1, missing);
    }
  }

  /** The counters handed out so far that did not get through. */
  function Missing(s: Sender): set<nat> {
    s.lost + (if s.retry.Some? then {s.count} else {})
  }

  /** A session that began after counter `from`. */
  predicate SessionSince(codec: Codec, id: Id, s: Sender, from: nat) {
    && from <= s.count
    && (forall n: nat :: n in s.lost ==> from < n < s.count)
    && (s.retry.Some? ==> from < s.count && Own(codec, id, s.retry.value)
                          && codec.decode(s.retry.value).value.seqNum == s.count)
  }

  lemma {:induction false} SessionGoesOn(codec: Codec, id: Id, s: Sender, op: Op, out: Outcome, from: nat)
    requires SessionSince(codec, id, s, from) && Stamps(codec, id, s, op) && op != Register(id)
    ensures SessionSince(codec, id, SenderAfter(codec, id, s, op, out), from)
  {
  }

  lemma {:induction false} NumbersOneMore(codec: Codec, id: Id, s: Sender, payload: Bytes, out: Outcome, from: nat)
    requires SessionSince(codec, id, s, from) && Own(codec, id, payload)
    requires s.retry == Some(payload) || s.count < codec.decode(payload).value.seqNum
    ensures
      var n := codec.decode(payload).value.seqNum;
      var lost := s.lost + GivenUp(s, n);
      && s.count <= n
      && Handed(from, n, lost + {n}) == Handed(from, s.count, Missing(s))
      && Handed(from, n, lost) == Handed(from, s.count, Missing(s)) + [n]
  {
    var n := codec.decode(payload).value.seqNum;
    var lost := s.lost + GivenUp(s, n);
    if n == s.count {
      HandedAgrees(from, n - 1, lost, lost + {n});
      assert lost + {n} == Missing(s);
    } else {
      HandedSkips(from, s.count, n - 1, lost);
      HandedAgrees(from, s.count, lost, Missing(s));
      HandedAgrees(from, n - 1, lost, lost + {n});
    }
  }

  /** The invariant of the counters: what was pushed for the other one is exactly what got through. */
  predicate InStep(codec: Codec, id: Id, s: Sender, log: ReaderLog, from: nat) {
    && SessionSince(codec, id, s, from)
    && OwnNumbers(codec, id, log.sent) == Handed(from, s.count, Missing(s))
  }

  lemma {:induction false} StepStaysInStep(codec: Codec, id: Id, s: Sender, world: World, op: Op, from: nat)
    requires Inv(world) && Legal(world, op) && Stamps(codec, id, s, op)
    requires op != Register(id) && op != Register(Other(id))
    requires InStep(codec, id, s, world.logs[Other(id)], from)
    ensures InStep(codec, id, SenderAfter(codec, id, s, op, Step(world.ring, op).1),
                   Advance(world, op).logs[Other(id)], from)
  {
    hide Inv, Step, SessionSince, GivenUp, Missing, Handed;
    var log, out := world.logs[Other(id)], Step(world.ring, op).1;
    SessionGoesOn(codec, id, s, op, out, from);
    var log' := Advance(world, op).logs[Other(id)];
    assert log' == Observe(log, Other(id), world.ring, op, out);
    if op.Push? {
      assert (log.sent + [op.payload])[..|log.sent|] == log.sent;
      if op.id == id {
        NumbersOneMore(codec, id, s, op.payload, out, from);
        MissingAfter(codec, id, s, op.payload, out);
      }
    }
  }

  lemma {:induction false} MissingAfter(codec: Codec, id: Id, s: Sender, payload: Payload, out: Outcome)
    requires Own(codec, id, payload)
    ensures
      var n, s' := codec.decode(payload).value.seqNum, SenderAfter(codec, id, s, Push(id, payload), out);
      Missing(s') == if out == Accepted then s.lost + GivenUp(s, n) else s.lost + GivenUp(s, n) + {n}
  {
  }

  lemma {:induction false} RunStaysInStep(codec: Codec, id: Id, world: World, s: Sender, ops: seq<Op>, from: nat)
    requires Inv(world) && LegalRun(world, ops) && Disciplined(codec, id, world, s, ops)
    requires !Registers(ops, id) && !Registers(ops, Other(id))
    requires InStep(codec, id, s, world.logs[Other(id)], from)
    ensures InStep(codec, id, SenderEnd(codec, id, world, s, ops), Exec(world, ops).logs[Other(id)], from)
    decreases |ops|
  {
    hide Inv, Advance, Step, Stamps, SenderAfter, Registers, InStep, Legal;
    if ops != [] {
      LaterRegisters(ops, id);
      LaterRegisters(ops, Other(id));
      StepStaysInStep(codec, id, s, world, ops[0], from);
      var s' := SenderAfter(codec, id, s, ops[0], Step(world.ring, ops[0]).1);
      RunStaysInStep(codec, id, Advance(world, ops[0]), s', ops[1..], from);
    }
  }

  /** Of frames that come in order, a reader that got the first ones has the first counters. */
  lemma {:induction false} NumbersOfPrefix(codec: Codec, id: Id, got: seq<Bytes>, sent: seq<Bytes>)
    requires got <= sent
    ensures OwnNumbers(codec, id, got) <= OwnNumbers(codec, id, sent)
    decreases |sent|
  {
    if got != sent {
      assert got <= sent[..|sent| - 1];
      NumbersOfPrefix(codec, id, got, sent[..|sent| - 1]);
    }
  }

  // ---------------------------------------------------------------------------
  // Runs of the system
  // ---------------------------------------------------------------------------

  /** The ring operations of a run; a reception is a pop of the receiver. */
  function OpsOf(me: Id, steps: seq<SystemStep>): (ops: seq<Op>)
    ensures |ops| == |steps|
  {
    if steps == [] then []
    else [if steps[0].Transport? then steps[0].op else Pop(me)] + OpsOf(me, steps[1..])
  }

  lemma {:induction false} OpsOfAppend(me: Id, a: seq<SystemStep>, b: seq<SystemStep>)
    ensures OpsOf(me, a + b) == OpsOf(me, a) + OpsOf(me, b)
  {
    if a == [] {
      assert a + b == b;
    } else {
      assert (a + b)[0] == a[0] && (a + b)[1..] == a[1..] + b;
      OpsOfAppend(me, a[1..], b);
    }
  }

  lemma {:induction false} RunIsHistory(r: Receiver, sys: System, steps: seq<SystemStep>)
    requires Inv(sys.world) && SystemRun(r, sys, steps)
    ensures LegalRun(sys.world, OpsOf(r.me, steps))
    ensures Exec(sys.world, OpsOf(r.me, steps)) == SystemEnd(r, sys, steps).world
    ensures !Registers(OpsOf(r.me, steps), r.me)
    decreases |steps|
  {
    hide Inv, Advance, Legal, RunAll, Step;
    if steps != [] {
      RunIsHistory(r, SystemNext(r, sys, steps[0]), steps[1..]);
      assert OpsOf(r.me, steps)[1..] == OpsOf(r.me, steps[1..]);
    }
  }

  /** A run of the system in which the other instance stamps its pushes in order, from counter `from` on. */
  ghost predicate Stamped(r: Receiver, sys: System, steps: seq<SystemStep>, from: nat)
    requires Inv(sys.world) && SystemRun(r, sys, steps)
  {
    RunIsHistory(r, sys, steps);
    Disciplined(r.codec, Other(r.me), sys.world, Sender(from, None, {}, []), OpsOf(r.me, steps))
  }

  ghost function SenderAtEnd(r: Receiver, sys: System, steps: seq<SystemStep>, from: nat): Sender
    requires Inv(sys.world) && SystemRun(r, sys, steps)
  {
    RunIsHistory(r, sys, steps);
    SenderEnd(r.codec, Other(r.me), sys.world, Sender(from, None, {}, []), OpsOf(r.me, steps))
  }

  /**
   Over every run: as long as the sender goes on with one session, the counters that the receiver
   got are the first of those handed out since it registered, in order, each at most once, and
   complete but for the missing ones, none of whose attempts was accepted.
   */
  lemma {:induction false} CountersOfOneSession(r: Receiver, sys: System, steps: seq<SystemStep>, from: nat)
    requires Inv(sys.world) && SystemRun(r, sys, steps) && Stamped(r, sys, steps, from)
    requires r.me in sys.world.ring.active && sys.world.logs[r.me] == ReaderLog(true, [], [])
    requires !Registers(OpsOf(r.me, steps), Other(r.me))
    ensures
      var end, s := SystemEnd(r, sys, steps), SenderAtEnd(r, sys, steps, from);
      var got := OwnNumbers(r.codec, Other(r.me), end.world.logs[r.me].got);
      && from <= s.count
      && got <= Handed(from, s.count, Missing(s)) && Increasing(got)
      && (Owed(end.world.logs[r.me]) == [] ==>
           forall n: nat :: n in got <==> from < n <= s.count && n !in Missing(s))
  {
    hide Inv, SystemRun, SystemEnd, Disciplined, SenderEnd, LegalRun, Exec, Missing, Handed, Registers;
    var id, s0, ops := Other(r.me), Sender(from, None, {}, []), OpsOf(r.me, steps);
    RunIsHistory(r, sys, steps);
    NothingHanded(r.codec, id, sys.world.logs[r.me], from);
    RunStaysInStep(r.codec, id, sys.world, s0, ops, from);
    var end, s := SystemEnd(r, sys, steps), SenderAtEnd(r, sys, steps, from);
    StaysTracked(r, sys, steps);
    var log := end.world.logs[r.me];
    GotIsPrefix(end.world, r.me);
    NumbersOfPrefix(r.codec, id, log.got, log.sent);
    HandedIsExact(from, s.count, Missing(s));
  }

  lemma {:induction false} NothingHanded(codec: Codec, id: Id, log: ReaderLog, from: nat)
    requires log.sent == []
    ensures InStep(codec, id, Sender(from, None, {}, []), log, from)
  {
  }

  lemma {:induction false} GotIsPrefix(world: World, i: Id)
    requires Inv(world) && world.logs[i].tracked
    ensures world.logs[i].got <= world.logs[i].sent
    ensures Owed(world.logs[i]) == [] ==> world.logs[i].got == world.logs[i].sent
  {
    assert ReaderInv(world.ring, world.logs[i], i);
  }

  lemma {:induction false} StaysTracked(r: Receiver, sys: System, steps: seq<SystemStep>)
    requires Inv(sys.world) && SystemRun(r, sys, steps)
    requires r.me in sys.world.ring.active && sys.world.logs[r.me].tracked
    ensures SystemEnd(r, sys, steps).world.logs[r.me].tracked
    decreases |steps|
  {
    hide Inv, Advance, Legal, RunAll, Step, LeavesAlone;
    if steps != [] {
      match steps[0] {
        case Transport(op) => TransportKeepsLog(sys.world, op, r.me);
        case Receive(_) => PopExtendsLog(sys.world, r.me);
      }
      StaysTracked(r, SystemNext(r, sys, steps[0]), steps[1..]);
    }
  }

  /** In every disciplined run, with or without new sessions of the sender, what is pushed has increasing counters. */
  ghost predicate AlwaysIncreasing(codec: Codec, id: Id, cap: nat, restarts: bool) {
    forall world: World, ops: seq<Op> ::
      Inv(world) && |world.ring.bytes| == cap && LegalRun(world, ops)
      && Disciplined(codec, id, world, Sender(0, None, {}, []), ops)
      && world.logs[Other(id)].sent == [] && !Registers(ops, Other(id)) && (restarts || !Registers(ops, id))
      ==> Increasing(OwnNumbers(codec, id, Exec(world, ops).logs[Other(id)].sent))
  }

  /** A frame that goes into a ring whose counted readers have read nothing yet, or everything. */
  lemma {:induction false} EarlyFrame(world: World, id: Id, payload: Payload)
    requires Inv(world) && world.ring.write + FrameLength(payload) + 4 <= |world.ring.bytes|
    requires forall i: Id :: Counted(world.ring.active, i) ==> world.ring.cursors[i] <= world.ring.write
    ensures
      var op := Push(id, payload);
      var world' := Advance(world, op);
      && Step(world.ring, op).1 == Accepted && world'.ring.cursors == world.ring.cursors
      && world'.ring.write == world.ring.write + FrameLength(payload) && world'.ring.active == world.ring.active
      && (forall i: Id :: world'.logs[i].sent == world.logs[i].sent + [payload])
  {
    hide Unread;
  }

  /** The sender's process starts again, and its second first frame carries the counter of the first one. */
  lemma {:induction false} RestartRepeatsCounter(codec: Codec, id: Id, cap: nat, payload: Payload)
      returns (world: World, ops: seq<Op>)
    requires 8 <= cap < U32_LIMIT && 2 * FrameLength(payload) + 4 <= cap
    requires Own(codec, id, payload) && codec.decode(payload).value.seqNum == 1
    ensures BothRegistered(world, cap) && LegalRun(world, ops) && !Registers(ops, Other(id))
    ensures Disciplined(codec, id, world, Sender(0, None, {}, []), ops)
    ensures OwnNumbers(codec, id, Exec(world, ops).logs[Other(id)].sent) == [1, 1]
  {
    hide Inv, Advance, Legal, Step, SenderAfter, After, LegalHistory;
    RegisterBoth(cap);
    world := After(cap, REGISTRATIONS);
    var a, b := Push(id, payload), Register(id);
    var w0, s0 := world, Sender(0, None, {}, []);
    var w1, w2 := RestartWorlds(world, cap, id, payload);
    var w3 := Advance(w2, a);
    var s1, s2, s3 := RestartStamps(codec, id, payload);
    ThreeSteps(w0, a, b, a);
    ops := [a, b, a];
    assert ops[1..] == [b, a] && [b, a][1..] == [a] && [a][1..] == [];
    assert !Registers([], Other(id)) && !Registers([a], Other(id)) && !Registers([b, a], Other(id));
    assert Disciplined(codec, id, w3, s3, []);
    assert Disciplined(codec, id, w2, s2, [a]);
    assert Disciplined(codec, id, w1, s1, [b, a]);
    TwoOfOne(codec, id, payload);
  }

  lemma {:induction false} RegisterEffect(world: World, id: Id)
    requires Inv(world)
    ensures
      var world' := Advance(world, Register(id));
      && world'.ring.write == world.ring.write && |world'.ring.bytes| == |world.ring.bytes|
      && world'.ring.cursors == world.ring.cursors[id := world.ring.write]
      && world'.ring.active == world.ring.active + {id} && world'.logs[Other(id)] == world.logs[Other(id)]
  {
    hide Unread;
  }

  lemma {:induction false} RestartWorlds(world: World, cap: nat, id: Id, payload: Payload)
      returns (w1: World, w2: World)
    requires BothRegistered(world, cap) && 2 * FrameLength(payload) + 4 <= cap
    ensures Inv(w1) && Inv(w2)
    ensures w1 == Advance(world, Push(id, payload)) && w2 == Advance(w1, Register(id))
    ensures Step(world.ring, Push(id, payload)).1 == Step(w2.ring, Push(id, payload)).1 == Accepted
    ensures Legal(world, Push(id, payload)) && Legal(w1, Register(id)) && Legal(w2, Push(id, payload))
    ensures Advance(w2, Push(id, payload)).logs[Other(id)].sent == [payload, payload]
  {
    hide Inv, Step, Advance, InRange, Counted;
    EarlyFrame(world, id, payload);
    w1 := Advance(world, Push(id, payload));
    RegisterEffect(w1, id);
    w2 := Advance(w1, Register(id));
    forall i: Id ensures w2.ring.cursors[i] <= w2.ring.write {
      assert w2.ring.cursors[i] == if i == id then w1.ring.write else 0;
    }
    EarlyFrame(w2, id, payload);
    assert w1.logs[Other(id)].sent == [] + [payload];
  }

  lemma {:induction false} RestartStamps(codec: Codec, id: Id, payload: Payload)
      returns (s1: Sender, s2: Sender, s3: Sender)
    requires Own(codec, id, payload) && codec.decode(payload).value.seqNum == 1
    ensures Stamps(codec, id, Sender(0, None, {}, []), Push(id, payload))
    ensures s1 == SenderAfter(codec, id, Sender(0, None, {}, []), Push(id, payload), Accepted)
    ensures forall out :: s2 == SenderAfter(codec, id, s1, Register(id), out)
    ensures Stamps(codec, id, s1, Register(id)) && Stamps(codec, id, s2, Push(id, payload))
    ensures s3 == SenderAfter(codec, id, s2, Push(id, payload), Accepted)
  {
    s1 := SenderAfter(codec, id, Sender(0, None, {}, []), Push(id, payload), Accepted);
    s2 := Sender(0, None, {}, s1.events);
    s3 := SenderAfter(codec, id, s2, Push(id, payload), Accepted);
  }

  lemma {:induction false} TwoOfOne(codec: Codec, id: Id, payload: Bytes)
    requires Own(codec, id, payload) && codec.decode(payload).value.seqNum == 1
    ensures OwnNumbers(codec, id, [payload, payload]) == [1, 1]
  {
    assert [payload, payload][..1] == [payload] && [payload][..0] == [];
    assert OwnNumbers(codec, id, [payload]) == [1];
  }

  /**
   Counters always increase exactly when a sender does not begin a new session while the receiver
   stays registered: a session counts from 1 again.
   */
  lemma {:induction false} IncreasingIffNoRestart(codec: Codec, id: Id, cap: nat, payload: Payload, restarts: bool)
    requires 8 <= cap < U32_LIMIT && 2 * FrameLength(payload) + 4 <= cap
    requires Own(codec, id, payload) && codec.decode(payload).value.seqNum == 1
    ensures AlwaysIncreasing(codec, id, cap, restarts) <==> !restarts
  {
    hide Inv, LegalRun, Disciplined, Exec, Registers, Handed, Missing;
    if restarts {
      var world, ops := RestartRepeatsCounter(codec, id, cap, payload);
      assert !Increasing([1, 1]) by { assert [1, 1][0] == [1, 1][1]; }
      assert |world.ring.bytes| == cap && world.logs[Other(id)].sent == [];
    } else {
      forall world: World, ops: seq<Op> |
        Inv(world) && |world.ring.bytes| == cap && LegalRun(world, ops)
        && Disciplined(codec, id, world, Sender(0, None, {}, []), ops)
        && world.logs[Other(id)].sent == [] && !Registers(ops, Other(id)) && !Registers(ops, id)
        ensures Increasing(OwnNumbers(codec, id, Exec(world, ops).logs[Other(id)].sent))
      {
        var s := SenderEnd(codec, id, world, Sender(0, None, {}, []), ops);
        NothingHanded(codec, id, world.logs[Other(id)], 0);
        RunStaysInStep(codec, id, world, Sender(0, None, {}, []), ops, 0);
        HandedIsExact(0, s.count, Missing(s));
      }
    }
  }
}
