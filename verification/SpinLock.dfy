/**
 The owner-encoded spinlock as a step system: every load, store and compare-and-exchange of
 either instance is one step, the steps interleave freely, and an instance may stop anywhere.
 Nobody is registered at first: each instance takes the lock before its own bit is set.
 */
module SpinLock {
  import opened RingModel

  /** What an instance wants the lock for; `Evict` is the forced removal of the other one. */
  datatype Job = Join | Transfer | Leave | Evict

  /**
   Where an instance is: not started, between two jobs, on its way to the lock, inside, on its
   way out, or over. `Seated` is the second half of a registration, after its bit was set.
   */
  datatype Pc =
    | Out
    | Idle
    | Spinning(job: Job)
    | Loaded(job: Job, holder: Id)
    | Reclaiming(job: Job, holder: Id)
    | SecondTry(job: Job)
    | Body(job: Job)
    | Seated
    | Releasing(job: Job)
    | Gone

  datatype State = State(lock: nat, mask: set<Id>, pcs: seq<Pc>, stopped: set<Id>)

  datatype Action =
    | Enter(job: Job)
    | Acquire
    | GiveUpSpinning
    | ReadMask
    | StoreZero
    | TryAgain(wins: bool)
    | SetBit
    | EndBody
    | Release
    | Stop
    | Restart

  /**
   Four things that can be allowed or ruled out: evicting an instance that has neither stopped
   nor left, giving up on the lock while somebody is registering, registering again after
   leaving, and starting again after stopping.
   */
  datatype Policy = Policy(evictLive: bool, giveUpWhileRegistering: bool, rejoin: bool, restart: bool)

  const STRICT := Policy(false, false, false, false)

  /** The value stored in the lock: the owner plus one, or the evicted peer plus one. */
  function LockValue(i: Id, job: Job): nat {
    (if job == Evict then Other(i) else i) + 1
  }

  /** `current.saturating_sub(1)`: a free lock reads as held by instance 0. */
  function HolderOf(lock: nat): Id {
    if lock == 2 then 1 else 0
  }

  /** A new segment: nobody is registered and nobody holds the lock. */
  function Initial(): State {
    State(0, {}, [Out, Out], {})
  }

  /** Whether the program of instance `i` can take the step now. */
  predicate Possible(s: State, i: Id, a: Action)
    requires |s.pcs| == 2
  {
    var pc := s.pcs[i];
    (a == Restart <==> i in s.stopped) &&
    match a
    case Enter(job) => if job == Join then pc == Out || pc == Gone else pc == Idle
    case Acquire => pc.Spinning? && s.lock == 0
    case GiveUpSpinning => pc.Spinning?
    case ReadMask => pc.Loaded?
    case StoreZero => pc.Reclaiming?
    case TryAgain(wins) => pc.SecondTry? && (wins ==> s.lock == 0)
    case SetBit => pc == Body(Join)
    case EndBody => pc.Seated? || (pc.Body? && pc.job != Join)
    case Release => pc.Releasing?
    case Stop => true
    case Restart => true
  }

  /** Where an instance is when it failed to get the lock: a registration can be tried again. */
  function AfterFailure(job: Job): Pc {
    match job
    case Join => Out
    case Leave => Gone
    case Transfer => Idle
    case Evict => Idle
  }

  function At(s: State, i: Id, pc: Pc): State
    requires |s.pcs| == 2
  {
    s.(pcs := s.pcs[i := pc])
  }

  function Do(s: State, i: Id, a: Action): (s': State)
    requires |s.pcs| == 2 && Possible(s, i, a)
    ensures |s'.pcs| == 2 && s'.pcs[Other(i)] == s.pcs[Other(i)]
  {
    var pc := s.pcs[i];
    match a
    case Enter(job) => At(s, i, Spinning(job))
    case Acquire => At(s.(lock := LockValue(i, pc.job)), i, Body(pc.job))
    case GiveUpSpinning => At(s, i, Loaded(pc.job, HolderOf(s.lock)))
    case ReadMask =>
      if pc.holder !in s.mask then At(s, i, Reclaiming(pc.job, pc.holder)) else At(s, i, AfterFailure(pc.job))
    case StoreZero => At(s.(lock := 0), i, SecondTry(pc.job))
    case TryAgain(wins) =>
      if wins then At(s.(lock := LockValue(i, pc.job)), i, Body(pc.job)) else At(s, i, AfterFailure(pc.job))
    case SetBit => At(s.(mask := s.mask + {i}), i, Seated)
    case EndBody =>
      if pc.Seated? then At(s, i, Releasing(Join))
      else
        var cleared := if pc.job == Leave then {i} else if pc.job == Evict then {Other(i)} else {};
        At(s.(mask := s.mask - cleared), i, Releasing(pc.job))
    case Release => At(s.(lock := 0), i, if pc.job == Leave then Gone else Idle)
    case Stop => s.(stopped := s.stopped + {i})
    case Restart => At(s.(stopped := s.stopped - {i}), i, Out)
  }

  /** A registration that has not set its bit yet. */
  predicate Registering(pc: Pc) {
    Wants(pc, Join)
  }

  predicate Wants(pc: Pc, job: Job) {
    (pc.Spinning? || pc.Loaded? || pc.Reclaiming? || pc.SecondTry? || pc.Body?) && pc.job == job
  }

  /** Past the spin limit: the lock is being inspected or taken by force. */
  predicate GaveUp(pc: Pc) {
    pc.Loaded? || pc.Reclaiming? || pc.SecondTry?
  }

  /** Somebody alive is past the spin limit while somebody alive is registering. */
  predicate Overlap(s: State)
    requires |s.pcs| == 2
  {
    && (exists i: Id :: i !in s.stopped && Registering(s.pcs[i]))
    && (exists j: Id :: j !in s.stopped && GaveUp(s.pcs[j]))
  }

  predicate IsOver(s: State, i: Id)
    requires |s.pcs| == 2
  {
    i in s.stopped || s.pcs[i] == Gone
  }

  predicate Enabled(s: State, i: Id, a: Action, policy: Policy): (enabled: bool)
    requires |s.pcs| == 2
    ensures enabled ==> Possible(s, i, a)
  {
    && Possible(s, i, a)
    && (a == Enter(Evict) ==> policy.evictLive || IsOver(s, Other(i)))
    && (a == Enter(Join) && s.pcs[i] == Gone ==> policy.rejoin)
    && (a == Restart ==> policy.restart)
    && (policy.giveUpWhileRegistering || !Overlap(Do(s, i, a)))
  }

  /** `steps` can be taken one after the other from `s`. */
  predicate IsRun(s: State, steps: seq<(Id, Action)>, policy: Policy)
    requires |s.pcs| == 2
    decreases |steps|
  {
    steps != [] ==>
      && Enabled(s, steps[0].0, steps[0].1, policy)
      && IsRun(Do(s, steps[0].0, steps[0].1), steps[1..], policy)
  }

  function EndOf(s: State, steps: seq<(Id, Action)>, policy: Policy): (s': State)
    requires |s.pcs| == 2 && IsRun(s, steps, policy)
    ensures |s'.pcs| == 2
    decreases |steps|
  {
    if steps == [] then s else EndOf(Do(s, steps[0].0, steps[0].1), steps[1..], policy)
  }

  predicate InBody(pc: Pc) {
    pc.Body? || pc.Seated?
  }

  /** Not both instances are alive and between acquiring the lock and the end of their critical section. */
  predicate Exclusive(s: State)
    requires |s.pcs| == 2
  {
    exists i: Id :: i in s.stopped || !InBody(s.pcs[i])
  }

  /** The holder is read from the lock as it was written, and a free lock reads as held by instance 0. */
  lemma {:induction false} HolderIsRead(i: Id, job: Job)
    ensures HolderOf(LockValue(i, job)) == if job == Evict then Other(i) else i
    ensures HolderOf(0) == 0 && LockValue(i, job) != 0
  {
  }

  /** Failing to get the lock costs an instance nothing but the attempt, unless it is leaving. */
  lemma {:induction false} FailureCanBeTriedAgain(s: State, i: Id, a: Action)
    requires |s.pcs| == 2 && Possible(s, i, a)
    requires (a == ReadMask && s.pcs[i].holder in s.mask) || a == TryAgain(false)
    ensures
      var job, s' := s.pcs[i].job, Do(s, i, a);
      && s'.lock == s.lock && s'.mask == s.mask && s'.stopped == s.stopped
      && (if job == Leave then s'.pcs[i] == Gone else Possible(s', i, Enter(job)))
  {
  }

  // ---------------------------------------------------------------------------
  // The invariant
  // ---------------------------------------------------------------------------

  predicate Holds(pc: Pc) {
    InBody(pc) || pc.Releasing?
  }

  function JobOf(pc: Pc): Job
    requires Holds(pc)
  {
    if pc.Seated? then Join else pc.job
  }

  /** On its way out with its bit clear, or out. */
  predicate HasLeft(pc: Pc) {
    pc == Releasing(Leave) || pc == Gone
  }

  /** Whether a bit may be set or clear, given where its instance is and whether it has stopped. */
  predicate BitOk(pc: Pc, isSet: bool, dead: bool) {
    && (pc.Out? || Registering(pc) || pc == Releasing(Leave) ==> !isSet)
    && (!isSet && !dead ==> pc.Out? || Registering(pc) || HasLeft(pc))
    && (InBody(pc) && pc != Body(Join) ==> isSet)
  }

  predicate BitInv(s: State, i: Id)
    requires |s.pcs| == 2
  {
    BitOk(s.pcs[i], i in s.mask, i in s.stopped)
  }

  /** A holder that is alive or whose bit is set has its value in the lock, and is the only such holder. */
  predicate HolderInv(s: State, i: Id)
    requires |s.pcs| == 2
  {
    var pc, other := s.pcs[i], s.pcs[Other(i)];
    Holds(pc) && pc != Releasing(Leave) && !HasLeft(other) && (i in s.mask || i !in s.stopped) ==>
      s.lock == LockValue(i, JobOf(pc)) && (Holds(other) ==> Other(i) !in s.mask && Other(i) in s.stopped)
  }

  /** The lock is only taken by force from an instance without its bit that has stopped, left or not started. */
  predicate ReclaimInv(s: State, i: Id)
    requires |s.pcs| == 2
  {
    var pc, other := s.pcs[i], Other(i);
    i !in s.stopped && (pc.Reclaiming? || pc.SecondTry?) ==>
      && other !in s.mask
      && (other in s.stopped || s.pcs[other].Out? || HasLeft(s.pcs[other]))
      && (pc.Reclaiming? ==> pc.holder == other)
  }

  /** Whoever is evicted is over. */
  predicate EvictInv(s: State, i: Id)
    requires |s.pcs| == 2
  {
    Wants(s.pcs[i], Evict) || s.pcs[i] == Releasing(Evict) ==> IsOver(s, Other(i))
  }

  predicate LocalInv(s: State, i: Id)
    requires |s.pcs| == 2
  {
    BitInv(s, i) && HolderInv(s, i) && ReclaimInv(s, i) && EvictInv(s, i)
  }

  /** The value in the lock is that of somebody who holds it. */
  predicate LockHasHolder(s: State)
    requires |s.pcs| == 2
  {
    s.lock != 0 ==> exists k: Id :: Holds(s.pcs[k]) && s.lock == LockValue(k, JobOf(s.pcs[k]))
  }

  predicate Inv(s: State): (inv: bool)
    ensures inv ==> |s.pcs| == 2
  {
    |s.pcs| == 2 && LocalInv(s, 0) && LocalInv(s, 1) && LockHasHolder(s) && !Overlap(s)
  }

  lemma {:induction false} InitialInv()
    ensures Inv(Initial())
  {
  }

  lemma {:induction false} DoKeepsActorBit(s: State, i: Id, a: Action)
    requires Inv(s) && Enabled(s, i, a, STRICT)
    ensures BitInv(Do(s, i, a), i)
  {
    assert BitInv(s, i) && a != Restart;
    hide Inv, LocalInv, HolderInv, ReclaimInv, EvictInv, LockHasHolder, Overlap, LockValue, IsOver, Enabled;
    var pc, pc' := s.pcs[i], Do(s, i, a).pcs[i];
    if a == EndBody || a == SetBit {
      assert pc.Seated? || pc.Body?;
    } else {
      assert Do(s, i, a).mask == s.mask;
      hide BitOk;
      ActorMoves(s, i, a);
      OkBits(pc, pc', i in s.mask, i in s.stopped, i in Do(s, i, a).stopped);
    }
  }

  /** Where a step other than those that change a bit takes its instance. */
  predicate Follows(pc: Pc, pc': Pc) {
    || pc' == pc
    || (Registering(pc) && (Registering(pc') || pc'.Out?))
    || ((pc.Out? || pc.Gone?) && Registering(pc'))
    || (!Registering(pc) && !pc.Out? && !HasLeft(pc) && !Registering(pc') && !pc'.Out? && pc' != Releasing(Leave))
    || (pc == Releasing(Leave) && pc'.Gone?)
  }

  lemma {:induction false} ActorMoves(s: State, i: Id, a: Action)
    requires |s.pcs| == 2 && Possible(s, i, a) && a != EndBody && a != SetBit && a != Restart
    ensures Follows(s.pcs[i], Do(s, i, a).pcs[i])
  {
  }

  lemma {:induction false} OkBits(pc: Pc, pc': Pc, isSet: bool, dead: bool, dead': bool)
    requires BitOk(pc, isSet, dead) && Follows(pc, pc') && !dead && (pc.Gone? ==> !isSet || pc' == pc)
    ensures BitOk(pc', isSet, dead')
  {
  }

  lemma {:induction false} DoKeepsOtherBit(s: State, i: Id, a: Action)
    requires Inv(s) && Enabled(s, i, a, STRICT)
    ensures BitInv(Do(s, i, a), Other(i))
  {
    assert BitInv(s, Other(i)) && BitInv(s, i) && EvictInv(s, i) && HolderInv(s, Other(i));
    hide Inv, LocalInv, ReclaimInv, LockHasHolder, Overlap, LockValue;
  }

  lemma {:induction false} DoKeepsReclaims(s: State, i: Id, a: Action, k: Id)
    requires Inv(s) && Enabled(s, i, a, STRICT)
    ensures ReclaimInv(Do(s, i, a), k)
  {
    assert ReclaimInv(s, 0) && ReclaimInv(s, 1) && BitInv(s, 0) && BitInv(s, 1);
    hide Inv, LocalInv, HolderInv, EvictInv, LockHasHolder;
    assert k == i || k == Other(i);
  }

  lemma {:induction false} DoKeepsActorHolding(s: State, i: Id, a: Action)
    requires Inv(s) && Enabled(s, i, a, STRICT)
    ensures HolderInv(Do(s, i, a), i)
  {
    hide Overlap;
    assert HolderInv(s, 0) && HolderInv(s, 1) && BitInv(s, i) && BitInv(s, Other(i));
    assert ReclaimInv(s, i) && EvictInv(s, i);
    hide Inv, LocalInv, LockHasHolder;
  }

  lemma {:induction false} DoKeepsOtherHolding(s: State, i: Id, a: Action)
    requires Inv(s) && Enabled(s, i, a, STRICT)
    ensures HolderInv(Do(s, i, a), Other(i))
  {
    assert HolderInv(s, 0) && HolderInv(s, 1) && BitInv(s, i) && BitInv(s, Other(i));
    assert ReclaimInv(s, i) && EvictInv(s, i);
    hide Inv, LocalInv, LockHasHolder;
  }

  lemma {:induction false} DoKeepsEvictions(s: State, i: Id, a: Action, k: Id)
    requires Inv(s) && Enabled(s, i, a, STRICT)
    ensures EvictInv(Do(s, i, a), k)
  {
    assert EvictInv(s, 0) && EvictInv(s, 1);
    hide Inv, LocalInv, BitInv, HolderInv, ReclaimInv, LockHasHolder;
    assert k == i || k == Other(i);
  }

  lemma {:induction false} DoKeepsLock(s: State, i: Id, a: Action)
    requires Inv(s) && Enabled(s, i, a, STRICT)
    ensures LockHasHolder(Do(s, i, a))
  {
    hide LocalInv, Overlap;
    assert LockHasHolder(s);
    var s' := Do(s, i, a);
    if s'.lock != 0 && s.lock != 0 {
      var k: Id :| Holds(s.pcs[k]) && s.lock == LockValue(k, JobOf(s.pcs[k]));
      assert Holds(s'.pcs[k]) && s'.lock == LockValue(k, JobOf(s'.pcs[k]));
    } else if s'.lock != 0 {
      assert Holds(s'.pcs[i]) && s'.lock == LockValue(i, JobOf(s'.pcs[i]));
    }
  }

  lemma {:induction false} DoKeepsInv(s: State, i: Id, a: Action)
    requires Inv(s) && Enabled(s, i, a, STRICT)
    ensures Inv(Do(s, i, a))
  {
    hide Do, Possible, BitInv, ReclaimInv, HolderInv, EvictInv, LockHasHolder, Overlap;
    forall k: Id ensures LocalInv(Do(s, i, a), k) {
      if k == i { DoKeepsActorBit(s, i, a); } else { DoKeepsOtherBit(s, i, a); }
      DoKeepsReclaims(s, i, a, k);
      if k == i { DoKeepsActorHolding(s, i, a); } else { DoKeepsOtherHolding(s, i, a); }
      DoKeepsEvictions(s, i, a, k);
    }
    DoKeepsLock(s, i, a);
  }

  lemma {:induction false} InvIsExclusive(s: State)
    requires Inv(s)
    ensures Exclusive(s)
  {
    assert LocalInv(s, 0) && LocalInv(s, 1);
    assert 0 in s.stopped || !InBody(s.pcs[0]) || 1 in s.stopped || !InBody(s.pcs[1]);
  }

  // ---------------------------------------------------------------------------
  // Runs
  // ---------------------------------------------------------------------------

  ghost predicate Reaches(s: State, t: State, policy: Policy)
    requires |s.pcs| == 2
  {
    exists steps :: IsRun(s, steps, policy) && EndOf(s, steps, policy) == t
  }

  lemma {:induction false} ReachesItself(s: State, policy: Policy)
    requires |s.pcs| == 2
    ensures Reaches(s, s, policy)
  {
    assert IsRun(s, [], policy) && EndOf(s, [], policy) == s;
  }

  /** One more step at the end of a run. */
  lemma {:induction false} Extend(s: State, steps: seq<(Id, Action)>, step: (Id, Action), policy: Policy)
    requires |s.pcs| == 2 && IsRun(s, steps, policy)
    requires Enabled(EndOf(s, steps, policy), step.0, step.1, policy)
    ensures IsRun(s, steps + [step], policy)
    ensures EndOf(s, steps + [step], policy) == Do(EndOf(s, steps, policy), step.0, step.1)
    decreases |steps|
  {
    hide Do, Enabled;
    if steps == [] {
      assert steps + [step] == [step] && [step][1..] == [];
      var next := Do(s, step.0, step.1);
      assert IsRun(next, [], policy) && EndOf(next, [], policy) == next;
    } else {
      Extend(Do(s, steps[0].0, steps[0].1), steps[1..], step, policy);
      assert (steps + [step])[0] == steps[0] && (steps + [step])[1..] == steps[1..] + [step];
    }
  }

  lemma {:induction false} Onwards(s: State, t: State, i: Id, a: Action, policy: Policy)
    requires |s.pcs| == 2 && |t.pcs| == 2 && Reaches(s, t, policy) && Enabled(t, i, a, policy)
    ensures Reaches(s, Do(t, i, a), policy)
  {
    hide Do, Enabled;
    var steps :| IsRun(s, steps, policy) && EndOf(s, steps, policy) == t;
    Extend(s, steps, (i, a), policy);
  }

  lemma {:induction false} RunKeepsInv(s: State, steps: seq<(Id, Action)>)
    requires Inv(s) && IsRun(s, steps, STRICT)
    ensures Inv(EndOf(s, steps, STRICT))
    decreases |steps|
  {
    hide Inv, Do, Enabled;
    if steps != [] {
      DoKeepsInv(s, steps[0].0, steps[0].1);
      RunKeepsInv(Do(s, steps[0].0, steps[0].1), steps[1..]);
    }
  }

  // ---------------------------------------------------------------------------
  // Scenarios
  // ---------------------------------------------------------------------------

  /** Instance `i` takes a free lock for a job. */
  lemma {:induction false} GetsIn(s: State, t: State, i: Id, job: Job, u: State, policy: Policy)
    requires |s.pcs| == 2 && |t.pcs| == 2 && Reaches(s, t, policy)
    requires i !in t.stopped && t.lock == 0 && !GaveUp(t.pcs[Other(i)])
    requires if job == Join then t.pcs[i] == Out || (t.pcs[i] == Gone && policy.rejoin) else t.pcs[i] == Idle
    requires job == Evict ==> policy.evictLive || IsOver(t, Other(i))
    requires job == Join || Other(i) in t.stopped || !Registering(t.pcs[Other(i)])
    requires u == State(LockValue(i, job), t.mask, t.pcs[i := Body(job)], t.stopped)
    ensures Reaches(s, u, policy)
  {
    hide Reaches;
    Onwards(s, t, i, Enter(job), policy);
    Onwards(s, Do(t, i, Enter(job)), i, Acquire, policy);
    assert t.pcs[i := Spinning(job)][i := Body(job)] == t.pcs[i := Body(job)];
  }

  /** Instance `i` registers in a quiet moment. */
  lemma {:induction false} Joins(s: State, t: State, i: Id, u: State, policy: Policy)
    requires |s.pcs| == 2 && |t.pcs| == 2 && Reaches(s, t, policy)
    requires i !in t.stopped && t.lock == 0 && !GaveUp(t.pcs[Other(i)]) && t.pcs[i] == Out
    requires u == State(0, t.mask + {i}, t.pcs[i := Idle], t.stopped)
    ensures Reaches(s, u, policy)
  {
    hide Reaches;
    var t1 := State(LockValue(i, Join), t.mask, t.pcs[i := Body(Join)], t.stopped);
    GetsIn(s, t, i, Join, t1, policy);
    Onwards(s, t1, i, SetBit, policy);
    var t2 := Do(t1, i, SetBit);
    Onwards(s, t2, i, EndBody, policy);
    var t3 := Do(t2, i, EndBody);
    Onwards(s, t3, i, Release, policy);
    assert t1.pcs[i := Seated][i := Releasing(Join)][i := Idle] == t.pcs[i := Idle];
  }

  const BOTH_IN := State(0, {0, 1}, [Idle, Idle], {})

  lemma {:induction false} BothJoin(policy: Policy)
    ensures Reaches(Initial(), BOTH_IN, policy)
  {
    hide Reaches;
    ReachesItself(Initial(), policy);
    var one := State(0, {0}, [Idle, Out], {});
    Joins(Initial(), Initial(), 0, one, policy);
    Joins(Initial(), one, 1, BOTH_IN, policy);
  }

  /** Instance `i`, spinning in vain, finds the holder's bit clear and takes the lock by force. */
  lemma {:induction false} TakesByForce(s: State, t: State, i: Id, u: State, policy: Policy)
    requires |s.pcs| == 2 && |t.pcs| == 2 && Reaches(s, t, policy)
    requires i !in t.stopped && t.pcs[i] == Idle && HolderOf(t.lock) !in t.mask
    requires policy.giveUpWhileRegistering || Other(i) in t.stopped || !Registering(t.pcs[Other(i)])
    requires u == State(LockValue(i, Transfer), t.mask, t.pcs[i := Body(Transfer)], t.stopped)
    ensures Reaches(s, u, policy)
  {
    hide Reaches;
    Onwards(s, t, i, Enter(Transfer), policy);
    var t1 := Do(t, i, Enter(Transfer));
    Onwards(s, t1, i, GiveUpSpinning, policy);
    var t2 := Do(t1, i, GiveUpSpinning);
    Onwards(s, t2, i, ReadMask, policy);
    var t3 := Do(t2, i, ReadMask);
    Onwards(s, t3, i, StoreZero, policy);
    var t4 := Do(t3, i, StoreZero);
    Onwards(s, t4, i, TryAgain(true), policy);
    assert Do(t4, i, TryAgain(true)).pcs == t.pcs[i := Body(Transfer)];
  }

  /** An eviction that comes through while its target is alive. */
  lemma {:induction false} EvictionGoesOn(t: State, policy: Policy) returns (s: State)
    requires t == State(0, {0, 1}, [Spinning(Evict), Idle], {}) && Reaches(Initial(), t, policy)
    ensures |s.pcs| == 2 && Reaches(Initial(), s, policy) && !Exclusive(s)
  {
    hide Reaches;
    Onwards(Initial(), t, 0, Acquire, policy);
    var t1 := State(2, {0, 1}, [Body(Evict), Idle], {});
    assert Do(t, 0, Acquire) == t1;
    Onwards(Initial(), t1, 0, EndBody, policy);
    var t2 := State(2, {0}, [Releasing(Evict), Idle], {});
    assert Do(t1, 0, EndBody) == t2;
    Onwards(Initial(), t2, 0, Release, policy);
    var t3 := State(0, {0}, [Idle, Idle], {});
    assert Do(t2, 0, Release) == t3;
    var t4 := State(2, {0}, [Idle, Body(Transfer)], {});
    GetsIn(Initial(), t3, 1, Transfer, t4, policy);
    s := State(1, {0}, [Body(Transfer), Body(Transfer)], {});
    TakesByForce(Initial(), t4, 0, s, policy);
  }

  /** An instance that was evicted while alive is inside when its evictor reclaims the lock. */
  lemma {:induction false} EvictedAliveMeetsEvictor(policy: Policy) returns (s: State)
    requires policy.evictLive
    ensures |s.pcs| == 2 && Reaches(Initial(), s, policy) && !Exclusive(s)
  {
    hide Reaches;
    BothJoin(policy);
    Onwards(Initial(), BOTH_IN, 0, Enter(Evict), policy);
    var t := State(0, {0, 1}, [Spinning(Evict), Idle], {});
    assert Do(BOTH_IN, 0, Enter(Evict)) == t;
    s := EvictionGoesOn(t, policy);
  }

  /** A registering instance holds the lock before its bit is set, and a running one reclaims it. */
  lemma {:induction false} NewcomerMeetsRunning(policy: Policy) returns (s: State)
    requires policy.giveUpWhileRegistering
    ensures |s.pcs| == 2 && Reaches(Initial(), s, policy) && !Exclusive(s)
  {
    hide Reaches;
    ReachesItself(Initial(), policy);
    var t1, t2 := State(0, {0}, [Idle, Out], {}), State(2, {0}, [Idle, Body(Join)], {});
    Joins(Initial(), Initial(), 0, t1, policy);
    GetsIn(Initial(), t1, 1, Join, t2, policy);
    s := State(1, {0}, [Body(Transfer), Body(Join)], {});
    TakesByForce(Initial(), t2, 0, s, policy);
  }

  /**
   A leaver whose lock was reclaimed frees the lock of the new holder on its way out; if it
   registers again it gets in.
   */
  lemma {:induction false} LeaverComesBack(policy: Policy) returns (s: State)
    requires policy.rejoin
    ensures |s.pcs| == 2 && Reaches(Initial(), s, policy) && !Exclusive(s)
  {
    hide Reaches;
    BothJoin(policy);
    var t1 := State(1, {0, 1}, [Body(Leave), Idle], {});
    GetsIn(Initial(), BOTH_IN, 0, Leave, t1, policy);
    Onwards(Initial(), t1, 0, EndBody, policy);
    var t2 := State(1, {1}, [Releasing(Leave), Idle], {});
    assert Do(t1, 0, EndBody) == t2;
    var t3 := State(2, {1}, [Releasing(Leave), Body(Transfer)], {});
    TakesByForce(Initial(), t2, 1, t3, policy);
    Onwards(Initial(), t3, 0, Release, policy);
    var t4 := State(0, {1}, [Gone, Body(Transfer)], {});
    assert Do(t3, 0, Release) == t4;
    s := State(1, {1}, [Body(Join), Body(Transfer)], {});
    GetsIn(Initial(), t4, 0, Join, s, policy);
  }

  /** An instance that starts again while it is being evicted is alive when its bit is cleared. */
  lemma {:induction false} RestartedMeetsEvictor(policy: Policy) returns (s: State)
    requires policy.restart
    ensures |s.pcs| == 2 && Reaches(Initial(), s, policy) && !Exclusive(s)
  {
    hide Reaches;
    BothJoin(policy);
    Onwards(Initial(), BOTH_IN, 1, Stop, policy);
    var t1 := State(0, {0, 1}, [Idle, Idle], {1});
    assert Do(BOTH_IN, 1, Stop) == t1;
    Onwards(Initial(), t1, 0, Enter(Evict), policy);
    var t2 := State(0, {0, 1}, [Spinning(Evict), Idle], {1});
    assert Do(t1, 0, Enter(Evict)) == t2;
    Onwards(Initial(), t2, 1, Restart, policy);
    var t3 := State(0, {0, 1}, [Spinning(Evict), Out], {});
    assert Do(t2, 1, Restart) == t3;
    var t4 := State(0, {0, 1}, [Spinning(Evict), Idle], {});
    Joins(Initial(), t3, 1, t4, policy);
    s := EvictionGoesOn(t4, policy);
  }

  // ---------------------------------------------------------------------------
  // Mutual exclusion
  // ---------------------------------------------------------------------------

  ghost predicate AlwaysExclusive(policy: Policy) {
    forall s: State :: |s.pcs| == 2 && Reaches(Initial(), s, policy) ==> Exclusive(s)
  }

  lemma {:induction false} ReachableInv(s: State)
    requires |s.pcs| == 2 && Reaches(Initial(), s, STRICT)
    ensures Inv(s)
  {
    hide Inv;
    var steps :| IsRun(Initial(), steps, STRICT) && EndOf(Initial(), steps, STRICT) == s;
    InitialInv();
    RunKeepsInv(Initial(), steps);
  }

  /**
   Mutual exclusion holds in every run from a new segment exactly when nobody is evicted who has
   neither stopped nor left, nobody gives up on the lock while somebody is registering, nobody
   registers again after leaving, and nobody starts again after stopping. Each of the four alone
   breaks it.
   */
  lemma {:induction false} ExclusiveIffStrict(policy: Policy)
    ensures AlwaysExclusive(policy) <==> policy == STRICT
  {
    hide Reaches, Exclusive, Inv;
    if policy.evictLive {
      var s := EvictedAliveMeetsEvictor(policy);
    } else if policy.giveUpWhileRegistering {
      var s := NewcomerMeetsRunning(policy);
    } else if policy.rejoin {
      var s := LeaverComesBack(policy);
    } else if policy.restart {
      var s := RestartedMeetsEvictor(policy);
    } else {
      forall s: State | |s.pcs| == 2 && Reaches(Initial(), s, policy) ensures Exclusive(s) {
        ReachableInv(s);
        InvIsExclusive(s);
      }
    }
  }

  // ---------------------------------------------------------------------------
  // An instance that stopped while it held the lock
  // ---------------------------------------------------------------------------

  /** The other instance is on the wrong side of a lock that stays taken. */
  predicate Blocked(s: State, i: Id) {
    && Inv(s) && i in s.stopped && Holds(s.pcs[i]) && i in s.mask
    && s.lock == i + 1 && !HasLeft(s.pcs[Other(i)]) && !Holds(s.pcs[Other(i)])
  }

  lemma {:induction false} StaysBlocked(s: State, steps: seq<(Id, Action)>, i: Id)
    requires Inv(s) && IsRun(s, steps, STRICT)
    requires Blocked(s, i) || (Inv(s) && i in s.stopped && s.pcs[Other(i)] == Gone)
    ensures !InBody(EndOf(s, steps, STRICT).pcs[Other(i)])
    decreases |steps|
  {
    hide Inv;
    if steps != [] {
      var (j, a) := steps[0];
      DoKeepsInv(s, j, a);
      assert j == Other(i);
      BlockedStep(s, a, i);
      StaysBlocked(Do(s, j, a), steps[1..], i);
    }
  }

  lemma {:induction false} BlockedStep(s: State, a: Action, i: Id)
    requires Inv(s) && Enabled(s, Other(i), a, STRICT) && Inv(Do(s, Other(i), a))
    requires Blocked(s, i) || (i in s.stopped && s.pcs[Other(i)] == Gone)
    ensures Blocked(Do(s, Other(i), a), i) || (i in s.stopped && Do(s, Other(i), a).pcs[Other(i)] == Gone)
  {
    assert ReclaimInv(s, Other(i));
  }

  /**
   For an instance that stopped while it held the lock, next to an idle live one: the other one
   ever gets in exactly when the bit of the stopped one is clear.
   */
  lemma {:induction false} OthersGetInIffBitClear(s: State, i: Id)
    requires Inv(s) && i in s.stopped && Holds(s.pcs[i])
    requires Other(i) !in s.stopped && s.pcs[Other(i)] == Idle
    ensures (exists t: State :: |t.pcs| == 2 && Reaches(s, t, STRICT) && InBody(t.pcs[Other(i)])) <==> i !in s.mask
  {
    assert LocalInv(s, i) && LocalInv(s, Other(i));
    if i in s.mask {
      assert Blocked(s, i);
      forall t: State | |t.pcs| == 2 && Reaches(s, t, STRICT) ensures !InBody(t.pcs[Other(i)]) {
        var steps :| IsRun(s, steps, STRICT) && EndOf(s, steps, STRICT) == t;
        StaysBlocked(s, steps, i);
      }
    } else {
      ReachesItself(s, STRICT);
      var t := State(LockValue(Other(i), Transfer), s.mask, s.pcs[Other(i) := Body(Transfer)], s.stopped);
      if s.lock == 0 {
        GetsIn(s, s, Other(i), Transfer, t, STRICT);
      } else {
        assert HolderOf(s.lock) == i;
        TakesByForce(s, s, Other(i), t, STRICT);
      }
      assert InBody(t.pcs[Other(i)]);
    }
  }

  /**
   Every place inside and on the way out, except that of an evictor, is one where an instance can
   stop next to an idle live one; only before its bit is set and after it was cleared is it clear.
   */
  lemma {:induction false} StopsAnywhere(i: Id, pc: Pc) returns (s: State)
    requires Holds(pc) && JobOf(pc) != Evict
    ensures |s.pcs| == 2 && Reaches(Initial(), s, STRICT)
    ensures i in s.stopped && s.pcs[i] == pc && Other(i) !in s.stopped && s.pcs[Other(i)] == Idle
    ensures i !in s.mask <==> pc == Body(Join) || pc == Releasing(Leave)
  {
    hide Reaches;
    var job, start := JobOf(pc), Initial();
    ReachesItself(start, STRICT);
    var t := State(0, {Other(i)}, start.pcs[Other(i) := Idle], {});
    Joins(start, start, Other(i), t, STRICT);
    if job != Join {
      var both := State(0, {Other(i)} + {i}, t.pcs[i := Idle], {});
      Joins(start, t, i, both, STRICT);
      t := both;
    }
    s := State(LockValue(i, job), t.mask, t.pcs[i := Body(job)], {});
    GetsIn(start, t, i, job, s, STRICT);
    if pc != Body(job) && job == Join {
      Onwards(start, s, i, SetBit, STRICT);
      s := Do(s, i, SetBit);
    }
    if pc == Releasing(job) {
      Onwards(start, s, i, EndBody, STRICT);
      s := Do(s, i, EndBody);
    }
    Onwards(start, s, i, Stop, STRICT);
    s := Do(s, i, Stop);
  }
}
