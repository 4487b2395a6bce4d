/** One run seen from both sides: what an engine sent is what its peer holds in the end. */
module Arrival {
  import opened ByteStrings
  import opened RingModel
  import opened RingProofs
  import opened RingBounds
  import opened StreamBounds
  import opened Events
  import opened ApplyModel
  import opened ApplyProofs
  import opened Transfers
  import opened SyncModel
  import opened SequenceNumbers
  import opened Conduct
  import opened Outgoing

  /** The same ring operations, seen by instance `me`: its pops are its receptions. */
  function SeenBy(me: Id, ops: seq<Op>): (view: seq<SystemStep>)
    ensures OpsOf(me, view) == ops
  {
    if ops == [] then []
    else [if ops[0] == Pop(me) then Receive([]) else Transport(ops[0])] + SeenBy(me, ops[1..])
  }

  /** Nobody registers or removes instance `me`. */
  predicate Stays(ops: seq<Op>, me: Id) {
    ops == [] || ((ops[0] == Pop(me) || LeavesAlone(ops[0], me)) && Stays(ops[1..], me))
  }

  /** Every history in which an instance stays registered is a run as it sees it. */
  lemma {:induction false} HistoryIsRun(r: Receiver, sys: System, ops: seq<Op>)
    requires Inv(sys.world) && LegalRun(sys.world, ops) && Stays(ops, r.me)
    ensures SystemRun(r, sys, SeenBy(r.me, ops))
    decreases |ops|
  {
    hide Inv, Advance, Legal, LeavesAlone, RunAll, Step;
    if ops != [] {
      var view := SeenBy(r.me, ops);
      assert view[1..] == SeenBy(r.me, ops[1..]);
      HistoryIsRun(r, SystemNext(r, sys, view[0]), ops[1..]);
    }
  }

  /** A pop of a receiver that was never overrun leaves it nothing to see, and tells it nothing new. */
  lemma {:induction false} PopLeavesNothing(r: Receiver, sys: System, localTimes: seq<int>)
    requires Inv(sys.world) && sys.world.logs[r.me].tracked
    ensures StepLegal(r, sys, Receive(localTimes))
    ensures
      var log, next := sys.world.logs[r.me], SystemNext(r, sys, Receive(localTimes));
      && Owed(next.world.logs[r.me]) == []
      && Told(r.codec, r.me, next.world.logs[r.me]) == Told(r.codec, r.me, log)
  {
    hide RunAll;
    var log := sys.world.logs[r.me];
    assert ReaderInv(sys.world.ring, log, r.me);
    TrackedPopReturns(sys.world.ring, log, r.me);
    PopDelivers(sys.world.ring, log, r.me);
  }

  /** The files are there, nothing is pending for them, and no other path has changed. */
  ghost predicate Overlaid(had: Applier, now: Applier, sent: seq<Sent>) {
    && now.files == Overlay(had.files, sent)
    && (forall k :: 0 <= k < |sent| ==> sent[k].path !in now.pending)
    && forall p: Path :: VersionsOf(sent, p) == [] ==> Get(now, p) == Get(had, p)
  }

  /** The slot of one path, after earlier events and then the streams of these files. */
  lemma {:induction false} FileIsThere(h: Digest, s: Slot, sent: seq<Sent>, p: Path)
    requires CompleteStreams(sent)
    ensures
      var s' := RunSlot(h, s, Touching(Flatten(h, sent), p));
      && s'.file == LastComplete(s.file, VersionsOf(sent, p))
      && (if VersionsOf(sent, p) == [] then s' == s else s'.pending == None)
  {
    hide RunSlot, Touching, Flatten, LastComplete;
    var vs := VersionsOf(sent, p);
    TouchingFlatten(h, sent, p);
    var events := History(h, p, vs);
    HistoryShows(h, s, p, vs, |events|);
    assert events[..|events|] == events;
    ShownAtTheEnd(h, p, s.file, vs);
    if vs == [] {
      RunNothing(h, s);
    } else {
      CompleteHistorySettles(h, s, p, vs);
    }
  }

  /**
   A receiver that was told some events and had popped them all, and then was told some files and
   has popped everything again.
   */
  lemma {:induction false} LastToldIsThere(r: Receiver, start: Applier, had: System, now: System,
                                           told: seq<SyncEvent>, sent: seq<Sent>)
    requires Inv(had.world) && Follows(r, start, had) && Owed(had.world.logs[r.me]) == []
    requires Inv(now.world) && Follows(r, start, now) && Owed(now.world.logs[r.me]) == []
    requires CompleteStreams(sent) && SpellsFiles(r.h, told, sent)
    requires Told(r.codec, r.me, now.world.logs[r.me]) == Told(r.codec, r.me, had.world.logs[r.me]) + told
    ensures Overlaid(had.applier, now.applier, sent)
  {
    hide Inv, RunSlot, Touching, Flatten, Told, AppliedEvents, Owed, IsStream, Clean, LastComplete, VersionsOf;
    AppliedIsPrefix(r, had.world);
    AppliedIsPrefix(r, now.world);
    var earlier := Told(r.codec, r.me, had.world.logs[r.me]);
    var after := Overlay(had.applier.files, sent);
    forall p: Path
      ensures Lookup(now.applier.files, p) == Lookup(after, p)
      ensures if VersionsOf(sent, p) == [] then Get(now.applier, p) == Get(had.applier, p)
              else p !in now.applier.pending
    {
      TouchingAppend(earlier, told, p);
      RunSlotAppend(r.h, Get(start, p), Touching(earlier, p), Touching(told, p));
      assert Touching(told, p) == Touching(Flatten(r.h, sent), p);
      FileIsThere(r.h, Get(had.applier, p), sent, p);
      OverlayIsLast(had.applier.files, sent, p);
      assert Get(now.applier, p).file == LastComplete(Get(had.applier, p).file, VersionsOf(sent, p));
    }
    SameFiles(now.applier.files, after);
    forall k | 0 <= k < |sent| ensures sent[k].path !in now.applier.pending {
      VersionsOfNonEmpty(sent, k);
    }
  }

  /**
   What was sent arrives. While an engine sends files, its peer, whose own files nobody edits and
   which stays registered, pops and pushes as it likes. Once the peer has popped everything, at the
   latest with one more pop, its directory is the files laid over what it would have held had it
   popped just before, with no transfer of them pending.
   */
  lemma {:induction false} SentFilesArrive(
      r: Receiver, before: System, s: Sender, left: int, steps: seq<SystemStep>,
      after: System, s': Sender, left': int, told: seq<SyncEvent>, sent: seq<Sent>,
      peer: Receiver, start: Applier, applier: Applier, view: seq<SystemStep>, localTimes: seq<int>)
    requires Conducts(r, before, s, left, steps, after, s', left') && s'.events == s.events + told
    requires CompleteStreams(sent) && SpellsFiles(r.h, told, sent)
    requires peer.me == Other(r.me) && peer.codec == r.codec && peer.h == r.h
    requires s.events == Told(r.codec, peer.me, before.world.logs[peer.me])
    requires Inv(before.world) && Follows(peer, start, System(before.world, applier))
    requires SystemRun(peer, System(before.world, applier), view) && OpsOf(peer.me, view) == OpsOf(r.me, steps)
    ensures
      var sys, pop := System(before.world, applier), Receive(localTimes);
      var now := SystemEnd(peer, sys, view);
      && StepLegal(peer, sys, pop) && StepLegal(peer, now, pop) && now.world == after.world
      && var had := SystemNext(peer, sys, pop).applier;
         && (Owed(now.world.logs[peer.me]) == [] ==> Overlaid(had, now.applier, sent))
         && Overlaid(had, SystemNext(peer, now, pop).applier, sent)
  {
    hide Inv, SystemRun, SystemEnd, LegalRun, Exec, Disciplined, SenderEnd, Spaced, LeftAfter, Told, Owed, Registers,
      SystemNext, StepLegal, CompleteStreams, SpellsFiles, Overlaid, Follows;
    var sys, pop := System(before.world, applier), Receive(localTimes);
    var now := SystemEnd(peer, sys, view);
    RunIsHistory(peer, sys, view);
    ToldAtEnd(r, before, s, left, steps, after, s', left');
    ReceiverFollows(peer, start, sys, view);
    FollowerIsTracked(peer, start, sys);
    FollowerIsTracked(peer, start, now);
    PopLeavesNothing(peer, sys, localTimes);
    PopLeavesNothing(peer, now, localTimes);
    StepFollows(peer, start, sys, pop);
    StepFollows(peer, start, now, pop);
    var had := SystemNext(peer, sys, pop);
    if Owed(now.world.logs[peer.me]) == [] {
      LastToldIsThere(peer, start, had, now, told, sent);
    }
    LastToldIsThere(peer, start, had, SystemNext(peer, now, pop), told, sent);
  }

  /** So does a directory that was sent item by item, if no file changed between hashing and reading. */
  lemma {:induction false} DirectoryArrives(
      r: Receiver, before: System, s: Sender, left: int, steps: seq<SystemStep>,
      after: System, s': Sender, left': int, items: seq<Item>, cuts: seq<seq<Bytes>>,
      peer: Receiver, start: Applier, applier: Applier, view: seq<SystemStep>, localTimes: seq<int>)
    requires Conducts(r, before, s, left, steps, after, s', left')
    requires SentWhole(items, cuts) && (forall k :: 0 <= k < |items| ==> Intact(items[k]))
    requires s'.events == s.events + ScanEvents(r.h, items, cuts)
    requires peer.me == Other(r.me) && peer.codec == r.codec && peer.h == r.h
    requires s.events == Told(r.codec, peer.me, before.world.logs[peer.me])
    requires Inv(before.world) && Follows(peer, start, System(before.world, applier))
    requires SystemRun(peer, System(before.world, applier), view) && OpsOf(peer.me, view) == OpsOf(r.me, steps)
    ensures
      var sys, pop, sent := System(before.world, applier), Receive(localTimes), FilesOf(items, cuts);
      var now := SystemEnd(peer, sys, view);
      && StepLegal(peer, sys, pop) && StepLegal(peer, now, pop) && now.world == after.world
      && var had := SystemNext(peer, sys, pop).applier;
         && (Owed(now.world.logs[peer.me]) == [] ==> Overlaid(had, now.applier, sent))
         && Overlaid(had, SystemNext(peer, now, pop).applier, sent)
  {
    hide Conducts, Inv, Follows, SystemRun, SystemEnd, SystemNext, StepLegal, Told, Owed, Overlaid, ScanEvents, FilesOf,
      CompleteStreams, SpellsFiles, Intact, Splits, Reads;
    IntactItemsSpellFiles(r.h, items, cuts);
    SentFilesArrive(r, before, s, left, steps, after, s', left', ScanEvents(r.h, items, cuts), FilesOf(items, cuts),
                    peer, start, applier, view, localTimes);
  }

  lemma {:induction false} FollowerIsTracked(r: Receiver, start: Applier, sys: System)
    requires Inv(sys.world) && Follows(r, start, sys)
    ensures sys.world.logs[r.me].tracked
  {
    hide Inv;
  }
}
