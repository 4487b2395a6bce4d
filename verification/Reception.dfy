/**
 What handling a batch of remote envelopes does to the watcher's knowledge, to the suppressed paths and
 to the offline flag, said path by path.
 */
module Reception {
  import opened RingModel
  import opened Events
  import opened ApplyModel
  import opened ApplyProofs
  import opened SyncModel
  import opened LaterEdits
  import opened Watcher
  import opened SyncEngine

  // ---------------------------------------------------------------------------
  // Suppressed paths and heartbeats
  // ---------------------------------------------------------------------------

  /** A foreign event other than a heartbeat names the path. */
  predicate Names(e: Envelope, me: Id, p: Path) {
    e.instance != me && !e.event.Heartbeat? && e.event.path == p
  }

  /** The suppressed paths are those named by foreign events, and no others. */
  lemma {:induction false} SuppressedIffNamed(envelopes: seq<Envelope>, me: Id, times: seq<int>, p: Path)
    ensures p in PathsOf(EventsOf(WithTimes(OnlyApplied(envelopes, me), times)))
       <==> exists k :: 0 <= k < |envelopes| && Names(envelopes[k], me, p)
    decreases |envelopes|
  {
    if envelopes != [] {
      var e, rest := envelopes[0], envelopes[1..];
      var applied := OnlyApplied(envelopes, me);
      if IsApplied(e, me) {
        assert applied[0] == e && applied[1..] == OnlyApplied(rest, me);
        var times' := if times == [] then [] else times[1..];
        SuppressedIffNamed(rest, me, times', p);
        var ds := WithTimes(applied, times);
        assert EventsOf(ds)[0] == e.event && EventsOf(ds)[1..] == EventsOf(WithTimes(OnlyApplied(rest, me), times'));
      } else {
        assert applied == OnlyApplied(rest, me);
        SuppressedIffNamed(rest, me, times, p);
      }
      if exists k :: 0 <= k < |rest| && Names(rest[k], me, p) {
        var k :| 0 <= k < |rest| && Names(rest[k], me, p);
        assert envelopes[k + 1] == rest[k];
      }
      if k :| 0 <= k < |envelopes| && Names(envelopes[k], me, p) {
        assert k > 0 ==> rest[k - 1] == envelopes[k];
      }
    }
  }

  /** Only heartbeats of the peer count, wherever they stand. One's own say nothing. */
  lemma {:induction false} OnlyPeerHeartbeatsCount(a: seq<Envelope>, e: Envelope, b: seq<Envelope>, me: Id)
    ensures HearsPeer([], me) == false
    ensures HearsPeer(a + [e] + b, me) <==> HearsPeer(a + b, me) || (e.event.Heartbeat? && e.instance != me)
  {
    assert forall x :: x in a + [e] + b <==> x in a + b || x == e;
  }

  // ---------------------------------------------------------------------------
  // The watcher's knowledge
  // ---------------------------------------------------------------------------

  lemma {:induction false} HandleAllAppend(h: Digest, strategy: ConflictStrategy, s: Receiving, x: seq<Delivery>,
                                           y: seq<Delivery>)
    ensures HandleAll(h, strategy, s, x + y) == HandleAll(h, strategy, HandleAll(h, strategy, s, x), y)
    decreases |x|
  {
    hide HandleOne;
    if x == [] {
      assert x + y == y;
    } else {
      assert (x + y)[0] == x[0] && (x + y)[1..] == x[1..] + y;
      HandleAllAppend(h, strategy, HandleOne(h, strategy, s, x[0]), x[1..], y);
    }
  }

  predicate NoneTouches(ds: seq<Delivery>, p: Path) {
    forall k :: 0 <= k < |ds| ==> !Touches(ds[k].event, p)
  }

  /** What is known of a path changes only with events that touch it. */
  lemma {:induction false} KnowledgeStays(h: Digest, strategy: ConflictStrategy, s: Receiving, ds: seq<Delivery>,
                                          p: Path)
    requires NoneTouches(ds, p)
    ensures Lookup(HandleAll(h, strategy, s, ds).states, p) == Lookup(s.states, p)
    decreases |ds|
  {
    hide Noted, Deliver, PathOf;
    if ds != [] {
      assert !Touches(ds[0].event, p);
      KnowledgeStays(h, strategy, HandleOne(h, strategy, s, ds[0]), ds[1..], p);
    }
  }

  /** The file of this path is deleted. */
  predicate Deletes(e: SyncEvent, p: Path) {
    e == FileDeleted(p) || (e.DirDeleted? && e.path <= p)
  }

  /**
   A remote deletion that succeeds is noted: after any batch in which it is the last event about the path,
   the watcher no longer knows the path, and passes on whatever is found there next.
   */
  lemma {:induction false} DeletedIsForgotten(h: Digest, strategy: ConflictStrategy, s: Receiving, x: seq<Delivery>,
                                              d: Delivery, y: seq<Delivery>, p: Path, found: SyncEvent)
    requires Deletes(d.event, p) && NoneTouches(y, p)
    requires d.event.DirDeleted? ==> d.event.path !in HandleAll(h, strategy, s, x).applier.files
    requires IsMetadata(found) && found.path == p
    ensures
      var states := HandleAll(h, strategy, s, x + [d] + y).states;
      p !in states && Emits(states, found)
  {
    hide Deliver, PathOf;
    var s1 := HandleAll(h, strategy, s, x);
    HandleAllAppend(h, strategy, s, x + [d], y);
    HandleAllAppend(h, strategy, s, x, [d]);
    var s2 := HandleOne(h, strategy, s1, d);
    assert [d][1..] == [] && HandleAll(h, strategy, s1, [d]) == s2;
    assert Noted(h, strategy, s1.applier, d);
    assert p !in s2.states;
    KnowledgeStays(h, strategy, s2, y, p);
  }

  /** A removal that fails is not noted: it fails exactly when a file is still there afterwards. */
  lemma {:induction false} FailedIffStillThere(h: Digest, strategy: ConflictStrategy, s: Receiving, d: Delivery)
    requires d.event.DirDeleted?
    ensures
      var s' := HandleOne(h, strategy, s, d);
      && (Fails(s.applier, d.event) <==> d.event.path in s'.applier.files)
      && (Fails(s.applier, d.event) ==> s'.states == s.states)
  {
  }

  /**
   An announcement that meets a conflict is not noted either: the watcher's knowledge is as before, so the
   local version is passed on unless it is the one last spoken about.
   */
  lemma {:induction false} ConflictIsNotNoted(h: Digest, strategy: ConflictStrategy, s: Receiving, d: Delivery)
    requires IsMetadata(d.event) && Edited(h, Get(s.applier, d.event.path), d.event.hash)
    requires strategy == KeepBoth || d.remoteTime < d.localTime
    ensures HandleOne(h, strategy, s, d).states == s.states
  {
    ReportedIff(h, strategy, s.applier, d);
  }

  /** Every other announcement is noted. */
  lemma {:induction false} AcceptedIsNoted(h: Digest, strategy: ConflictStrategy, s: Receiving, d: Delivery)
    requires IsMetadata(d.event)
    requires !Edited(h, Get(s.applier, d.event.path), d.event.hash)
          || (strategy == LastWriteWins && d.localTime <= d.remoteTime)
    ensures Lookup(HandleOne(h, strategy, s, d).states, d.event.path) == Some(FileState(d.event.hash, d.event.size))
  {
    ReportedIff(h, strategy, s.applier, d);
  }

  // ---------------------------------------------------------------------------
  // Deleted files
  // ---------------------------------------------------------------------------

  /** The deletion reaches the file: a directory is not the path itself. */
  predicate Reaches(e: SyncEvent, p: Path) {
    e == FileDeleted(p) || (e.DirDeleted? && e.path < p)
  }

  /** In a directory without conflicts a file is gone after any run whose last event about it deletes it. */
  lemma {:induction false} DeletedIsGone(h: Digest, strategy: ConflictStrategy, a: Applier, x: seq<Delivery>,
                                         d: Delivery, y: seq<Delivery>, p: Path)
    requires AllClean(h, a) && Reaches(d.event, p) && NoneTouches(y, p)
    ensures
      var a' := RunAll(h, strategy, a, x + [d] + y);
      p !in a'.files && p !in a'.temps && p !in a'.synced && p !in a'.pending && p !in a'.blocked
  {
    hide RunAll, RunSlot, Touching, AllClean;
    var ds := x + [d] + y;
    RunIsLocal(h, strategy, a, ds, p);
    EventsOfAppend(x + [d], y);
    EventsOfAppend(x, [d]);
    TouchingAppend(EventsOf(x + [d]), EventsOf(y), p);
    TouchingAppend(EventsOf(x), EventsOf([d]), p);
    NothingHere(y, p);
    DeletionHere(d, p);
    assert OnPath(ds, p) == Touching(EventsOf(x), p) + [FileDeleted(p)];
    RunSlotAppend(h, Get(a, p), Touching(EventsOf(x), p), [FileDeleted(p)]);
    DeletionClears(h, RunSlot(h, Get(a, p), Touching(EventsOf(x), p)), p);
    assert Get(RunAll(h, strategy, a, ds), p) == CLEARED;
  }

  /** A deleted directory: what is under it is gone, what is at or under it is forgotten, the rest is as before. */
  lemma {:induction false} DirectoryIsGone(h: Digest, strategy: ConflictStrategy, a: Applier, d: Delivery, p: Path)
    requires d.event.DirDeleted?
    ensures
      var dir, a' := d.event.path, Deliver(h, strategy, a, d);
      && (if dir < p then p !in a'.files && p !in a'.temps
          else Lookup(a'.files, p) == Lookup(a.files, p) && Lookup(a'.temps, p) == Lookup(a.temps, p))
      && (if dir <= p then p !in a'.synced && p !in a'.pending && p !in a'.blocked
          else && Lookup(a'.synced, p) == Lookup(a.synced, p) && Lookup(a'.pending, p) == Lookup(a.pending, p)
               && (p in a'.blocked <==> p in a.blocked))
  {
  }

  lemma {:induction false} EventsOfAppend(x: seq<Delivery>, y: seq<Delivery>)
    ensures EventsOf(x + y) == EventsOf(x) + EventsOf(y)
  {
    if x == [] {
      assert x + y == y;
    } else {
      assert (x + y)[0] == x[0] && (x + y)[1..] == x[1..] + y;
      EventsOfAppend(x[1..], y);
    }
  }

  lemma {:induction false} NothingHere(y: seq<Delivery>, p: Path)
    requires NoneTouches(y, p)
    ensures Touching(EventsOf(y), p) == []
    decreases |y|
  {
    if y != [] {
      assert !Touches(y[0].event, p);
      assert EventsOf(y)[1..] == EventsOf(y[1..]);
      NothingHere(y[1..], p);
    }
  }

  lemma {:induction false} DeletionHere(d: Delivery, p: Path)
    requires Reaches(d.event, p)
    ensures Touching(EventsOf([d]), p) == [FileDeleted(p)]
  {
    assert [d][1..] == [];
    assert EventsOf([d]) == [d.event];
    assert [d.event][1..] == [];
  }

  lemma {:induction false} DeletionClears(h: Digest, s: Slot, p: Path)
    ensures RunSlot(h, s, [FileDeleted(p)]) == CLEARED
    ensures CLEARED == Slot(None, None, None, None, false)
  {
    assert [FileDeleted(p)][1..] == [];
  }
}
