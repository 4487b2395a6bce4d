/** Applying and watching together: what an instance received it does not report back. */
module EchoFreedom {
  import opened ByteStrings
  import opened Events
  import opened ApplyModel
  import opened ApplyProofs
  import opened Transfers
  import opened SyncEngine
  import opened Watcher

  function AppliedNotes(es: seq<SyncEvent>): seq<Note> {
    if es == [] then [] else [Applied(es[0])] + AppliedNotes(es[1..])
  }

  lemma {:induction false} NothingReported(h: Digest, strategy: ConflictStrategy, a: Applier, d: Delivery)
    requires AllClean(h, a)
    ensures Report(h, strategy, a, d.event, d.remoteTime, d.localTime) == None
  {
    hide Clean, Conflicts;
    if IsMetadata(d.event) {
      assert Clean(h, Get(a, d.event.path));
      CleanNeverConflicts(h, strategy, Get(a, d.event.path), d.event.hash, d.remoteTime, d.localTime);
    }
  }

  /** Announcements and content, no deletions. */
  predicate BringFiles(es: seq<SyncEvent>) {
    forall k :: 0 <= k < |es| ==> IsMetadata(es[k]) || es[k].FileContent?
  }

  /**
   Without local edits, what the tracker knows of a path after a batch that does not delete it
   depends on the events that touch the path alone: each of them is noted.
   */
  lemma {:induction false} KnowledgeIsLocal(h: Digest, strategy: ConflictStrategy, a: Applier, ds: seq<Delivery>,
                                            s1: States, s2: States, p: Path)
    requires AllClean(h, a) && BringFiles(OnPath(ds, p)) && Lookup(s1, p) == Lookup(s2, p)
    ensures Lookup(TrackAll(s1, NotesOf(h, strategy, a, ds)), p)
         == Lookup(TrackAll(s2, AppliedNotes(OnPath(ds, p))), p)
    decreases |ds|
  {
    hide Deliver, AllClean, Clean, Get, Track, Touches, Seen, Report;
    if ds != [] {
      var d, note := ds[0], Applied(ds[0].event);
      var notes, mine := NotesOf(h, strategy, a, ds), OnPath(ds, p);
      NothingReported(h, strategy, a, d);
      DeliverStaysClean(h, strategy, a, d);
      KnownAfter(s1, note, p);
      KnownAfter(s2, note, p);
      assert EventsOf(ds)[0] == d.event && EventsOf(ds)[1..] == EventsOf(ds[1..]);
      var rest := NotesOf(h, strategy, Deliver(h, strategy, a, d), ds[1..]);
      if Touches(d.event, p) {
        assert mine[0] == Seen(d.event, p) && mine[1..] == OnPath(ds[1..], p);
        TouchedIsSeen(d.event, p);
        assert notes[0] == note && notes[1..] == rest;
        assert AppliedNotes(mine)[0] == note && AppliedNotes(mine)[1..] == AppliedNotes(mine[1..]);
        LaterBringFiles(mine);
        KnowledgeIsLocal(h, strategy, Deliver(h, strategy, a, d), ds[1..], Track(s1, note), Track(s2, note), p);
      } else {
        assert mine == OnPath(ds[1..], p);
        if Noted(h, strategy, a, d) {
          assert notes[0] == note && notes[1..] == rest;
          KnowledgeIsLocal(h, strategy, Deliver(h, strategy, a, d), ds[1..], Track(s1, note), s2, p);
        } else {
          assert notes == rest;
          KnowledgeIsLocal(h, strategy, Deliver(h, strategy, a, d), ds[1..], s1, s2, p);
        }
      }
    }
  }

  lemma {:induction false} TouchedIsSeen(e: SyncEvent, p: Path)
    requires IsMetadata(Seen(e, p)) || Seen(e, p).FileContent?
    ensures Seen(e, p) == e && !e.DirDeleted?
  {
  }

  lemma {:induction false} LaterBringFiles(es: seq<SyncEvent>)
    requires BringFiles(es) && es != []
    ensures BringFiles(es[1..])
  {
  }

  lemma {:induction false} AppendBringFiles(x: seq<SyncEvent>, y: seq<SyncEvent>)
    requires BringFiles(x) && BringFiles(y)
    ensures BringFiles(x + y)
  {
  }

  lemma {:induction false} ContentBringsFiles(path: Path, pieces: seq<Bytes>, offset: nat)
    ensures BringFiles(ContentEvents(path, pieces, offset))
    decreases |pieces|
  {
    if pieces != [] {
      ContentBringsFiles(path, pieces[1..], offset + |pieces[0]|);
    }
  }

  lemma {:induction false} HistoryBringsFiles(h: Digest, path: Path, vs: seq<Version>)
    requires AreStreams(vs)
    ensures BringFiles(History(h, path, vs))
    decreases |vs|
  {
    hide BringFiles;
    if vs != [] {
      var v := vs[0];
      HistoryBringsFiles(h, path, vs[1..]);
      ContentBringsFiles(path, v.pieces[..v.taken], 0);
      assert BringFiles([Announce(h, path, v)]) by { OneAnnouncement(h, path, v); }
      AppendBringFiles([Announce(h, path, v)], ContentEvents(path, v.pieces[..v.taken], 0));
      AppendBringFiles(StreamEvents(h, path, v), History(h, path, vs[1..]));
    } else {
      assert BringFiles([]) by { ContentBringsFiles(path, [], 0); }
    }
  }

  lemma {:induction false} OneAnnouncement(h: Digest, path: Path, v: Version)
    ensures BringFiles([Announce(h, path, v)])
  {
  }

  lemma {:induction false} KnownAfter(states: States, note: Note, p: Path)
    ensures Lookup(Track(states, note), p) == (if Says(note, p).Some? then Says(note, p).value else Lookup(states, p))
    ensures !Touches(note.event, p) ==> Says(note, p) == None
  {
  }

  lemma {:induction false} AppliedNotesAppend(x: seq<SyncEvent>, y: seq<SyncEvent>)
    ensures AppliedNotes(x + y) == AppliedNotes(x) + AppliedNotes(y)
  {
    if x == [] {
      assert x + y == y;
    } else {
      assert (x + y)[0] == x[0] && (x + y)[1..] == x[1..] + y;
      AppliedNotesAppend(x[1..], y);
    }
  }

  lemma {:induction false} ContentSaysNothing(path: Path, pieces: seq<Bytes>, offset: nat, p: Path)
    ensures forall k :: 0 <= k < |AppliedNotes(ContentEvents(path, pieces, offset))| ==>
      Says(AppliedNotes(ContentEvents(path, pieces, offset))[k], p) == None
    decreases |pieces|
  {
    if pieces != [] {
      ContentSaysNothing(path, pieces[1..], offset + |pieces[0]|, p);
    }
  }

  lemma {:induction false} LastSaidAppend(before: Option<FileState>, x: seq<Note>, y: seq<Note>, p: Path)
    ensures LastSaid(before, x + y, p) == LastSaid(LastSaid(before, x, p), y, p)
    decreases |y|
  {
    if y == [] {
      assert x + y == x;
    } else {
      assert (x + y)[|x + y| - 1] == y[|y| - 1] && (x + y)[..|x + y| - 1] == x + y[..|y| - 1];
      LastSaidAppend(before, x, y[..|y| - 1], p);
    }
  }

  /** After a history of versions the tracker knows the version announced last. */
  lemma {:induction false} LastAnnounced(h: Digest, before: Option<FileState>, path: Path, vs: seq<Version>)
    requires AreStreams(vs)
    ensures LastSaid(before, AppliedNotes(History(h, path, vs)), path)
         == if vs == [] then before
            else Some(FileState(h(vs[|vs| - 1].content), |vs[|vs| - 1].content|))
    decreases |vs|
  {
    hide StreamEvents, Announce;
    if vs != [] {
      var first, rest := StreamEvents(h, path, vs[0]), History(h, path, vs[1..]);
      AppliedNotesAppend(first, rest);
      LastSaidAppend(before, AppliedNotes(first), AppliedNotes(rest), path);
      StreamSays(h, before, path, vs[0]);
      LastAnnounced(h, LastSaid(before, AppliedNotes(first), path), path, vs[1..]);
    }
  }

  lemma {:induction false} StreamSays(h: Digest, before: Option<FileState>, path: Path, v: Version)
    requires v.taken <= |v.pieces|
    ensures LastSaid(before, AppliedNotes(StreamEvents(h, path, v)), path) == Some(FileState(h(v.content), |v.content|))
  {
    var e, es := Announce(h, path, v), ContentEvents(path, v.pieces[..v.taken], 0);
    AppliedNotesAppend([e], es);
    assert AppliedNotes([e]) == [Applied(e)];
    LastSaidAppend(before, [Applied(e)], AppliedNotes(es), path);
    ContentSaysNothing(path, v.pieces[..v.taken], 0, path);
    SilenceKeeps(LastSaid(before, [Applied(e)], path), AppliedNotes(es), path);
  }

  /**
   Received files are not reported back: after any batches of remote events in which the path
   received versions of which the last is complete, the file is that version, and a local
   create or modify report carrying the file's own hash and size is dropped.
   */
  lemma {:induction false} ReceivedIsNotReported(h: Digest, strategy: ConflictStrategy, s: Receiving, ds: seq<Delivery>,
                              path: Path, vs: seq<Version>, report: SyncEvent)
    requires AllClean(h, s.applier) && AreStreams(vs) && vs != [] && Complete(vs[|vs| - 1])
    requires OnPath(ds, path) == History(h, path, vs)
    requires IsMetadata(report) && report.path == path
    ensures
      var after, content := HandleAll(h, strategy, s, ds), vs[|vs| - 1].content;
      && Lookup(after.applier.files, path) == Some(content)
      && (Emits(after.states, report) <==> report.hash != h(content) || report.size != |content|)
  {
    hide History, RunAll, TrackAll, Emits, AllClean, IsStream, AppliedNotes, Shown, LastComplete;
    var after := HandleAll(h, strategy, s, ds);
    HandleAllIs(h, strategy, s, ds);
    HistoryBringsFiles(h, path, vs);
    var notes, mine := NotesOf(h, strategy, s.applier, ds), AppliedNotes(History(h, path, vs));
    KnowledgeIsLocal(h, strategy, s.applier, ds, s.states, s.states, path);
    LastAnnounced(h, Lookup(s.states, path), path, vs);
    TrackerRemembersLast(s.states, mine, path);
    TrackerRemembersLast(s.states, notes, path);
    DroppedIffRepeated(s.states, notes, report);
    assert History(h, path, vs)[..|History(h, path, vs)|] == History(h, path, vs);
    AtomicVisibility(h, strategy, s.applier, ds, path, vs, |History(h, path, vs)|);
    EndsComplete(Lookup(s.applier.files, path), vs);
  }

  lemma {:induction false} EndsComplete(before: Option<Bytes>, vs: seq<Version>)
    requires vs != [] && Complete(vs[|vs| - 1])
    ensures LastComplete(before, vs) == Some(vs[|vs| - 1].content)
    decreases |vs|
  {
    if |vs| > 1 {
      EndsComplete(if Complete(vs[0]) then Some(vs[0].content) else before, vs[1..]);
    } else {
      assert vs[1..] == [];
    }
  }
}
