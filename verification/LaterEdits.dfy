/** Conflicts under last-writer-wins: which side wins, and that the losing side changes nothing. */
module LaterEdits {
  import opened ByteStrings
  import opened CopyNames
  import opened Events
  import opened ApplyModel
  import opened ApplyProofs
  import opened Transfers
  import opened LocalEdits

  /** The file is neither what both sides agreed on last nor what the remote announces. */
  predicate Edited(h: Digest, s: Slot, remote: Hash) {
    s.file.Some? && s.synced.Some? && h(s.file.value) != s.synced.value.hash && h(s.file.value) != remote
  }

  /** What is reported, in the terms of the two sides and their times. */
  lemma {:induction false} ReportedIff(h: Digest, strategy: ConflictStrategy, a: Applier, d: Delivery)
    requires IsMetadata(d.event)
    ensures
      var p, s, e := d.event.path, Get(a, d.event.path), d.event;
      Report(h, strategy, a, e, d.remoteTime, d.localTime)
      == if Edited(h, s, e.hash) && (strategy == KeepBoth || d.remoteTime < d.localTime)
         then Some(ConflictInfo(p, h(s.file.value), |s.file.value|, e.hash, e.size)) else None
  {
  }

  /**
   An announcement that meets an edited file. If the file was written later it stays, no transfer is
   opened, and what was announced will be ignored; otherwise the transfer is opened and nothing is
   reported. No other path changes.
   */
  lemma {:induction false} AnnouncementAtEdit(h: Digest, a: Applier, d: Delivery, q: Path)
    requires IsMetadata(d.event) && Edited(h, Get(a, d.event.path), d.event.hash)
    ensures
      var p, e := d.event.path, d.event;
      var s, s' := Get(a, p), Get(Deliver(h, LastWriteWins, a, d), p);
      var report := Report(h, LastWriteWins, a, e, d.remoteTime, d.localTime);
      if d.remoteTime < d.localTime then
        && report == Some(ConflictInfo(p, h(s.file.value), |s.file.value|, e.hash, e.size))
        && s' == s.(pending := if e.FileModified? then None else s.pending, blocked := true)
      else
        && report == None && !s'.blocked
        && (if e.size == 0 then s'.file == Some([]) && s'.pending == None
            else s'.file == s.file && s'.pending == Some(Expected(e.hash, e.size)) && s'.temp == Some([]))
    ensures q != d.event.path ==> Get(Deliver(h, LastWriteWins, a, d), q) == Get(a, q)
  {
  }

  // ---------------------------------------------------------------------------
  // One path among others
  // ---------------------------------------------------------------------------

  /** Of the remote events none but content speaks about the path. */
  predicate OnlyContent(xs: seq<Happening>, p: Path) {
    forall k :: 0 <= k < |xs| && xs[k].Remote? && Touches(xs[k].delivery.event, p) ==> xs[k].delivery.event.FileContent?
  }

  predicate EditsHere(x: Happening, p: Path) {
    !x.Remote? && x.path == p
  }

  predicate NoEditsHere(xs: seq<Happening>, p: Path) {
    forall k :: 0 <= k < |xs| ==> !EditsHere(xs[k], p)
  }

  /** What the local edits alone make of the file. */
  function LocalFile(before: Option<Bytes>, xs: seq<Happening>, p: Path): Option<Bytes>
    decreases |xs|
  {
    if xs == [] then before
    else if !EditsHere(xs[0], p) then LocalFile(before, xs[1..], p)
    else LocalFile(if xs[0].LocalWrite? then Some(xs[0].content) else None, xs[1..], p)
  }

  /** The remote events about the path, in order. */
  function RemoteHere(xs: seq<Happening>, p: Path): seq<SyncEvent> {
    if xs == [] then []
    else (if xs[0].Remote? && Touches(xs[0].delivery.event, p) then [Seen(xs[0].delivery.event, p)] else [])
         + RemoteHere(xs[1..], p)
  }

  /** Whatever happens elsewhere leaves the slot alone; content steps it; local edits set its file. */
  lemma {:induction false} HappensHere(h: Digest, a: Applier, x: Happening, p: Path)
    requires x.Remote? && Touches(x.delivery.event, p) ==> x.delivery.event.FileContent?
    ensures
      var s' := Get(Happen(h, LastWriteWins, a, x), p);
      if x.Remote? then
        s' == if Touches(x.delivery.event, p) then StepClean(h, Get(a, p), x.delivery.event) else Get(a, p)
      else if EditsHere(x, p) then s' == Get(a, p).(file := if x.LocalWrite? then Some(x.content) else None)
      else s' == Get(a, p)
  {
    hide StepClean, Conflicts, CopyPath;
    if x.Remote? {
      var d := x.delivery;
      var copy := if IsMetadata(d.event) then CopyPath(a.files.Keys, d.event.path) else ["x"];
      if InConflict(h, LastWriteWins, a, d) {
        GetPut(a, d.event.path, Block(d.event, Get(a, d.event.path)), p);
      } else {
        ApplyIsLocal(h, LastWriteWins, a, d.event, d.remoteTime, d.localTime, copy, p);
      }
    }
  }

  lemma {:induction false} HappenAllAppend(h: Digest, strategy: ConflictStrategy, a: Applier, xs: seq<Happening>,
                                           ys: seq<Happening>)
    ensures HappenAll(h, strategy, a, xs + ys) == HappenAll(h, strategy, HappenAll(h, strategy, a, xs), ys)
    decreases |xs|
  {
    hide Happen;
    if xs == [] {
      assert xs + ys == ys;
    } else {
      assert (xs + ys)[0] == xs[0] && (xs + ys)[1..] == xs[1..] + ys;
      HappenAllAppend(h, strategy, Happen(h, strategy, a, xs[0]), xs[1..], ys);
    }
  }

  // ---------------------------------------------------------------------------
  // The losing version
  // ---------------------------------------------------------------------------

  /** While the path is blocked, remote content is ignored: the file is what local edits make of it. */
  lemma {:induction false} ContentIsIgnored(h: Digest, a: Applier, xs: seq<Happening>, p: Path)
    requires p in a.blocked && OnlyContent(xs, p)
    ensures Get(HappenAll(h, LastWriteWins, a, xs), p)
         == Get(a, p).(file := LocalFile(Get(a, p).file, xs, p))
    ensures NoEditsHere(xs, p) ==> LocalFile(Get(a, p).file, xs, p) == Get(a, p).file
    decreases |xs|
  {
    hide Happen, Touches;
    if xs != [] {
      HappensHere(h, a, xs[0], p);
      ContentIsIgnored(h, Happen(h, LastWriteWins, a, xs[0]), xs[1..], p);
    }
  }

  /**
   A later local edit survives: after the conflict, over any mixture of content of that path, events and
   edits of other paths, and further edits, up to the next announcement or deletion that speaks about the
   path, the file is what the local side made of it, and the baseline is as before.
   */
  lemma {:induction false} LaterEditSurvives(h: Digest, a: Applier, d: Delivery, xs: seq<Happening>)
    requires IsMetadata(d.event) && Edited(h, Get(a, d.event.path), d.event.hash) && d.remoteTime < d.localTime
    requires OnlyContent(xs, d.event.path)
    ensures
      var p := d.event.path;
      var a' := HappenAll(h, LastWriteWins, a, [Remote(d)] + xs);
      && Lookup(a'.files, p) == LocalFile(Lookup(a.files, p), xs, p)
      && Lookup(a'.synced, p) == Lookup(a.synced, p)
      && (NoEditsHere(xs, p) ==> Lookup(a'.files, p) == Lookup(a.files, p))
  {
    hide OnlyContent, NoEditsHere, LocalFile, Deliver, Conflicts;
    var p := d.event.path;
    AnnouncementAtEdit(h, a, d, p);
    OneHappening(h, a, d, xs);
    var a1 := Deliver(h, LastWriteWins, a, d);
    assert Get(a1, p).blocked && Get(a1, p).file == Get(a, p).file && Get(a1, p).synced == Get(a, p).synced;
    ContentIsIgnored(h, a1, xs, p);
    var a' := HappenAll(h, LastWriteWins, a, [Remote(d)] + xs);
    assert Get(a', p) == Get(a1, p).(file := LocalFile(Get(a, p).file, xs, p));
  }

  lemma {:induction false} OneHappening(h: Digest, a: Applier, d: Delivery, xs: seq<Happening>)
    ensures HappenAll(h, LastWriteWins, a, [Remote(d)] + xs)
         == HappenAll(h, LastWriteWins, Deliver(h, LastWriteWins, a, d), xs)
  {
    assert ([Remote(d)] + xs)[0] == Remote(d) && ([Remote(d)] + xs)[1..] == xs;
  }

  // ---------------------------------------------------------------------------
  // The winning version
  // ---------------------------------------------------------------------------

  /** The local side has nothing to lose, or was not written later. */
  predicate GivesWay(h: Digest, s: Slot, remote: Hash, remoteTime: int, localTime: int) {
    || s.file.None? || s.synced.None?
    || h(s.file.value) == remote || h(s.file.value) == s.synced.value.hash
    || localTime <= remoteTime
  }

  /** A path that nobody edits meanwhile runs by itself. */
  lemma {:induction false} RunsByItself(h: Digest, a: Applier, xs: seq<Happening>, p: Path)
    requires OnlyContent(xs, p) && NoEditsHere(xs, p)
    ensures Get(HappenAll(h, LastWriteWins, a, xs), p) == RunSlot(h, Get(a, p), RemoteHere(xs, p))
    decreases |xs|
  {
    hide Happen, Touches, StepClean, Get;
    if xs != [] {
      HappensHere(h, a, xs[0], p);
      RunsByItself(h, Happen(h, LastWriteWins, a, xs[0]), xs[1..], p);
      if xs[0].Remote? && Touches(xs[0].delivery.event, p) {
        assert Seen(xs[0].delivery.event, p) == xs[0].delivery.event;
        assert RemoteHere(xs, p)[0] == xs[0].delivery.event && RemoteHere(xs, p)[1..] == RemoteHere(xs[1..], p);
      } else {
        assert RemoteHere(xs, p) == RemoteHere(xs[1..], p);
      }
    }
  }

  /** The announcement of a version and, among anything that happens elsewhere, its content. */
  predicate Arrives(xs: seq<Happening>, p: Path, v: Version)
    requires v.taken <= |v.pieces|
  {
    OnlyContent(xs, p) && NoEditsHere(xs, p) && RemoteHere(xs, p) == ContentEvents(p, v.pieces[..v.taken], 0)
  }

  /** A version to which the local side gives way is received in full, and without a report. */
  lemma {:induction false} VersionIsReceived(h: Digest, a: Applier, p: Path, v: Version, remoteTime: int,
                                             localTime: int, xs: seq<Happening>)
    requires IsStream(v) && v.taken == |v.pieces| && Arrives(xs, p, v)
    requires GivesWay(h, Get(a, p), h(v.content), remoteTime, localTime)
    ensures
      var d := Delivery(Announce(h, p, v), remoteTime, localTime);
      var a' := HappenAll(h, LastWriteWins, a, [Remote(d)] + xs);
      && Report(h, LastWriteWins, a, d.event, remoteTime, localTime) == None
      && Lookup(a'.files, p) == Some(v.content) && Lookup(a'.synced, p) == Some(Baseline(h(v.content), |v.content|))
      && p !in a'.pending && p !in a'.blocked
  {
    hide RunSlot, OnlyContent, NoEditsHere, RemoteHere, Deliver, Touches;
    var e := Announce(h, p, v);
    var d := Delivery(e, remoteTime, localTime);
    OneHappening(h, a, d, xs);
    AnnouncementGoesOn(h, a, p, v, remoteTime, localTime);
    var a1 := Deliver(h, LastWriteWins, a, d);
    RunsByItself(h, a1, xs, p);
    var es := ContentEvents(p, v.pieces[..v.taken], 0);
    RunSlotCons(h, Get(a, p), e, es);
    WholeSlot(h, Get(a, p), p, v);
    var a' := HappenAll(h, LastWriteWins, a, [Remote(d)] + xs);
    assert Get(a', p) == RunSlot(h, Get(a, p), [e] + es);
  }

  lemma {:induction false} WholeSlot(h: Digest, s: Slot, p: Path, v: Version)
    requires IsStream(v) && v.taken == |v.pieces|
    ensures
      var s' := RunSlot(h, s, [Announce(h, p, v)] + ContentEvents(p, v.pieces[..v.taken], 0));
      && s'.file == Some(v.content) && s'.synced == Some(Baseline(h(v.content), |v.content|))
      && s'.pending == None && !s'.blocked
  {
    hide RunSlot, Announce;
    OneVersion(h, s, p, v, v.taken);
  }

  lemma {:induction false} AnnouncementGoesOn(h: Digest, a: Applier, p: Path, v: Version, remoteTime: int,
                                              localTime: int)
    requires GivesWay(h, Get(a, p), h(v.content), remoteTime, localTime)
    ensures
      var d := Delivery(Announce(h, p, v), remoteTime, localTime);
      && Report(h, LastWriteWins, a, d.event, remoteTime, localTime) == None
      && Get(Deliver(h, LastWriteWins, a, d), p) == StepClean(h, Get(a, p), d.event)
  {
    hide CopyPath, StepClean;
    var d := Delivery(Announce(h, p, v), remoteTime, localTime);
    GetPut(a, p, StepClean(h, Get(a, p), d.event), p);
  }

  // ---------------------------------------------------------------------------
  // Both
  // ---------------------------------------------------------------------------

  /**
   The later one wins: when a complete version meets an edited file, in the end the file is the local one
   if that was written later, and the remote content otherwise, and it is reported exactly if it was lost
   for the remote side.
   */
  lemma {:induction false} LaterOneWins(h: Digest, a: Applier, p: Path, v: Version, remoteTime: int, localTime: int,
                                        xs: seq<Happening>)
    requires Edited(h, Get(a, p), h(v.content))
    requires IsStream(v) && v.taken == |v.pieces| && Arrives(xs, p, v)
    ensures
      var d := Delivery(Announce(h, p, v), remoteTime, localTime);
      var a' := HappenAll(h, LastWriteWins, a, [Remote(d)] + xs);
      && (Report(h, LastWriteWins, a, d.event, remoteTime, localTime) != None <==> remoteTime < localTime)
      && Lookup(a'.files, p) == (if remoteTime < localTime then Lookup(a.files, p) else Some(v.content))
      && (Lookup(a'.files, p) == Some(v.content) <==> localTime <= remoteTime)
  {
    hide OnlyContent, NoEditsHere, RemoteHere, Deliver, HappenAll, LocalFile;
    var d := Delivery(Announce(h, p, v), remoteTime, localTime);
    if remoteTime < localTime {
      AnnouncementAtEdit(h, a, d, p);
      LaterEditSurvives(h, a, d, xs);
    } else {
      VersionIsReceived(h, a, p, v, remoteTime, localTime, xs);
    }
  }

  /** A version that lost blocks none that comes later and to which the local side gives way. */
  lemma {:induction false} NextVersionIsReceived(h: Digest, a: Applier, d: Delivery, xs: seq<Happening>, v: Version,
                                                 remoteTime: int, localTime: int, ys: seq<Happening>)
    requires IsMetadata(d.event) && Edited(h, Get(a, d.event.path), d.event.hash) && d.remoteTime < d.localTime
    requires OnlyContent(xs, d.event.path)
    requires IsStream(v) && v.taken == |v.pieces| && Arrives(ys, d.event.path, v)
    requires
      var p := d.event.path;
      GivesWay(h, Get(a, p).(file := LocalFile(Lookup(a.files, p), xs, p)), h(v.content), remoteTime, localTime)
    ensures
      var p, next := d.event.path, Remote(Delivery(Announce(h, d.event.path, v), remoteTime, localTime));
      var a' := HappenAll(h, LastWriteWins, a, ([Remote(d)] + xs) + ([next] + ys));
      Lookup(a'.files, p) == Some(v.content) && p !in a'.pending && p !in a'.blocked
  {
    hide OnlyContent, Arrives, LocalFile, HappenAll, Deliver, IsStream;
    var p := d.event.path;
    var next := Remote(Delivery(Announce(h, p, v), remoteTime, localTime));
    LaterEditSurvives(h, a, d, xs);
    HappenAllAppend(h, LastWriteWins, a, [Remote(d)] + xs, [next] + ys);
    VersionIsReceived(h, HappenAll(h, LastWriteWins, a, [Remote(d)] + xs), p, v, remoteTime, localTime, ys);
  }
}
