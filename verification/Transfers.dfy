/** Transfers: streams of pieces, cut streams, and pieces in any order. */
module Transfers {
  import opened ByteStrings
  import opened Events
  import opened ApplyModel
  import opened ApplyProofs

  // ---------------------------------------------------------------------------
  // Pieces in order
  // ---------------------------------------------------------------------------

  /** A transfer of `content` whose first `offset` bytes have arrived. */
  predicate Streaming(h: Digest, s: Slot, content: Bytes, offset: nat) {
    && offset < |content|
    && !s.blocked
    && s.pending == Some(Expected(h(content), |content|))
    && s.temp == Some(content[..offset])
  }

  /** The transfer is over: the target is the content, which is also the new baseline. */
  predicate Committed(h: Digest, s: Slot, content: Bytes) {
    s == Slot(Some(content), None, Some(Baseline(h(content), |content|)), None, false)
  }

  lemma {:induction false} OnePiece(h: Digest, s: Slot, path: Path, content: Bytes, offset: nat, piece: Bytes)
    requires Streaming(h, s, content, offset)
    requires piece != [] && offset + |piece| <= |content| && content[offset..offset + |piece|] == piece
    ensures
      var s' := StepClean(h, s, FileContent(path, offset, piece));
      if offset + |piece| < |content|
      then Streaming(h, s', content, offset + |piece|) && s'.file == s.file
      else Committed(h, s', content)
  {
    var temp := WriteAt(content[..offset], offset, piece);
    assert temp == content[..offset + |piece|];
    if offset + |piece| == |content| {
      assert temp == content;
    }
  }

  /** After `n` of the pieces the target is unchanged, unless they were all of them. */
  lemma {:induction false} PiecesInOrder(h: Digest, s: Slot, path: Path, content: Bytes, offset: nat,
      pieces: seq<Bytes>, n: nat)
    requires offset < |content| && Streaming(h, s, content, offset)
    requires Splits(content[offset..], pieces) && n <= |pieces|
    ensures
      var s' := RunSlot(h, s, ContentEvents(path, pieces[..n], offset));
      if n < |pieces|
      then s'.file == s.file && Streaming(h, s', content, offset + |Concat(pieces[..n])|)
      else Committed(h, s', content)
    decreases |pieces|
  {
    hide StepClean, Streaming;
    if n > 0 {
      var piece, rest := pieces[0], pieces[1..];
      assert pieces[..n][0] == piece && pieces[..n][1..] == rest[..n - 1];
      assert content[offset..] == piece + Concat(rest);
      assert content[offset..][..|piece|] == piece;
      assert content[offset..offset + |piece|] == content[offset..][..|piece|];
      var e := FileContent(path, offset, piece);
      assert RunSlot(h, s, ContentEvents(path, pieces[..n], offset))
          == RunSlot(h, StepClean(h, s, e), ContentEvents(path, rest[..n - 1], offset + |piece|));
      OnePiece(h, s, path, content, offset, piece);
      if offset + |piece| < |content| {
        assert content[offset + |piece|..] == Concat(rest);
        assert Splits(content[offset + |piece|..], rest);
        PiecesInOrder(h, StepClean(h, s, e), path, content, offset + |piece|, rest, n - 1);
      } else {
        assert Concat(rest) == [];
        NothingLeft(rest);
      }
    } else {
      SomethingLeft(h, s, content, offset, pieces);
    }
  }

  lemma {:induction false} NothingLeft(pieces: seq<Bytes>)
    requires Concat(pieces) == [] && forall k :: 0 <= k < |pieces| ==> pieces[k] != []
    ensures pieces == []
  {
    ConcatIsLonger(pieces);
  }

  lemma {:induction false} SomethingLeft(h: Digest, s: Slot, content: Bytes, offset: nat, pieces: seq<Bytes>)
    requires Streaming(h, s, content, offset) && Concat(pieces) == content[offset..]
    ensures pieces != []
  {
    assert |content[offset..]| > 0;
  }

  // ---------------------------------------------------------------------------
  // Versions of one file, each possibly cut short by the next
  // ---------------------------------------------------------------------------

  /** One announced content and how many of its pieces arrived before the next announcement. */
  datatype Version = Version(created: bool, content: Bytes, pieces: seq<Bytes>, taken: nat)

  /** Empty content may come with no piece at all or with empty pieces. */
  predicate IsStream(v: Version) {
    && v.taken <= |v.pieces|
    && if v.content == [] then forall k :: 0 <= k < |v.pieces| ==> v.pieces[k] == []
       else Splits(v.content, v.pieces)
  }

  function Announce(h: Digest, path: Path, v: Version): SyncEvent {
    if v.created then FileCreated(path, h(v.content), |v.content|)
    else FileModified(path, h(v.content), |v.content|)
  }

  function StreamEvents(h: Digest, path: Path, v: Version): seq<SyncEvent>
    requires v.taken <= |v.pieces|
  {
    [Announce(h, path, v)] + ContentEvents(path, v.pieces[..v.taken], 0)
  }

  predicate Complete(v: Version) {
    v.content == [] || v.taken == |v.pieces|
  }

  predicate AreStreams(vs: seq<Version>) {
    forall k :: 0 <= k < |vs| ==> IsStream(vs[k])
  }

  function History(h: Digest, path: Path, vs: seq<Version>): seq<SyncEvent>
    requires AreStreams(vs)
  {
    if vs == [] then [] else StreamEvents(h, path, vs[0]) + History(h, path, vs[1..])
  }

  /** The content of the last complete version, or what was there before. */
  function LastComplete(before: Option<Bytes>, vs: seq<Version>): Option<Bytes>
    decreases |vs|
  {
    if vs == [] then before
    else LastComplete(if Complete(vs[0]) then Some(vs[0].content) else before, vs[1..])
  }

  /** What the target holds after `n` events: whole contents only. */
  function Shown(before: Option<Bytes>, vs: seq<Version>, n: nat): Option<Bytes>
    decreases |vs|
  {
    if vs == [] || n == 0 then before
    else if n < 1 + vs[0].taken then if vs[0].content == [] then Some([]) else before
    else Shown(if Complete(vs[0]) then Some(vs[0].content) else before, vs[1..], n - 1 - vs[0].taken)
  }

  /** One version, of whose events `n` have arrived. */
  lemma {:induction false} OneVersion(h: Digest, s: Slot, path: Path, v: Version, n: nat)
    requires IsStream(v) && n <= v.taken
    ensures
      var s' := RunSlot(h, s, [Announce(h, path, v)] + ContentEvents(path, v.pieces[..n], 0));
      && s'.file == (if v.content == [] || (n == v.taken && Complete(v)) then Some(v.content) else s.file)
      && (v.content != [] && n == v.taken && Complete(v) ==> Committed(h, s', v.content))
      && (v.content == [] ==> s'.pending == None && !s'.blocked && s'.synced == Some(Baseline(h([]), 0)))
  {
    var e, es := Announce(h, path, v), ContentEvents(path, v.pieces[..n], 0);
    assert ([e] + es)[1..] == es;
    var s1 := StepClean(h, s, e);
    if v.content == [] {
      EmptyPieces(h, s1, path, v.pieces[..n]);
    } else {
      assert v.content[..0] == [] && v.content[0..] == v.content;
      PiecesInOrder(h, s1, path, v.content, 0, v.pieces, n);
    }
  }

  /** Empty pieces of empty content leave the empty target as it is. */
  lemma {:induction false} EmptyPieces(h: Digest, s: Slot, path: Path, pieces: seq<Bytes>)
    requires s.file == Some([]) && s.synced == Some(Baseline(h([]), 0)) && s.pending == None && !s.blocked
    requires forall k :: 0 <= k < |pieces| ==> pieces[k] == []
    ensures RunSlot(h, s, ContentEvents(path, pieces, 0)) == s
    decreases |pieces|
  {
    if pieces != [] {
      assert StepClean(h, s, FileContent(path, 0, [])) == s;
      EmptyPieces(h, s, path, pieces[1..]);
    }
  }

  lemma {:induction false} HistoryShows(h: Digest, s: Slot, path: Path, vs: seq<Version>, n: nat)
    requires AreStreams(vs) && n <= |History(h, path, vs)|
    ensures RunSlot(h, s, History(h, path, vs)[..n]).file == Shown(s.file, vs, n)
    decreases |vs|
  {
    hide RunSlot, StepClean, Announce;
    if vs == [] || n == 0 {
      assert History(h, path, vs)[..n] == [];
      RunNothing(h, s);
    } else {
      var v, first, rest := vs[0], StreamEvents(h, path, vs[0]), History(h, path, vs[1..]);
      if n < 1 + v.taken {
        assert v.pieces[..v.taken][..n - 1] == v.pieces[..n - 1];
        ContentEventsTake(path, v.pieces[..v.taken], 0, n - 1);
        assert (first + rest)[..n] == [Announce(h, path, v)] + ContentEvents(path, v.pieces[..n - 1], 0);
        OneVersion(h, s, path, v, n - 1);
      } else {
        assert (first + rest)[..n] == first + rest[..n - |first|];
        RunSlotAppend(h, s, first, rest[..n - |first|]);
        OneVersion(h, s, path, v, v.taken);
        HistoryShows(h, RunSlot(h, s, first), path, vs[1..], n - |first|);
      }
    }
  }

  lemma {:induction false} RunNothing(h: Digest, s: Slot)
    ensures RunSlot(h, s, []) == s
  {
  }

  lemma {:induction false} ContentEventsTake(path: Path, pieces: seq<Bytes>, offset: nat, n: nat)
    requires n <= |pieces|
    ensures ContentEvents(path, pieces, offset)[..n] == ContentEvents(path, pieces[..n], offset)
  {
    assert pieces[..n] + pieces[n..] == pieces;
    ContentEventsAppend(path, pieces[..n], pieces[n..], offset);
  }

  /** What is shown is the original or one whole announced content, and at the end the last one. */
  lemma {:induction false} ShownIsWhole(before: Option<Bytes>, vs: seq<Version>, n: nat)
    requires AreStreams(vs)
    ensures Shown(before, vs, n) == before
         || exists k :: 0 <= k < |vs| && Complete(vs[k]) && Shown(before, vs, n) == Some(vs[k].content)
    decreases |vs|
  {
    if vs != [] && n > 0 {
      if n < 1 + vs[0].taken {
        if vs[0].content == [] {
          assert Complete(vs[0]);
        }
      } else {
        var before' := if Complete(vs[0]) then Some(vs[0].content) else before;
        ShownIsWhole(before', vs[1..], n - 1 - vs[0].taken);
        if Shown(before, vs, n) != before' {
          var k :| 0 <= k < |vs[1..]| && Complete(vs[1..][k]) && Shown(before, vs, n) == Some(vs[1..][k].content);
          assert vs[k + 1] == vs[1..][k];
        }
      }
    }
  }

  lemma {:induction false} ShownAtTheEnd(h: Digest, path: Path, before: Option<Bytes>, vs: seq<Version>)
    requires AreStreams(vs)
    ensures Shown(before, vs, |History(h, path, vs)|) == LastComplete(before, vs)
    decreases |vs|
  {
    if vs != [] {
      ShownAtTheEnd(h, path, if Complete(vs[0]) then Some(vs[0].content) else before, vs[1..]);
    }
  }

  /**
   Atomic visibility: while versions of one file arrive, each possibly cut short by the next,
   interleaved in any way with events of other paths, the target is at every moment the
   original or one whole announced content, and at the end the last complete one.
   */
  lemma {:induction false} AtomicVisibility(h: Digest, strategy: ConflictStrategy, a: Applier, ds: seq<Delivery>,
                         path: Path, vs: seq<Version>, n: nat)
    requires AllClean(h, a) && AreStreams(vs) && n <= |History(h, path, vs)|
    requires OnPath(ds, path) == History(h, path, vs)[..n]
    ensures
      var before, after := Lookup(a.files, path), Lookup(RunAll(h, strategy, a, ds).files, path);
      && after == Shown(before, vs, n)
      && (after == before || exists k :: 0 <= k < |vs| && Complete(vs[k]) && after == Some(vs[k].content))
      && (n == |History(h, path, vs)| ==> after == LastComplete(before, vs))
  {
    hide RunSlot, RunAll, Shown, LastComplete, History, Clean;
    RunIsLocal(h, strategy, a, ds, path);
    HistoryShows(h, Get(a, path), path, vs, n);
    ShownIsWhole(Lookup(a.files, path), vs, n);
    ShownAtTheEnd(h, path, Lookup(a.files, path), vs);
  }

  // ---------------------------------------------------------------------------
  // Pieces in any order
  // ---------------------------------------------------------------------------

  /** A part of a file: `length` bytes from `offset` on. */
  datatype Part = Part(offset: nat, length: nat)

  predicate PartsOf(parts: seq<Part>, content: Bytes) {
    forall k :: 0 <= k < |parts| ==> parts[k].offset + parts[k].length <= |content|
  }

  function PartEvents(path: Path, content: Bytes, parts: seq<Part>): seq<SyncEvent>
    requires PartsOf(parts, content)
  {
    if parts == [] then []
    else [FileContent(path, parts[0].offset, content[parts[0].offset..parts[0].offset + parts[0].length])]
         + PartEvents(path, content, parts[1..])
  }

  predicate Contains(part: Part, i: nat) {
    part.offset <= i < part.offset + part.length
  }

  predicate Covers(parts: seq<Part>, i: nat) {
    exists k :: 0 <= k < |parts| && Contains(parts[k], i)
  }

  /** The parts cover every position of a file of `size` bytes. */
  predicate Full(parts: seq<Part>, size: nat) {
    forall i: nat :: i < size ==> Covers(parts, i)
  }

  /** No other content of the same size has the same digest. */
  ghost predicate Unmistakable(h: Digest, content: Bytes) {
    forall other: Bytes :: |other| == |content| && h(other) == h(content) ==> other == content
  }

  /** A transfer for which the parts `done` have arrived. */
  ghost predicate Gathering(h: Digest, s: Slot, content: Bytes, done: seq<Part>) {
    && !s.blocked
    && s.pending == Some(Expected(h(content), |content|))
    && s.temp.Some? && |s.temp.value| <= |content|
    && (forall i: nat :: i < |content| && Covers(done, i) ==> i < |s.temp.value| && s.temp.value[i] == content[i])
  }

  lemma {:induction false} CoversOneMore(done: seq<Part>, part: Part, i: nat)
    ensures Covers(done + [part], i) <==> Covers(done, i) || Contains(part, i)
  {
    if Covers(done, i) {
      var k :| 0 <= k < |done| && Contains(done[k], i);
      assert (done + [part])[k] == done[k];
    }
    if Contains(part, i) {
      assert (done + [part])[|done|] == part;
    }
  }

  /** Writing a part keeps what has arrived and adds the part. */
  lemma {:induction false} PartArrives(content: Bytes, temp: Bytes, done: seq<Part>, part: Part, i: nat)
    requires part.offset + part.length <= |content| && |temp| <= |content|
    requires i < |content| && Covers(done + [part], i)
    requires Covers(done, i) ==> i < |temp| && temp[i] == content[i]
    ensures
      var temp' := WriteAt(temp, part.offset, content[part.offset..part.offset + part.length]);
      && |temp'| <= |content|
      && i < |temp'| && temp'[i] == content[i]
  {
    var data := content[part.offset..part.offset + part.length];
    var temp' := WriteAt(temp, part.offset, data);
    hide WriteAt;
    CoversOneMore(done, part, i);
    if Contains(part, i) {
      assert temp'[i] == temp'[part.offset..part.offset + part.length][i - part.offset];
    }
  }

  lemma {:induction false} WrittenLength(content: Bytes, temp: Bytes, part: Part)
    requires part.offset + part.length <= |content| && |temp| <= |content|
    ensures |WriteAt(temp, part.offset, content[part.offset..part.offset + part.length])| <= |content|
  {
  }

  /** A temporary file that agrees with the content wherever the parts cover it, and they cover it all. */
  lemma {:induction false} AllArrived(content: Bytes, temp: Bytes, done: seq<Part>)
    requires content != [] && |temp| <= |content| && Full(done, |content|)
    requires forall i: nat :: i < |content| && Covers(done, i) ==> i < |temp| && temp[i] == content[i]
    ensures temp == content
  {
    assert Covers(done, |content| - 1);
    assert forall i: nat :: i < |content| ==> Covers(done, i);
  }

  lemma {:induction false} OnePart(h: Digest, s: Slot, path: Path, content: Bytes, done: seq<Part>, part: Part)
    requires content != [] && part.offset + part.length <= |content|
    requires Gathering(h, s, content, done) && Unmistakable(h, content)
    ensures
      var e := FileContent(path, part.offset, content[part.offset..part.offset + part.length]);
      var s' := StepClean(h, s, e);
      || Committed(h, s', content)
      || (Gathering(h, s', content, done + [part]) && s'.file == s.file && !Full(done + [part], |content|))
  {
    hide WriteAt, Covers, Full;
    var data := content[part.offset..part.offset + part.length];
    var temp := WriteAt(s.temp.value, part.offset, data);
    assert StepClean(h, s, FileContent(path, part.offset, data)) == Commit(h, s.(temp := Some(temp)));
    WrittenLength(content, s.temp.value, part);
    forall i: nat | i < |content| && Covers(done + [part], i)
      ensures i < |temp| && temp[i] == content[i]
    {
      PartArrives(content, s.temp.value, done, part, i);
    }
    if Full(done + [part], |content|) {
      AllArrived(content, temp, done + [part]);
    }
  }

  lemma {:induction false} GatherParts(h: Digest, s: Slot, path: Path, content: Bytes, done: seq<Part>,
      parts: seq<Part>)
      returns (m: nat)
    requires content != [] && PartsOf(parts, content) && Unmistakable(h, content)
    requires Gathering(h, s, content, done) && Full(done + parts, |content|) && !Full(done, |content|)
    ensures 1 <= m <= |parts|
    ensures Committed(h, RunSlot(h, s, PartEvents(path, content, parts[..m])), content)
    ensures forall j :: 0 <= j < m ==> RunSlot(h, s, PartEvents(path, content, parts[..j])).file == s.file
    ensures forall c :: 0 <= c <= |parts| && Full(done + parts[..c], |content|) ==> m <= c
    decreases |parts|
  {
    hide StepClean, Gathering, Committed, Full, Unmistakable, RunSlot, PartEvents;
    assert parts == [] ==> done + parts == done;
    var part, rest := parts[0], parts[1..];
    var s' := StepClean(h, s, FileContent(path, part.offset, content[part.offset..part.offset + part.length]));
    OnePart(h, s, path, content, done, part);
    assert done + parts == (done + [part]) + rest;
    assert done + parts[..0] == done;
    NoParts(h, s, path, content, parts);
    NoParts(h, s', path, content, rest);
    if Committed(h, s', content) {
      m := 1;
      PartsFromFirst(h, s, path, content, parts, 1);
    } else {
      var m' := GatherParts(h, s', path, content, done + [part], rest);
      m := m' + 1;
      PartsFromFirst(h, s, path, content, parts, m);
      forall j | 0 <= j < m ensures RunSlot(h, s, PartEvents(path, content, parts[..j])).file == s.file {
        if j > 0 {
          PartsFromFirst(h, s, path, content, parts, j);
        }
      }
      forall c | 0 <= c <= |parts| && Full(done + parts[..c], |content|) ensures m <= c {
        if c > 0 {
          assert done + parts[..c] == (done + [part]) + rest[..c - 1];
        }
      }
    }
  }

  lemma {:induction false} PartsFromFirst(h: Digest, s: Slot, path: Path, content: Bytes, parts: seq<Part>, j: nat)
    requires PartsOf(parts, content) && 1 <= j <= |parts|
    ensures
      var part := parts[0];
      var s' := StepClean(h, s, FileContent(path, part.offset, content[part.offset..part.offset + part.length]));
      RunSlot(h, s, PartEvents(path, content, parts[..j]))
      == RunSlot(h, s', PartEvents(path, content, parts[1..][..j - 1]))
  {
    hide StepClean;
    assert parts[..j][0] == parts[0] && parts[..j][1..] == parts[1..][..j - 1];
    var es := PartEvents(path, content, parts[..j]);
    assert es[1..] == PartEvents(path, content, parts[1..][..j - 1]);
  }

  lemma {:induction false} NoParts(h: Digest, s: Slot, path: Path, content: Bytes, parts: seq<Part>)
    requires PartsOf(parts, content)
    ensures RunSlot(h, s, PartEvents(path, content, parts[..0])) == s
  {
  }

  /**
   Parts in any order, with repetitions and overlaps: the target does not change before the
   first commit, the commit comes no later than the part that completes the cover, and what
   is committed is the source content.
   */
  lemma {:induction false} PartsInAnyOrder(h: Digest, s: Slot, path: Path, created: bool, content: Bytes,
      parts: seq<Part>)
      returns (m: nat)
    requires content != [] && PartsOf(parts, content) && Unmistakable(h, content)
    requires Full(parts, |content|)
    ensures 1 <= m <= |parts|
    ensures
      var s1 := StepClean(h, s, Announce(h, path, Version(created, content, [], 0)));
      && Committed(h, RunSlot(h, s1, PartEvents(path, content, parts[..m])), content)
      && (forall j :: 0 <= j < m ==> RunSlot(h, s1, PartEvents(path, content, parts[..j])).file == s.file)
      && (forall c :: 0 <= c <= |parts| && Full(parts[..c], |content|) ==> m <= c)
  {
    var s1 := StepClean(h, s, Announce(h, path, Version(created, content, [], 0)));
    var none: seq<Part> := [];
    assert !Covers(none, 0);
    assert none + parts == parts;
    m := GatherParts(h, s1, path, content, none, parts);
    forall c | 0 <= c <= |parts| && Full(parts[..c], |content|) ensures m <= c {
      assert none + parts[..c] == parts[..c];
    }
  }

  /** After the commit a part that arrives again is harmless unless it is a proper prefix. */
  lemma {:induction false} RedeliveryIsHarmlessIff(h: Digest, s: Slot, path: Path, content: Bytes, part: Part)
    requires Committed(h, s, content) && part.offset + part.length <= |content|
    ensures
      var data := content[part.offset..part.offset + part.length];
      StepClean(h, s, FileContent(path, part.offset, data)).file == Some(content)
      <==> part.offset != 0 || part.length == |content|
  {
    var data := content[part.offset..part.offset + part.length];
    if part.offset == 0 {
      assert WriteAt([], 0, data) == data;
      assert part.length == |content| ==> data == content;
    } else {
      var after := WriteAt(content, part.offset, data);
      assert after == content by {
        forall i | 0 <= i < |content| && part.offset <= i < part.offset + part.length
          ensures after[i] == content[i]
        {
          assert after[i] == after[part.offset..part.offset + part.length][i - part.offset];
        }
      }
    }
  }
}
