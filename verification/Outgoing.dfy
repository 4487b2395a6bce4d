/** What an engine sends for the reports of its watcher or of the scan at the start. */
module Outgoing {
  import opened ByteStrings
  import opened RingModel
  import opened Events
  import opened ApplyProofs
  import opened Transfers
  import opened SyncModel
  import opened Conduct
  import opened StreamBounds
  import opened Chunker

  /**
   What the engine finds at the path of a report: nothing, a file that does not settle or that cannot
   be hashed; or the content that it hashes, and what is found in it afterwards, up to the end or the
   first error, unless the file cannot be opened again.
   */
  datatype OnDisk = Unread | Hashed(content: Bytes, found: Option<Bytes>)

  datatype Item = Item(event: SyncEvent, disk: OnDisk)

  predicate HasContent(item: Item) {
    IsMetadata(item.event) && item.disk.Hashed?
  }

  /** The announcement carries the hash and size found now. */
  function Corrected(h: Digest, item: Item): SyncEvent {
    if HasContent(item)
    then Announce(h, item.event.path, Version(item.event.FileCreated?, item.disk.content, [], 0))
    else item.event
  }

  /** The bytes that are streamed behind the announcement. */
  function Reads(item: Item): Bytes {
    if HasContent(item) then item.disk.found.GetOr([]) else []
  }

  /** Non-empty pieces of the first of these bytes. */
  predicate CutFrom(b: Bytes, pieces: seq<Bytes>) {
    Concat(pieces) <= b && Splits(Concat(pieces), pieces)
  }

  /** What the peer is told about one item whose content went out in these pieces. */
  function ItemEvents(h: Digest, item: Item, pieces: seq<Bytes>): seq<SyncEvent> {
    (if item.event.Heartbeat? then [] else [Corrected(h, item)])
    + (if HasContent(item) then ContentEvents(item.event.path, pieces, 0) else [])
  }

  function ScanEvents(h: Digest, items: seq<Item>, cuts: seq<seq<Bytes>>): seq<SyncEvent>
    requires |items| == |cuts|
  {
    if items == [] then [] else ItemEvents(h, items[0], cuts[0]) + ScanEvents(h, items[1..], cuts[1..])
  }

  lemma {:induction false} ScanEventsOneMore(h: Digest, items: seq<Item>, cuts: seq<seq<Bytes>>, item: Item,
                                             pieces: seq<Bytes>)
    requires |items| == |cuts|
    ensures ScanEvents(h, items + [item], cuts + [pieces]) == ScanEvents(h, items, cuts) + ItemEvents(h, item, pieces)
  {
    hide ItemEvents;
    if items == [] {
      assert items + [item] == [item] && cuts + [pieces] == [pieces];
      assert [item][1..] == [] && [pieces][1..] == [];
    } else {
      assert (items + [item])[0] == items[0] && (items + [item])[1..] == items[1..] + [item];
      assert (cuts + [pieces])[0] == cuts[0] && (cuts + [pieces])[1..] == cuts[1..] + [pieces];
      ScanEventsOneMore(h, items[1..], cuts[1..], item, pieces);
    }
  }

  /** The announcement and every chunk of the item fit their frames. */
  ghost predicate ItemFits(codec: Codec, id: Id, h: Digest, chunkSize: nat, item: Item) {
    && EventFits(codec, id, Corrected(h, item))
    && (HasContent(item) ==> ChunksFit(codec, id, item.event.path, chunkSize))
  }

  /** At least as many pushes as the items can take. */
  function PushBound(items: seq<Item>): nat {
    if items == [] then 0 else 1 + |Reads(items[0])| + PushBound(items[1..])
  }

  lemma {:induction false} PushBoundSplit(items: seq<Item>, i: nat)
    requires i < |items|
    ensures PushBound(items[i..]) == 1 + |Reads(items[i])| + PushBound(items[i + 1..])
  {
    assert items[i..][0] == items[i] && items[i..][1..] == items[i + 1..];
  }

  // ---------------------------------------------------------------------------
  // What the engine meets
  // ---------------------------------------------------------------------------

  /** The answers to requests for the lock, one for each attempt that the clock allows: at least one. */
  type Answers = s: seq<bool> | s != [] witness [true]

  /**
   What is decided outside while the engine sends. For the push with counter `n`: what the clock says,
   the answers to its requests for the lock, and how many bytes were read for it. For the drain behind
   the push with counter `n`, or for the last one of a file: whether it gets the lock, and the
   modification times of the local files.
   */
  datatype Surroundings = Surroundings(
    clock: nat -> i64,
    locks: nat -> Answers,
    buffers: nat -> nat,
    drains: (nat, bool) -> bool,
    times: (nat, bool) -> seq<int>)

  /** The lock is always obtained. */
  ghost predicate Unhindered(env: Surroundings) {
    && (forall n: nat :: false !in env.locks(n))
    && (forall n: nat, last: bool :: env.drains(n, last))
  }

  /** A request for the lock was in vain, at the push with counter `n` or at a drain behind it. */
  predicate BusyAt(env: Surroundings, n: nat) {
    false in env.locks(n) || !env.drains(n, false) || !env.drains(n, true)
  }

  /**
   A stream that began behind counter `from` was stopped at counter `n` for want of the lock: at the next
   push, at the drain behind a multiple of eight pieces, or at the one behind all of them.
   */
  predicate StoppedAt(env: Surroundings, from: nat, n: nat, content: Bytes, pieces: seq<Bytes>) {
    || (n == from + |pieces| + 1 && false in env.locks(n))
    || (n == from + |pieces| && pieces != [] && |pieces| % DRAIN_EVERY_N_CHUNKS == 0 && !env.drains(n, false))
    || (n == from + |pieces| && Concat(pieces) == content && !env.drains(n, true))
  }

  lemma {:induction false} StoppedIsBusy(env: Surroundings, from: nat, n: nat, content: Bytes, pieces: seq<Bytes>)
    requires StoppedAt(env, from, n, content, pieces)
    ensures BusyAt(env, n)
  {
  }

  /** A read gives at least one byte, and no more than there are or fit the buffer. */
  function ReadSize(asked: nat, chunkSize: nat, rest: nat): (n: nat)
    requires 1 <= chunkSize && 1 <= rest
    ensures 1 <= n <= chunkSize && n <= rest
  {
    var most := if chunkSize < rest then chunkSize else rest;
    if asked == 0 then 1 else if asked < most then asked else most
  }

  /** The pieces in which the reads behind counter `n` give the content. */
  function Pieces(env: Surroundings, n: nat, chunkSize: nat, content: Bytes): (pieces: seq<Bytes>)
    requires 1 <= chunkSize
    ensures Splits(content, pieces)
    decreases |content|
  {
    if content == [] then []
    else
      var size := ReadSize(env.buffers(n + 1), chunkSize, |content|);
      var rest := Pieces(env, n + 1, chunkSize, content[size..]);
      assert content[..size] + content[size..] == content;
      [content[..size]] + rest
  }

  /** Reads that fill the buffer cut the content evenly. */
  lemma {:induction false} FullReadsCutEvenly(env: Surroundings, n: nat, chunkSize: nat, content: Bytes)
    requires 1 <= chunkSize && forall k: nat :: chunkSize <= env.buffers(k)
    ensures EvenlyCut(Pieces(env, n, chunkSize, content), chunkSize)
    decreases |content|
  {
    if content != [] {
      var size := ReadSize(env.buffers(n + 1), chunkSize, |content|);
      FullReadsCutEvenly(env, n + 1, chunkSize, content[size..]);
      if size == |content| {
        assert content[size..] == [];
      }
    }
  }

  /** One more read. */
  lemma {:induction false} NextPiece(env: Surroundings, n: nat, chunkSize: nat, content: Bytes, offset: nat)
    requires 1 <= chunkSize && offset < |content|
    ensures
      var size := ReadSize(env.buffers(n + 1), chunkSize, |content| - offset);
      Pieces(env, n, chunkSize, content[offset..])
      == [content[offset..offset + size]] + Pieces(env, n + 1, chunkSize, content[offset + size..])
  {
    var size := ReadSize(env.buffers(n + 1), chunkSize, |content| - offset);
    assert content[offset..][..size] == content[offset..offset + size];
    assert content[offset..][size..] == content[offset + size..];
  }

  /** Behind counter `from` the first `offset` bytes went out in these pieces, as these events. */
  ghost predicate InStream(env: Surroundings, from: nat, chunkSize: nat, path: Path, content: Bytes,
                           pieces: seq<Bytes>, offset: nat, told: seq<SyncEvent>)
    requires 1 <= chunkSize
  {
    && offset <= |content| && Splits(content[..offset], pieces) && told == ContentEvents(path, pieces, 0)
    && pieces + Pieces(env, from + |pieces|, chunkSize, content[offset..]) == Pieces(env, from, chunkSize, content)
  }

  lemma {:induction false} StreamBegins(env: Surroundings, from: nat, chunkSize: nat, path: Path, content: Bytes)
    requires 1 <= chunkSize
    ensures InStream(env, from, chunkSize, path, content, [], 0, [])
  {
    assert content[0..] == content;
  }

  lemma {:induction false} StreamGoesOn(env: Surroundings, from: nat, chunkSize: nat, path: Path, content: Bytes,
                                        pieces: seq<Bytes>, offset: nat, told: seq<SyncEvent>)
    requires 1 <= chunkSize && InStream(env, from, chunkSize, path, content, pieces, offset, told)
    requires offset < |content|
    ensures
      var n := ReadSize(env.buffers(from + |pieces| + 1), chunkSize, |content| - offset);
      var chunk := content[offset..offset + n];
      InStream(env, from, chunkSize, path, content, pieces + [chunk], offset + n,
               told + [FileContent(path, offset, chunk)])
  {
    var n := ReadSize(env.buffers(from + |pieces| + 1), chunkSize, |content| - offset);
    var chunk := content[offset..offset + n];
    var pieces', told' := pieces + [chunk], told + [FileContent(path, offset, chunk)];
    assert offset + n <= |content|;
    hide Pieces, ReadSize, Splits, ContentEvents;
    OneMorePiece(path, content, pieces, offset, n);
    PiecesGoOn(env, from, chunkSize, content, pieces, offset);
    assert from + |pieces'| == from + |pieces| + 1;
    assert Splits(content[..offset + n], pieces') && told' == ContentEvents(path, pieces', 0);
  }

  lemma {:induction false} PiecesGoOn(env: Surroundings, from: nat, chunkSize: nat, content: Bytes,
                                      pieces: seq<Bytes>, offset: nat)
    requires 1 <= chunkSize && offset < |content|
    ensures
      var n := ReadSize(env.buffers(from + |pieces| + 1), chunkSize, |content| - offset);
      pieces + Pieces(env, from + |pieces|, chunkSize, content[offset..])
      == (pieces + [content[offset..offset + n]])
         + Pieces(env, from + |pieces| + 1, chunkSize, content[offset + n..])
  {
    hide Pieces, ReadSize;
    var n := ReadSize(env.buffers(from + |pieces| + 1), chunkSize, |content| - offset);
    NextPiece(env, from + |pieces|, chunkSize, content, offset);
    MovesOver(pieces, content[offset..offset + n],
              Pieces(env, from + |pieces| + 1, chunkSize, content[offset + n..]));
  }

  lemma {:induction false} MovesOver(a: seq<Bytes>, x: Bytes, b: seq<Bytes>)
    ensures (a + [x]) + b == a + ([x] + b)
  {
  }

  lemma {:induction false} OneMorePiece(path: Path, content: Bytes, pieces: seq<Bytes>, offset: nat, n: nat)
    requires 0 < n && offset + n <= |content| && Splits(content[..offset], pieces)
    ensures Splits(content[..offset + n], pieces + [content[offset..offset + n]])
    ensures ContentEvents(path, pieces + [content[offset..offset + n]], 0)
         == ContentEvents(path, pieces, 0) + [FileContent(path, offset, content[offset..offset + n])]
  {
    var chunk := content[offset..offset + n];
    ConcatAppend(pieces, [chunk]);
    assert Concat([chunk]) == chunk;
    assert content[..offset] + chunk == content[..offset + n];
    ContentEventsAppend(path, pieces, [chunk], 0);
    assert ContentEvents(path, [chunk], offset) == [FileContent(path, offset, chunk)];
  }

  lemma {:induction false} StreamStops(env: Surroundings, from: nat, chunkSize: nat, path: Path, content: Bytes,
                                       pieces: seq<Bytes>, offset: nat, told: seq<SyncEvent>)
    requires 1 <= chunkSize && InStream(env, from, chunkSize, path, content, pieces, offset, told)
    ensures CutFrom(content, pieces) && pieces <= Pieces(env, from, chunkSize, content)
    ensures told == ContentEvents(path, pieces, 0)
    ensures offset == |content| ==>
      pieces == Pieces(env, from, chunkSize, content) && Splits(content, pieces) && Concat(pieces) == content
  {
    assert content[..|content|] == content;
    if offset == |content| {
      assert content[offset..] == [];
    }
  }

  // ---------------------------------------------------------------------------
  // As files
  // ---------------------------------------------------------------------------

  /** A directory, or a file in which the bytes were found that were hashed. */
  predicate Intact(item: Item) {
    if HasContent(item) then item.disk.found == Some(item.disk.content)
    else item.event.DirCreated? || item.event.Heartbeat?
  }

  /** Each item was sent to its end, in these pieces. */
  predicate SentWhole(items: seq<Item>, cuts: seq<seq<Bytes>>) {
    |cuts| == |items| && forall k :: 0 <= k < |items| ==> Splits(Reads(items[k]), cuts[k])
  }

  /** The first items were sent, the last of these perhaps only in part. */
  predicate SentUpTo(items: seq<Item>, cuts: seq<seq<Bytes>>) {
    && |cuts| <= |items|
    && (cuts != [] ==>
         var last := |cuts| - 1;
         SentWhole(items[..last], cuts[..last]) && CutFrom(Reads(items[last]), cuts[last]))
  }

  lemma {:induction false} OneMoreSent(items: seq<Item>, cuts: seq<seq<Bytes>>, pieces: seq<Bytes>)
    requires |cuts| < |items| && SentWhole(items[..|cuts|], cuts) && CutFrom(Reads(items[|cuts|]), pieces)
    ensures SentUpTo(items, cuts + [pieces])
    ensures Splits(Reads(items[|cuts|]), pieces) ==> SentWhole(items[..|cuts| + 1], cuts + [pieces])
  {
    assert (cuts + [pieces])[..|cuts|] == cuts;
  }

  /** The file that the item is, if it is one. */
  function FileOf(item: Item, pieces: seq<Bytes>): seq<Sent> {
    if HasContent(item)
    then [Sent(item.event.path, Version(item.event.FileCreated?, item.disk.content, pieces, |pieces|))]
    else []
  }

  function FilesOf(items: seq<Item>, cuts: seq<seq<Bytes>>): seq<Sent>
    requires |items| == |cuts|
  {
    if items == [] then [] else FileOf(items[0], cuts[0]) + FilesOf(items[1..], cuts[1..])
  }

  /**
   The version of which the pieces so far were sent; the rest of the content is one more piece. It is
   all of them if and only if nothing is left.
   */
  function Cut(created: bool, content: Bytes, pieces: seq<Bytes>): (v: Version)
    requires CutFrom(content, pieces)
    ensures IsStream(v) && v.content == content && v.created == created
    ensures v.taken <= |v.pieces| && v.pieces[..v.taken] == pieces
    ensures v.taken == |v.pieces| <==> Concat(pieces) == content
  {
    var done := Concat(pieces);
    var rest := content[|done|..];
    ConcatAppend(pieces, [rest]);
    assert content == done + rest;
    assert Concat([rest]) == rest;
    if done == content then
      assert content == [] ==> pieces == [] by { if content == [] { NothingLeft(pieces); } }
      Version(created, content, pieces, |pieces|)
    else Version(created, content, pieces + [rest], |pieces|)
  }

  /** If the reads give the first bytes of what was hashed, the events are a stream of it, or a cut one. */
  lemma {:induction false} ItemIsStream(h: Digest, item: Item, pieces: seq<Bytes>)
    requires HasContent(item) && CutFrom(Reads(item), pieces) && Reads(item) <= item.disk.content
    ensures CutFrom(item.disk.content, pieces)
    ensures ItemEvents(h, item, pieces)
         == StreamEvents(h, item.event.path, Cut(item.event.FileCreated?, item.disk.content, pieces))
  {
  }

  /**
   A created or modified file tells its stream, whatever hash and size the report had; every other report, and
   one whose file cannot be read, goes out as it stands, and a heartbeat is told to nobody.
   */
  lemma {:induction false} ItemTells(h: Digest, item: Item, pieces: seq<Bytes>)
    ensures
      match item.event
      case FileCreated(path, _, _) => FileTells(h, item, path, true, pieces)
      case FileModified(path, _, _) => FileTells(h, item, path, false, pieces)
      case Heartbeat(_) => ItemEvents(h, item, pieces) == []
      case _ => ItemEvents(h, item, pieces) == [item.event]
  {
  }

  predicate FileTells(h: Digest, item: Item, path: Path, created: bool, pieces: seq<Bytes>) {
    match item.disk
    case Unread => ItemEvents(h, item, pieces) == [item.event]
    case Hashed(content, found) =>
      && Reads(item) == found.GetOr([])
      && ItemEvents(h, item, pieces)
         == [if created then FileCreated(path, h(content), |content|) else FileModified(path, h(content), |content|)]
            + ContentEvents(path, pieces, 0)
  }

  lemma {:induction false} IntactIsStream(item: Item, pieces: seq<Bytes>)
    requires Intact(item) && Splits(Reads(item), pieces)
    ensures CompleteStreams(FileOf(item, pieces))
    ensures HasContent(item) ==>
      FileOf(item, pieces) == [Sent(item.event.path, Cut(item.event.FileCreated?, item.disk.content, pieces))]
  {
  }

  lemma {:induction false} OneMoreFile(item: Item, pieces: seq<Bytes>, rest: seq<Sent>)
    requires Intact(item) && Splits(Reads(item), pieces) && CompleteStreams(rest)
    ensures CompleteStreams(FileOf(item, pieces) + rest)
  {
    IntactIsStream(item, pieces);
  }

  /** An item that is no file touches no path. */
  lemma {:induction false} ItemSpellsFile(h: Digest, item: Item, pieces: seq<Bytes>, rest: seq<Sent>, p: Path)
    requires Intact(item) && Splits(Reads(item), pieces) && CompleteStreams(rest)
    ensures CompleteStreams(FileOf(item, pieces) + rest)
    ensures Touching(Flatten(h, FileOf(item, pieces) + rest), p)
         == Touching(ItemEvents(h, item, pieces), p) + Touching(Flatten(h, rest), p)
  {
    hide StreamEvents, Cut, IsStream;
    OneMoreFile(item, pieces, rest);
    IntactIsStream(item, pieces);
    var mine := FileOf(item, pieces);
    if HasContent(item) {
      ItemIsStream(h, item, pieces);
      assert (mine + rest)[0] == mine[0] && (mine + rest)[1..] == rest;
      TouchingAppend(ItemEvents(h, item, pieces), Flatten(h, rest), p);
    } else {
      assert mine + rest == rest;
      assert Touching([item.event], p) == [];
    }
  }

  /** Items that are intact tell the peer of their files, streamed one after the other. */
  lemma {:induction false} IntactItemsSpellFiles(h: Digest, items: seq<Item>, cuts: seq<seq<Bytes>>)
    requires SentWhole(items, cuts) && forall k :: 0 <= k < |items| ==> Intact(items[k])
    ensures CompleteStreams(FilesOf(items, cuts))
    ensures SpellsFiles(h, ScanEvents(h, items, cuts), FilesOf(items, cuts))
    decreases |items|
  {
    hide Touching, Intact, Splits, Reads, ItemEvents, Flatten, FileOf, CompleteStreams;
    if items != [] {
      assert forall k :: 0 <= k < |items[1..]| ==> items[1..][k] == items[k + 1] && cuts[1..][k] == cuts[k + 1];
      IntactItemsSpellFiles(h, items[1..], cuts[1..]);
      var rest := FilesOf(items[1..], cuts[1..]);
      assert Intact(items[0]) && Splits(Reads(items[0]), cuts[0]);
      OneMoreFile(items[0], cuts[0], rest);
      forall p: Path
        ensures Touching(ScanEvents(h, items, cuts), p) == Touching(Flatten(h, FilesOf(items, cuts)), p)
      {
        TouchingAppend(ItemEvents(h, items[0], cuts[0]), ScanEvents(h, items[1..], cuts[1..]), p);
        ItemSpellsFile(h, items[0], cuts[0], rest, p);
        assert Touching(ScanEvents(h, items[1..], cuts[1..]), p) == Touching(Flatten(h, rest), p);
      }
    } else {
      NoFiles(h);
    }
  }

  lemma {:induction false} NoFiles(h: Digest)
    ensures CompleteStreams([]) && Flatten(h, []) == []
  {
  }
}
