/** Cutting file content into content events. */
module Chunker {
  import opened ByteStrings
  import opened Events

  const DEFAULT_CHUNK_SIZE := 4 * 1024 * 1024

  /** All pieces but the last have `size` bytes, and the last has between 1 and `size`. */
  predicate EvenlyCut(pieces: seq<Bytes>, size: nat) {
    forall k :: 0 <= k < |pieces| ==>
      1 <= |pieces[k]| <= size && (k < |pieces| - 1 ==> |pieces[k]| == size)
  }

  /** An even cut is determined by the content and the chunk size. */
  lemma {:induction false} EvenCutIsUnique(a: seq<Bytes>, b: seq<Bytes>, size: nat)
    requires EvenlyCut(a, size) && EvenlyCut(b, size) && Concat(a) == Concat(b)
    ensures a == b
  {
    ConcatIsLonger(a);
    ConcatIsLonger(b);
    if a != [] && b != [] {
      FirstPiece(a, size);
      FirstPiece(b, size);
      assert |a[0]| == |b[0]|;
      assert a[0] == Concat(a)[..|a[0]|] && b[0] == Concat(b)[..|b[0]|];
      assert Concat(a[1..]) == Concat(a)[|a[0]|..] && Concat(b[1..]) == Concat(b)[|b[0]|..];
      EvenCutIsUnique(a[1..], b[1..], size);
      assert a == [a[0]] + a[1..] && b == [b[0]] + b[1..];
    }
  }

  lemma {:induction false} FirstPiece(pieces: seq<Bytes>, size: nat)
    requires EvenlyCut(pieces, size) && pieces != []
    ensures |pieces[0]| == if |Concat(pieces)| < size then |Concat(pieces)| else size
  {
    if |pieces| > 1 {
      assert |Concat(pieces)| >= |pieces[0]| + |pieces[1]|;
    } else {
      assert pieces[1..] == [];
    }
  }

  /**
   The content events of a file: consecutive pieces of `chunkSize` bytes that add up to the
   data, and for empty data a single empty piece.
   */
  method ChunkData(path: Path, data: Bytes, chunkSize: nat)
      returns (events: seq<SyncEvent>, ghost pieces: seq<Bytes>)
    requires 1 <= chunkSize
    ensures events == ContentEvents(path, pieces, 0)
    ensures Concat(pieces) == data && events != []
    ensures data != [] ==> Splits(data, pieces) && EvenlyCut(pieces, chunkSize)
    ensures data == [] ==> events == [FileContent(path, 0, [])]
  {
    events, pieces := [], [];
    var offset := 0;
    while offset < |data|
      invariant 0 <= offset <= |data| && Concat(pieces) == data[..offset]
      invariant events == ContentEvents(path, pieces, 0)
      invariant EvenlyCut(pieces, chunkSize)
      invariant pieces != [] && |pieces[|pieces| - 1]| < chunkSize ==> offset == |data|
    {
      var n := if offset + chunkSize < |data| then chunkSize else |data| - offset;
      var chunk := data[offset..offset + n];
      events := events + [FileContent(path, offset, chunk)];
      ContentEventsAppend(path, pieces, [chunk], 0);
      ConcatAppend(pieces, [chunk]);
      assert Concat([chunk]) == chunk;
      assert data[..offset] + chunk == data[..offset + n];
      pieces := pieces + [chunk];
      offset := offset + n;
    }
    if events == [] {
      events := [FileContent(path, 0, [])];
      pieces := [[]];
    }
  }
}
