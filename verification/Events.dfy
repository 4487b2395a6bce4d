/** The events the two instances exchange, and the paths and hashes in them. */
module Events {
  import opened ByteStrings
  import opened RingModel

  /** A relative path as its components, which are plain names. */
  type Path = p: seq<string> | p != [] witness ["x"]

  /** A content digest; the digest function itself is a parameter of the model. */
  type Hash = Bytes
  type Digest = Bytes -> Hash

  datatype Option<+T> = None | Some(value: T) {
    function GetOr(default: T): T {
      match this
      case Some(v) => v
      case None => default
    }
  }

  function Lookup<V>(m: map<Path, V>, p: Path): Option<V> {
    if p in m then Some(m[p]) else None
  }

  datatype SyncEvent =
    | FileCreated(path: Path, hash: Hash, size: nat)
    | FileModified(path: Path, hash: Hash, size: nat)
    | FileDeleted(path: Path)
    | DirCreated(path: Path)
    | DirDeleted(path: Path)
    | FileContent(path: Path, offset: nat, data: Bytes)
    | Heartbeat(timestamp: int)

  /** An event with its sender, the sender's counter and the sender's clock. */
  datatype Envelope = Envelope(instance: Id, seqNum: nat, timestamp: int, event: SyncEvent)

  predicate IsMetadata(e: SyncEvent) {
    e.FileCreated? || e.FileModified?
  }

  // ---------------------------------------------------------------------------
  // Content in pieces
  // ---------------------------------------------------------------------------

  function Concat(pieces: seq<Bytes>): Bytes {
    if pieces == [] then [] else pieces[0] + Concat(pieces[1..])
  }

  lemma {:induction false} ConcatAppend(a: seq<Bytes>, b: seq<Bytes>)
    ensures Concat(a + b) == Concat(a) + Concat(b)
  {
    if a == [] {
      assert a + b == b;
    } else {
      assert (a + b)[0] == a[0] && (a + b)[1..] == a[1..] + b;
      ConcatAppend(a[1..], b);
    }
  }

  lemma {:induction false} ConcatIsLonger(pieces: seq<Bytes>)
    requires forall k :: 0 <= k < |pieces| ==> pieces[k] != []
    ensures |pieces| <= |Concat(pieces)|
  {
    if pieces != [] {
      ConcatIsLonger(pieces[1..]);
    }
  }

  /** The pieces as content events, the first of them at `offset`. */
  function ContentEvents(path: Path, pieces: seq<Bytes>, offset: nat): (events: seq<SyncEvent>)
    ensures |events| == |pieces|
  {
    if pieces == [] then []
    else [FileContent(path, offset, pieces[0])] + ContentEvents(path, pieces[1..], offset + |pieces[0]|)
  }

  lemma {:induction false} ContentEventsAppend(path: Path, a: seq<Bytes>, b: seq<Bytes>, offset: nat)
    ensures ContentEvents(path, a + b, offset)
         == ContentEvents(path, a, offset) + ContentEvents(path, b, offset + |Concat(a)|)
  {
    if a == [] {
      assert a + b == b;
    } else {
      assert (a + b)[0] == a[0] && (a + b)[1..] == a[1..] + b;
      ContentEventsAppend(path, a[1..], b, offset + |a[0]|);
    }
  }

  /** In-order pieces, none of them empty, that make up `content`. */
  predicate Splits(content: Bytes, pieces: seq<Bytes>) {
    Concat(pieces) == content && forall k :: 0 <= k < |pieces| ==> pieces[k] != []
  }
}
