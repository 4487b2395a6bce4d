/**
 One serialisation of envelopes: self-delimiting numbers, texts and blobs one after the other. It
 stands for any lossless format, and shows that frames of bounded size and no loss go together.
 */
module WireFormat {
  import opened ByteStrings
  import opened RingModel
  import opened Events
  import opened SyncModel

  // ---------------------------------------------------------------------------
  // Numbers
  // ---------------------------------------------------------------------------

  /** Seven bits a byte, least significant first; every byte but the last has its high bit set. */
  function PutNat(n: nat, rest: Bytes): Bytes {
    if n < 0x80 then [n] + rest else [0x80 + n % 0x80] + PutNat(n / 0x80, rest)
  }

  function GetNat(b: Bytes): (r: Option<(nat, Bytes)>)
    ensures r.Some? ==> |r.value.1| < |b|
    decreases |b|
  {
    if b == [] then None
    else if b[0] < 0x80 then Some((b[0], b[1..]))
    else
      match GetNat(b[1..])
      case None => None
      case Some((high, rest)) => Some((b[0] - 0x80 + 0x80 * high, rest))
  }

  lemma {:induction false} NatRoundTrip(n: nat, rest: Bytes)
    ensures GetNat(PutNat(n, rest)) == Some((n, rest))
  {
    var b := PutNat(n, rest);
    if n < 0x80 {
      assert b[1..] == rest;
    } else {
      NatRoundTrip(n / 0x80, rest);
      assert b[1..] == PutNat(n / 0x80, rest);
    }
  }

  /** The numbers that fit into `k` bytes. */
  function Limit(k: nat): nat {
    if k == 0 then 1 else 0x80 * Limit(k - 1)
  }

  lemma {:induction false} NatSize(n: nat, k: nat, rest: Bytes)
    requires 0 < k && n < Limit(k)
    ensures |rest| < |PutNat(n, rest)| <= |rest| + k
    decreases k
  {
    assert Limit(1) == 0x80;
    if 0x80 <= n {
      NatSize(n / 0x80, k - 1, rest);
    }
  }

  lemma {:induction false} SixtyFourBits()
    ensures U64_LIMIT <= Limit(10)
  {
    assert Limit(2) == 0x4000;
    assert Limit(4) == 0x1000_0000;
    assert Limit(6) == 0x400_0000_0000;
    assert Limit(8) == 0x100_0000_0000_0000;
    assert Limit(10) == 0x40_0000_0000_0000_0000;
  }

  /** Positive numbers become even, negative ones odd. */
  function Zigzag(t: int): nat {
    if 0 <= t then 2 * t else -2 * t - 1
  }

  function Unzigzag(n: nat): int {
    if n % 2 == 0 then n / 2 else -(n / 2) - 1
  }

  lemma {:induction false} ZigzagRoundTrip(t: int)
    ensures Unzigzag(Zigzag(t)) == t
  {
  }

  // ---------------------------------------------------------------------------
  // Blobs, texts, paths
  // ---------------------------------------------------------------------------

  function PutBlob(data: Bytes, rest: Bytes): Bytes {
    PutNat(|data|, data + rest)
  }

  function GetBlob(b: Bytes): Option<(Bytes, Bytes)> {
    match GetNat(b)
    case None => None
    case Some((n, rest)) => if |rest| < n then None else Some((rest[..n], rest[n..]))
  }

  lemma {:induction false} BlobRoundTrip(data: Bytes, rest: Bytes)
    ensures GetBlob(PutBlob(data, rest)) == Some((data, rest))
  {
    NatRoundTrip(|data|, data + rest);
    assert (data + rest)[..|data|] == data && (data + rest)[|data|..] == rest;
  }

  function PutChars(s: string, rest: Bytes): Bytes {
    if s == "" then rest else PutNat(s[0] as int, PutChars(s[1..], rest))
  }

  predicate IsChar(n: nat) {
    n < 0xD800 || 0xE000 <= n < 0x11_0000
  }

  function GetChars(n: nat, b: Bytes): Option<(string, Bytes)> {
    if n == 0 then Some(("", b))
    else
      match GetNat(b)
      case None => None
      case Some((c, rest)) =>
        if !IsChar(c) then None
        else
          match GetChars(n - 1, rest)
          case None => None
          case Some((s, last)) => Some(([c as char] + s, last))
  }

  lemma {:induction false} CharsRoundTrip(s: string, rest: Bytes)
    ensures GetChars(|s|, PutChars(s, rest)) == Some((s, rest))
  {
    if s != "" {
      NatRoundTrip(s[0] as int, PutChars(s[1..], rest));
      CharsRoundTrip(s[1..], rest);
      assert [s[0]] + s[1..] == s;
    }
  }

  function PutNames(p: seq<string>, rest: Bytes): Bytes {
    if p == [] then rest else PutNat(|p[0]|, PutChars(p[0], PutNames(p[1..], rest)))
  }

  function GetNames(n: nat, b: Bytes): (r: Option<(seq<string>, Bytes)>)
    ensures r.Some? ==> |r.value.0| == n
  {
    if n == 0 then Some(([], b))
    else
      match GetNat(b)
      case None => None
      case Some((size, chars)) =>
        match GetChars(size, chars)
        case None => None
        case Some((name, rest)) =>
          match GetNames(n - 1, rest)
          case None => None
          case Some((names, last)) => Some(([name] + names, last))
  }

  lemma {:induction false} NamesRoundTrip(p: seq<string>, rest: Bytes)
    ensures GetNames(|p|, PutNames(p, rest)) == Some((p, rest))
  {
    if p != [] {
      NatRoundTrip(|p[0]|, PutChars(p[0], PutNames(p[1..], rest)));
      CharsRoundTrip(p[0], PutNames(p[1..], rest));
      NamesRoundTrip(p[1..], rest);
      assert [p[0]] + p[1..] == p;
    }
  }

  function PutPath(p: Path, rest: Bytes): Bytes {
    PutNat(|p|, PutNames(p, rest))
  }

  function GetPath(b: Bytes): Option<(Path, Bytes)> {
    match GetNat(b)
    case None => None
    case Some((n, names)) =>
      if n == 0 then None
      else
        match GetNames(n, names)
        case None => None
        case Some((p, rest)) => Some((p, rest))
  }

  lemma {:induction false} PathRoundTrip(p: Path, rest: Bytes)
    ensures GetPath(PutPath(p, rest)) == Some((p, rest))
  {
    NatRoundTrip(|p|, PutNames(p, rest));
    NamesRoundTrip(p, rest);
  }

  // ---------------------------------------------------------------------------
  // Events and envelopes
  // ---------------------------------------------------------------------------

  function PutEvent(e: SyncEvent): Bytes {
    match e
    case FileCreated(path, hash, size) => [0] + PutPath(path, PutBlob(hash, PutNat(size, [])))
    case FileModified(path, hash, size) => [1] + PutPath(path, PutBlob(hash, PutNat(size, [])))
    case FileDeleted(path) => [2] + PutPath(path, [])
    case DirCreated(path) => [3] + PutPath(path, [])
    case DirDeleted(path) => [4] + PutPath(path, [])
    case FileContent(path, offset, data) => [5] + PutPath(path, PutNat(offset, PutBlob(data, [])))
    case Heartbeat(timestamp) => [6] + PutNat(Zigzag(timestamp), [])
  }

  /** Path, digest and size, behind the tag of a created or modified file. */
  function GetMetadata(b: Bytes, created: bool): Option<SyncEvent> {
    match GetPath(b)
    case None => None
    case Some((path, b1)) =>
      match GetBlob(b1)
      case None => None
      case Some((hash, b2)) =>
        match GetNat(b2)
        case None => None
        case Some((size, _)) => Some(if created then FileCreated(path, hash, size) else FileModified(path, hash, size))
  }

  function GetContent(b: Bytes): Option<SyncEvent> {
    match GetPath(b)
    case None => None
    case Some((path, b1)) =>
      match GetNat(b1)
      case None => None
      case Some((offset, b2)) =>
        match GetBlob(b2)
        case None => None
        case Some((data, _)) => Some(FileContent(path, offset, data))
  }

  function GetEvent(b: Bytes): Option<SyncEvent> {
    if b == [] then None
    else if b[0] == 0 || b[0] == 1 then GetMetadata(b[1..], b[0] == 0)
    else if b[0] == 5 then GetContent(b[1..])
    else if b[0] == 6 then
      match GetNat(b[1..])
      case None => None
      case Some((n, _)) => Some(Heartbeat(Unzigzag(n)))
    else
      match GetPath(b[1..])
      case None => None
      case Some((path, _)) =>
        if b[0] == 2 then Some(FileDeleted(path))
        else if b[0] == 3 then Some(DirCreated(path))
        else if b[0] == 4 then Some(DirDeleted(path))
        else None
  }

  lemma {:induction false} EventRoundTrip(e: SyncEvent)
    ensures GetEvent(PutEvent(e)) == Some(e)
  {
    hide GetPath, PutPath, GetBlob, PutBlob, GetNat, PutNat, Zigzag, Unzigzag;
    var b := PutEvent(e);
    match e
    case FileCreated(path, hash, size) =>
      assert b[1..] == PutPath(path, PutBlob(hash, PutNat(size, [])));
      PathRoundTrip(path, PutBlob(hash, PutNat(size, [])));
      BlobRoundTrip(hash, PutNat(size, []));
      NatRoundTrip(size, []);
    case FileModified(path, hash, size) =>
      assert b[1..] == PutPath(path, PutBlob(hash, PutNat(size, [])));
      PathRoundTrip(path, PutBlob(hash, PutNat(size, [])));
      BlobRoundTrip(hash, PutNat(size, []));
      NatRoundTrip(size, []);
    case FileContent(path, offset, data) =>
      assert b[1..] == PutPath(path, PutNat(offset, PutBlob(data, [])));
      PathRoundTrip(path, PutNat(offset, PutBlob(data, [])));
      NatRoundTrip(offset, PutBlob(data, []));
      BlobRoundTrip(data, []);
    case Heartbeat(timestamp) =>
      assert b[1..] == PutNat(Zigzag(timestamp), []);
      NatRoundTrip(Zigzag(timestamp), []);
      ZigzagRoundTrip(timestamp);
    case _ =>
      assert b[1..] == PutPath(e.path, []);
      PathRoundTrip(e.path, []);
  }

  function Encode(e: Envelope): Bytes {
    [e.instance] + PutNat(e.seqNum, PutNat(Zigzag(e.timestamp), PutEvent(e.event)))
  }

  function Decode(b: Bytes): Option<Envelope> {
    if b == [] || 1 < b[0] then None
    else
      match GetNat(b[1..])
      case None => None
      case Some((seqNum, b1)) =>
        match GetNat(b1)
        case None => None
        case Some((t, b2)) =>
          match GetEvent(b2)
          case None => None
          case Some(event) => Some(Envelope(b[0], seqNum, Unzigzag(t), event))
  }

  function Format(): Codec {
    Codec(Encode, Decode)
  }

  /** Nothing is lost. */
  lemma {:induction false} FormatIsLossless()
    ensures Lossless(Format())
  {
    hide GetNat, PutNat, GetEvent, PutEvent, Zigzag, Unzigzag;
    forall e: Envelope ensures Format().decode(Format().encode(e)) == Some(e) {
      var tail := PutNat(Zigzag(e.timestamp), PutEvent(e.event));
      assert Encode(e)[1..] == PutNat(e.seqNum, tail);
      NatRoundTrip(e.seqNum, tail);
      NatRoundTrip(Zigzag(e.timestamp), PutEvent(e.event));
      ZigzagRoundTrip(e.timestamp);
      EventRoundTrip(e.event);
    }
  }

  // ---------------------------------------------------------------------------
  // Sizes
  // ---------------------------------------------------------------------------

  lemma {:induction false} NatIsAdditive(n: nat, rest: Bytes)
    ensures |PutNat(n, rest)| == |PutNat(n, [])| + |rest|
  {
    if 0x80 <= n {
      NatIsAdditive(n / 0x80, rest);
    }
  }

  lemma {:induction false} CharsAreAdditive(s: string, rest: Bytes)
    ensures |PutChars(s, rest)| == |PutChars(s, [])| + |rest|
  {
    if s != "" {
      CharsAreAdditive(s[1..], rest);
      NatIsAdditive(s[0] as int, PutChars(s[1..], rest));
      NatIsAdditive(s[0] as int, PutChars(s[1..], []));
    }
  }

  lemma {:induction false} NamesAreAdditive(p: seq<string>, rest: Bytes)
    ensures |PutNames(p, rest)| == |PutNames(p, [])| + |rest|
  {
    if p != [] {
      NamesAreAdditive(p[1..], rest);
      CharsAreAdditive(p[0], PutNames(p[1..], rest));
      CharsAreAdditive(p[0], PutNames(p[1..], []));
      NatIsAdditive(|p[0]|, PutChars(p[0], PutNames(p[1..], rest)));
      NatIsAdditive(|p[0]|, PutChars(p[0], PutNames(p[1..], [])));
    }
  }

  lemma {:induction false} PathIsAdditive(p: Path, rest: Bytes)
    ensures |PutPath(p, rest)| == |PutPath(p, [])| + |rest|
  {
    NamesAreAdditive(p, rest);
    NatIsAdditive(|p|, PutNames(p, rest));
    NatIsAdditive(|p|, PutNames(p, []));
  }

  /** Counter, time and instance take at most 21 bytes. */
  lemma {:induction false} EnvelopeSize(id: Id, n: u64, t: i64, e: SyncEvent)
    ensures |Encode(Envelope(id, n, t, e))| <= 21 + |PutEvent(e)|
  {
    SixtyFourBits();
    NatSize(n, 10, PutNat(Zigzag(t), PutEvent(e)));
    NatSize(Zigzag(t), 10, PutEvent(e));
  }

  /** A content event takes its data, its path, and at most 21 bytes more. */
  lemma {:induction false} ContentSize(path: Path, offset: u64, data: Bytes)
    requires |data| < U64_LIMIT
    ensures |PutEvent(FileContent(path, offset, data))| <= |PutPath(path, [])| + |data| + 21
  {
    SixtyFourBits();
    PathIsAdditive(path, PutNat(offset, PutBlob(data, [])));
    NatSize(offset, 10, PutBlob(data, []));
    NatSize(|data|, 10, data + []);
  }

  lemma {:induction false} MetadataSize(created: bool, path: Path, hash: Hash, size: u64)
    requires |hash| < U64_LIMIT
    ensures
      var e := if created then FileCreated(path, hash, size) else FileModified(path, hash, size);
      |PutEvent(e)| <= |PutPath(path, [])| + |hash| + 21
  {
    SixtyFourBits();
    PathIsAdditive(path, PutBlob(hash, PutNat(size, [])));
    NatSize(|hash|, 10, hash + PutNat(size, []));
    NatSize(size, 10, []);
  }
}
