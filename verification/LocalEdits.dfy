/** Remote events mixed with local edits: baselines, conflicts, and keeping both versions. */
module LocalEdits {
  import opened ByteStrings
  import opened CopyNames
  import opened Events
  import opened ApplyModel
  import opened ApplyProofs
  import opened Transfers

  datatype Happening =
    | Remote(delivery: Delivery)
    | LocalWrite(path: Path, content: Bytes)
    | LocalDelete(path: Path)

  function Happen(h: Digest, strategy: ConflictStrategy, a: Applier, x: Happening): Applier {
    match x
    case Remote(d) => Deliver(h, strategy, a, d)
    case LocalWrite(p, content) => a.(files := a.files[p := content])
    case LocalDelete(p) => a.(files := a.files - {p})
  }

  /** A new applier over a directory with some files. */
  function Fresh(files: map<Path, Bytes>): Applier {
    Applier(files, map[], map[], map[], {})
  }

  function HappenAll(h: Digest, strategy: ConflictStrategy, a: Applier, xs: seq<Happening>): Applier
    decreases |xs|
  {
    if xs == [] then a else HappenAll(h, strategy, Happen(h, strategy, a, xs[0]), xs[1..])
  }

  // ---------------------------------------------------------------------------
  // Which paths were edited since their baseline was set
  // ---------------------------------------------------------------------------

  /** The event forgets the path, or writes its target and records that as the baseline. */
  predicate Rebases(h: Digest, s: Slot, e: SyncEvent) {
    match e
    case FileCreated(_, _, size) => size == 0
    case FileModified(_, _, size) => size == 0
    case FileDeleted(_) => true
    case DirDeleted(_) => true
    case FileContent(_, _, _) => !s.blocked && (s.pending.None? || StepClean(h, s, e).pending.None?)
    case DirCreated(_) => false
    case Heartbeat(_) => false
  }

  predicate InConflict(h: Digest, strategy: ConflictStrategy, a: Applier, d: Delivery) {
    IsMetadata(d.event)
    && Conflicts(h, strategy, Get(a, d.event.path), d.event.hash, d.remoteTime, d.localTime)
  }

  /** The edited paths: written locally, or target of a keep-both rename, and not rebased since. */
  function EditedAfter(h: Digest, strategy: ConflictStrategy, a: Applier, edited: set<Path>, x: Happening): set<Path> {
    match x
    case LocalWrite(p, _) => edited + {p}
    case LocalDelete(_) => edited
    case Remote(d) =>
      if !InConflict(h, strategy, a, d) then
        set p | p in edited && !(Touches(d.event, p) && Rebases(h, Get(a, p), Seen(d.event, p)))
      else if strategy == LastWriteWins then edited
      else edited - {d.event.path} + {CopyPath(a.files.Keys, d.event.path)}
  }

  function EditedAfterAll(h: Digest, strategy: ConflictStrategy, a: Applier, edited: set<Path>,
      xs: seq<Happening>): set<Path>
    decreases |xs|
  {
    if xs == [] then edited
    else EditedAfterAll(h, strategy, Happen(h, strategy, a, xs[0]), EditedAfter(h, strategy, a, edited, xs[0]), xs[1..])
  }

  lemma {:induction false} RebaseCleans(h: Digest, s: Slot, e: SyncEvent)
    requires Rebases(h, s, e)
    ensures Clean(h, StepClean(h, s, e))
  {
  }

  lemma {:induction false} HappenKeepsAgreement(h: Digest, strategy: ConflictStrategy, a: Applier,
      edited: set<Path>, x: Happening, p: Path)
    requires forall q: Path :: q !in edited ==> Clean(h, Get(a, q))
    requires p !in EditedAfter(h, strategy, a, edited, x)
    ensures Clean(h, Get(Happen(h, strategy, a, x), p))
  {
    hide Clean, StepClean, Conflicts, CopyPath;
    match x
    case LocalWrite(_, _) =>
    case LocalDelete(q) =>
      assert Clean(h, Get(a, p)) || p in edited;
      DeletedIsClean(h, a, q, p);
    case Remote(d) =>
      var copy := if IsMetadata(d.event) then CopyPath(a.files.Keys, d.event.path) else ["x"];
      if !InConflict(h, strategy, a, d) {
        ApplyIsLocal(h, strategy, a, d.event, d.remoteTime, d.localTime, copy, p);
        if p in edited {
          RebaseCleans(h, Get(a, p), Seen(d.event, p));
        } else {
          StepStaysClean(h, Get(a, p), Seen(d.event, p));
        }
      } else {
        CopyPathDiffers(a.files.Keys, d.event.path);
        ConflictStaysClean(h, strategy, a, d, copy, p);
      }
  }

  lemma {:induction false} DeletedIsClean(h: Digest, a: Applier, q: Path, p: Path)
    requires Clean(h, Get(a, p))
    ensures Clean(h, Get(a.(files := a.files - {q}), p))
  {
  }

  lemma {:induction false} ConflictStaysClean(h: Digest, strategy: ConflictStrategy, a: Applier, d: Delivery,
      copy: Path, p: Path)
    requires InConflict(h, strategy, a, d)
    requires Clean(h, Get(a, p)) || (strategy == KeepBoth && p == d.event.path)
    requires strategy == KeepBoth ==> p != copy && copy != d.event.path
    ensures Clean(h, Get(Apply(h, strategy, a, d.event, d.remoteTime, d.localTime, copy), p))
  {
  }

  /**
   Baseline agreement: whatever remote events and local edits happened, a path that was not
   edited since its baseline was set is absent or has exactly the content of its baseline, so
   a conflict is only ever reported for an edited path.
   */
  lemma {:induction false} BaselineAgreement(h: Digest, strategy: ConflictStrategy, a: Applier, edited: set<Path>,
                                             xs: seq<Happening>, p: Path)
    requires forall q: Path :: q !in edited ==> Clean(h, Get(a, q))
    requires p !in EditedAfterAll(h, strategy, a, edited, xs)
    ensures Clean(h, Get(HappenAll(h, strategy, a, xs), p))
    ensures forall e, remoteTime, localTime :: IsMetadata(e) && e.path == p ==>
      Report(h, strategy, HappenAll(h, strategy, a, xs), e, remoteTime, localTime) == None
    decreases |xs|
  {
    hide Happen, EditedAfter, Clean, Get;
    if xs == [] {
      assert Clean(h, Get(a, p));
      forall e, remoteTime, localTime | IsMetadata(e) && e.path == p
        ensures Report(h, strategy, a, e, remoteTime, localTime) == None
      {
        CleanNeverConflicts(h, strategy, Get(a, p), e.hash, remoteTime, localTime);
      }
    } else {
      var a', edited' := Happen(h, strategy, a, xs[0]), EditedAfter(h, strategy, a, edited, xs[0]);
      forall q: Path | q !in edited' ensures Clean(h, Get(a', q)) {
        HappenKeepsAgreement(h, strategy, a, edited, xs[0], q);
      }
      BaselineAgreement(h, strategy, a', edited', xs[1..], p);
    }
  }

  /** A new applier starts in agreement: nothing counts as edited. */
  lemma {:induction false} FreshIsClean(h: Digest, files: map<Path, Bytes>, p: Path)
    ensures Clean(h, Get(Fresh(files), p))
  {
  }

  // ---------------------------------------------------------------------------
  // Keeping both versions
  // ---------------------------------------------------------------------------

  /** A local edit of a file, then a remote version of it arriving in full. */
  datatype Round = Round(local: Bytes, remote: Version, remoteTime: int, localTime: int)

  function Deliveries(es: seq<SyncEvent>, remoteTime: int, localTime: int): seq<Delivery> {
    if es == [] then [] else [Delivery(es[0], remoteTime, localTime)] + Deliveries(es[1..], remoteTime, localTime)
  }

  /** Every local edit differs from what was agreed on last and from the version that arrives. */
  predicate AllConflict(h: Digest, base: Hash, rounds: seq<Round>)
    decreases |rounds|
  {
    rounds != [] ==>
      && IsStream(rounds[0].remote) && Complete(rounds[0].remote)
      && rounds[0].remote.taken == |rounds[0].remote.pieces|
      && h(rounds[0].local) != base && h(rounds[0].local) != h(rounds[0].remote.content)
      && AllConflict(h, h(rounds[0].remote.content), rounds[1..])
  }

  function Play(h: Digest, a: Applier, p: Path, round: Round): Applier
    requires IsStream(round.remote)
  {
    RunAll(h, KeepBoth, Happen(h, KeepBoth, a, LocalWrite(p, round.local)),
           Deliveries(StreamEvents(h, p, round.remote), round.remoteTime, round.localTime))
  }

  function PlayAll(h: Digest, a: Applier, p: Path, base: Hash, rounds: seq<Round>): Applier
    requires AllConflict(h, base, rounds)
    decreases |rounds|
  {
    if rounds == [] then a
    else PlayAll(h, Play(h, a, p, rounds[0]), p, h(rounds[0].remote.content), rounds[1..])
  }

  /** Content events of one path only step that path's slot. */
  lemma {:induction false} RunContents(h: Digest, strategy: ConflictStrategy, a: Applier, p: Path, pieces: seq<Bytes>,
                                       offset: nat, remoteTime: int, localTime: int, q: Path)
    ensures
      var es := ContentEvents(p, pieces, offset);
      Get(RunAll(h, strategy, a, Deliveries(es, remoteTime, localTime)), q)
      == if q == p then RunSlot(h, Get(a, p), es) else Get(a, q)
    decreases |pieces|
  {
    hide StepClean, Get;
    if pieces != [] {
      var es := ContentEvents(p, pieces, offset);
      var e, rest := FileContent(p, offset, pieces[0]), ContentEvents(p, pieces[1..], offset + |pieces[0]|);
      assert es[0] == e && es[1..] == rest;
      var ds := Deliveries(es, remoteTime, localTime);
      assert ds[0] == Delivery(e, remoteTime, localTime) && ds[1..] == Deliveries(rest, remoteTime, localTime);
      var a' := Deliver(h, strategy, a, ds[0]);
      GetPut(a, p, StepClean(h, Get(a, p), e), q);
      GetPut(a, p, StepClean(h, Get(a, p), e), p);
      RunContents(h, strategy, a', p, pieces[1..], offset + |pieces[0]|, remoteTime, localTime, q);
    }
  }

  lemma {:induction false} MovedSlots(a: Applier, p: Path, copy: Path, q: Path)
    requires p in a.files && copy != p
    ensures Get(MoveAside(a, p, copy), q)
         == if q == p then Get(a, p).(file := None)
            else if q == copy then Get(a, q).(file := Some(a.files[p]))
            else Get(a, q)
  {
  }

  /** What a conflicting announcement does under keep-both, seen path by path. */
  lemma {:induction false} KeepBothMoves(h: Digest, a: Applier, d: Delivery, q: Path)
    requires InConflict(h, KeepBoth, a, d)
    ensures
      var p, copy := d.event.path, CopyPath(a.files.Keys, d.event.path);
      var s' := Get(Deliver(h, KeepBoth, a, d), q);
      s' == if q == p then StepClean(h, Get(a, p).(file := None), d.event)
            else if q == copy then Get(a, q).(file := Some(a.files[p]))
            else Get(a, q)
  {
    hide StepClean, Get, Put, MoveAside, CopyPath;
    var p, copy := d.event.path, CopyPath(a.files.Keys, d.event.path);
    CopyPathDiffers(a.files.Keys, p);
    ConflictHasFile(h, KeepBoth, a, d);
    var moved := MoveAside(a, p, copy);
    MovedSlots(a, p, copy, q);
    MovedSlots(a, p, copy, p);
    GetPut(moved, p, StepClean(h, Get(moved, p), d.event), q);
  }

  lemma {:induction false} ConflictHasFile(h: Digest, strategy: ConflictStrategy, a: Applier, d: Delivery)
    requires InConflict(h, strategy, a, d)
    ensures d.event.path in a.files
  {
  }

  /** One round: the local version ends up at the next copy name, the remote one at the path. */
  lemma {:induction false} OneRound(h: Digest, a: Applier, p: Path, base: Hash, round: Round, q: Path)
    requires AllConflict(h, base, [round]) && p in a.synced && a.synced[p].hash == base
    ensures
      var a', copy := Play(h, a, p, round), CopyPath(a.files.Keys + {p}, p);
      && (q == p ==> q in a'.files && a'.files[q] == round.remote.content
                     && q in a'.synced && a'.synced[q].hash == h(round.remote.content))
      && (q == copy ==> q in a'.files && a'.files[q] == round.local)
      && (q != p && q != copy ==> Lookup(a'.files, q) == Lookup(a.files, q))
  {
    hide StepClean, CopyPath, Deliver, RunSlot, InConflict;
    var a1 := Happen(h, KeepBoth, a, LocalWrite(p, round.local));
    assert a1.files.Keys == a.files.Keys + {p};
    var v := round.remote;
    var e, es := Announce(h, p, v), ContentEvents(p, v.pieces, 0);
    assert v.pieces[..v.taken] == v.pieces;
    var d := Delivery(e, round.remoteTime, round.localTime);
    var ds := Deliveries([e] + es, round.remoteTime, round.localTime);
    assert ([e] + es)[0] == e && ([e] + es)[1..] == es;
    assert ds[0] == d && ds[1..] == Deliveries(es, round.remoteTime, round.localTime);
    RoundConflicts(h, a, p, round);
    KeepBothMoves(h, a1, d, q);
    KeepBothMoves(h, a1, d, p);
    CopyPathDiffers(a1.files.Keys, p);
    var a2 := Deliver(h, KeepBoth, a1, d);
    RunContents(h, KeepBoth, a2, p, v.pieces, 0, round.remoteTime, round.localTime, q);
    var s1 := Get(a1, p).(file := None);
    OneVersion(h, s1, p, v, v.taken);
    RunSlotCons(h, s1, e, es);
    assert Play(h, a, p, round) == RunAll(h, KeepBoth, a2, ds[1..]);
  }

  lemma {:induction false} RoundConflicts(h: Digest, a: Applier, p: Path, round: Round)
    requires p in a.synced && AllConflict(h, a.synced[p].hash, [round])
    ensures
      InConflict(h, KeepBoth, a.(files := a.files[p := round.local]),
                 Delivery(Announce(h, p, round.remote), round.remoteTime, round.localTime))
  {
  }

  lemma {:induction false} RunSlotCons(h: Digest, s: Slot, e: SyncEvent, es: seq<SyncEvent>)
    ensures RunSlot(h, s, [e] + es) == RunSlot(h, StepClean(h, s, e), es)
  {
    assert ([e] + es)[1..] == es;
  }

  /** The copies numbered below `n` are taken and the others are free. */
  predicate CopiesTaken(a: Applier, p: Path, n: nat) {
    forall j :: 0 <= j < COPY_LIMIT ==> (CopyName(p, j) in a.files <==> j < n)
  }

  lemma {:induction false} NextCopy(a: Applier, p: Path, n: nat)
    requires CopiesTaken(a, p, n)
    ensures CopyPath(a.files.Keys + {p}, p) == CopyName(p, if n < COPY_LIMIT then n else 0)
  {
    FirstFreeIs(a.files.Keys + {p}, p, 0, n, a);
  }

  lemma {:induction false} FirstFreeIs(taken: set<Path>, p: Path, j: nat, n: nat, a: Applier)
    requires CopiesTaken(a, p, n) && taken == a.files.Keys + {p} && j <= n && j <= COPY_LIMIT
    ensures FirstFree(taken, p, j) == if n < COPY_LIMIT then n else 0
    decreases COPY_LIMIT - j
  {
    if j < COPY_LIMIT {
      CopyNamesDiffer(p, j, j);
      assert CopyName(p, j) in taken <==> j < n;
      if j < n {
        FirstFreeIs(taken, p, j + 1, n, a);
      }
    }
  }

  /** One round, seen at the copy names: the local version goes to the next one. */
  lemma {:induction false} RoundAtCopies(h: Digest, a: Applier, p: Path, base: Hash, round: Round, n: nat, j: nat)
    requires AllConflict(h, base, [round]) && p in a.synced && a.synced[p].hash == base
    requires CopiesTaken(a, p, n)
    ensures
      var next := if n < COPY_LIMIT then n else 0;
      Lookup(Play(h, a, p, round).files, CopyName(p, j))
      == if j == next then Some(round.local) else Lookup(a.files, CopyName(p, j))
  {
    hide Play, CopyPath, CopyName, AllConflict;
    var next := if n < COPY_LIMIT then n else 0;
    NextCopy(a, p, n);
    OneRound(h, a, p, base, round, CopyName(p, j));
    CopyNamesDiffer(p, j, next);
  }

  lemma {:induction false} RoundTakesCopy(h: Digest, a: Applier, p: Path, base: Hash, round: Round, n: nat)
    requires AllConflict(h, base, [round]) && p in a.synced && a.synced[p].hash == base
    requires CopiesTaken(a, p, n)
    ensures CopiesTaken(Play(h, a, p, round), p, n + 1)
    ensures
      var a' := Play(h, a, p, round);
      && p in a'.synced && a'.synced[p].hash == h(round.remote.content)
      && Lookup(a'.files, p) == Some(round.remote.content)
  {
    hide Play, CopyPath, CopyName;
    var a' := Play(h, a, p, round);
    forall j | 0 <= j < COPY_LIMIT ensures CopyName(p, j) in a'.files <==> j < n + 1 {
      RoundAtCopies(h, a, p, base, round, n, j);
      assert CopyName(p, j) in a.files <==> j < n;
    }
    OneRound(h, a, p, base, round, p);
  }

  /**
   Rounds of conflict on one path, from the point where `n` copies exist: each local version
   goes to the next copy name and stays there, up to a thousand.
   */
  lemma {:induction false} RoundsFillCopies(h: Digest, a: Applier, p: Path, base: Hash, rounds: seq<Round>, n: nat)
    requires AllConflict(h, base, rounds) && p in a.synced && a.synced[p].hash == base
    requires CopiesTaken(a, p, n) && n + |rounds| <= COPY_LIMIT
    ensures
      var a' := PlayAll(h, a, p, base, rounds);
      && CopiesTaken(a', p, n + |rounds|)
      && (forall k :: 0 <= k < |rounds| ==> Lookup(a'.files, CopyName(p, n + k)) == Some(rounds[k].local))
      && (forall j :: 0 <= j < n ==> Lookup(a'.files, CopyName(p, j)) == Lookup(a.files, CopyName(p, j)))
      && (rounds != [] ==> Lookup(a'.files, p) == Some(rounds[|rounds| - 1].remote.content))
      && p in a'.synced
    decreases |rounds|
  {
    hide Play, CopyPath, CopyName, IsStream, Complete, CopiesTaken, Lookup;
    if rounds != [] {
      var a1 := Play(h, a, p, rounds[0]);
      assert AllConflict(h, base, [rounds[0]]);
      RoundTakesCopy(h, a, p, base, rounds[0], n);
      RoundsFillCopies(h, a1, p, h(rounds[0].remote.content), rounds[1..], n + 1);
      var a' := PlayAll(h, a, p, base, rounds);
      forall k | 0 <= k < |rounds|
        ensures Lookup(a'.files, CopyName(p, n + k)) == Some(rounds[k].local)
      {
        if k > 0 {
          assert rounds[k] == rounds[1..][k - 1];
          assert n + k == (n + 1) + (k - 1);
        } else {
          RoundAtCopies(h, a, p, base, rounds[0], n, n);
        }
      }
      forall j | 0 <= j < n
        ensures Lookup(a'.files, CopyName(p, j)) == Lookup(a.files, CopyName(p, j))
      {
        RoundAtCopies(h, a, p, base, rounds[0], n, j);
      }
    }
  }

  /** Once all thousand names are taken, every further round replaces the first copy. */
  lemma {:induction false} RoundsReplaceFirstCopy(h: Digest, a: Applier, p: Path, base: Hash,
      rounds: seq<Round>, n: nat)
    requires AllConflict(h, base, rounds) && p in a.synced && a.synced[p].hash == base
    requires CopiesTaken(a, p, n) && COPY_LIMIT <= n
    ensures
      var a' := PlayAll(h, a, p, base, rounds);
      && (rounds != [] ==> Lookup(a'.files, CopyName(p, 0)) == Some(rounds[|rounds| - 1].local))
      && (forall j :: 0 < j < COPY_LIMIT ==> Lookup(a'.files, CopyName(p, j)) == Lookup(a.files, CopyName(p, j)))
    decreases |rounds|
  {
    hide Play, CopyPath, CopyName, IsStream, Complete, CopiesTaken, Lookup;
    if rounds != [] {
      var a1 := Play(h, a, p, rounds[0]);
      assert AllConflict(h, base, [rounds[0]]);
      RoundTakesCopy(h, a, p, base, rounds[0], n);
      RoundAtCopies(h, a, p, base, rounds[0], n, 0);
      RoundsReplaceFirstCopy(h, a1, p, h(rounds[0].remote.content), rounds[1..], n + 1);
      if |rounds| == 1 {
        assert rounds[1..] == [];
      }
      forall j | 0 < j < COPY_LIMIT
        ensures Lookup(PlayAll(h, a, p, base, rounds).files, CopyName(p, j)) == Lookup(a.files, CopyName(p, j))
      {
        RoundAtCopies(h, a, p, base, rounds[0], n, j);
      }
    }
  }

  lemma {:induction false} AllConflictSplit(h: Digest, a: Applier, p: Path, base: Hash, rounds: seq<Round>, n: nat)
      returns (base': Hash)
    requires AllConflict(h, base, rounds) && n <= |rounds| && p in a.synced && a.synced[p].hash == base
    ensures AllConflict(h, base, rounds[..n]) && AllConflict(h, base', rounds[n..])
    ensures
      var mid := PlayAll(h, a, p, base, rounds[..n]);
      && p in mid.synced && mid.synced[p].hash == base'
      && PlayAll(h, a, p, base, rounds) == PlayAll(h, mid, p, base', rounds[n..])
    decreases n
  {
    hide Play, IsStream, Complete, CopyPath;
    if n == 0 {
      base' := base;
      assert rounds[..0] == [] && rounds[0..] == rounds;
    } else {
      var first, rest := rounds[0], rounds[1..];
      assert AllConflict(h, base, [first]);
      OneRound(h, a, p, base, first, p);
      base' := AllConflictSplit(h, Play(h, a, p, first), p, h(first.remote.content), rest, n - 1);
      FirstRound(h, a, p, base, first, rest[..n - 1]);
      assert rounds[..n] == [first] + rest[..n - 1];
      assert rounds[n..] == rest[n - 1..];
    }
  }

  lemma {:induction false} FirstRound(h: Digest, a: Applier, p: Path, base: Hash, first: Round, rest: seq<Round>)
    requires AllConflict(h, base, [first]) && AllConflict(h, h(first.remote.content), rest)
    ensures AllConflict(h, base, [first] + rest)
    ensures PlayAll(h, a, p, base, [first] + rest) == PlayAll(h, Play(h, a, p, first), p, h(first.remote.content), rest)
  {
    hide Play, IsStream, Complete;
    assert ([first] + rest)[0] == first && ([first] + rest)[1..] == rest;
  }

  /** The local version of round `k` can still be found under some copy name. */
  predicate Kept(a: Applier, p: Path, local: Bytes) {
    exists j :: 0 <= j < COPY_LIMIT && Lookup(a.files, CopyName(p, j)) == Some(local)
  }

  predicate DistinctLocals(rounds: seq<Round>) {
    forall i, j :: 0 <= i < j < |rounds| ==> rounds[i].local != rounds[j].local
  }

  /**
   Keep-both loses no local version exactly as long as there are at most a thousand rounds:
   the next one overwrites the first copy.
   */
  lemma {:induction false} KeepBothLosesNothingIff(h: Digest, a: Applier, p: Path, base: Hash, rounds: seq<Round>)
    requires AllConflict(h, base, rounds) && p in a.synced && a.synced[p].hash == base
    requires CopiesTaken(a, p, 0) && DistinctLocals(rounds)
    ensures (forall k :: 0 <= k < |rounds| ==> Kept(PlayAll(h, a, p, base, rounds), p, rounds[k].local))
        <==> |rounds| <= 1000
  {
    hide AllConflict, PlayAll, CopyName;
    var a' := PlayAll(h, a, p, base, rounds);
    if |rounds| <= COPY_LIMIT {
      RoundsFillCopies(h, a, p, base, rounds, 0);
      forall k | 0 <= k < |rounds| ensures Kept(a', p, rounds[k].local) {
        assert Lookup(a'.files, CopyName(p, 0 + k)) == Some(rounds[k].local);
      }
    } else {
      var base' := AllConflictSplit(h, a, p, base, rounds, COPY_LIMIT);
      var first, rest := rounds[..COPY_LIMIT], rounds[COPY_LIMIT..];
      var mid := PlayAll(h, a, p, base, first);
      RoundsFillCopies(h, a, p, base, first, 0);
      RoundsReplaceFirstCopy(h, mid, p, base', rest, COPY_LIMIT);
      forall j | 0 <= j < COPY_LIMIT ensures Lookup(a'.files, CopyName(p, j)) != Some(rounds[0].local) {
        if j == 0 {
          assert rest[|rest| - 1] == rounds[|rounds| - 1];
        } else {
          assert Lookup(mid.files, CopyName(p, 0 + j)) == Some(first[j].local);
        }
      }
      assert !Kept(a', p, rounds[0].local);
    }
  }
}
