/** The watcher's memory of known files, echo suppression, and the wait for a file to settle. */
module Watcher {
  import opened Arithmetic
  import opened Events

  datatype FileState = FileState(hash: Hash, size: nat)

  type States = map<Path, FileState>

  /** A local report that passes the emission filter, or a remote event applied without conflict. */
  datatype Note = Reported(event: SyncEvent) | Applied(event: SyncEvent)

  // ---------------------------------------------------------------------------
  // The tracker
  // ---------------------------------------------------------------------------

  /** Whether a local report is passed on. */
  predicate Emits(states: States, e: SyncEvent) {
    (e.FileCreated? || e.FileModified?) ==>
      !(e.path in states && states[e.path] == FileState(e.hash, e.size))
  }

  function Track(states: States, note: Note): States {
    match note.event
    case FileCreated(path, hash, size) => states[path := FileState(hash, size)]
    case FileModified(path, hash, size) => states[path := FileState(hash, size)]
    case FileDeleted(path) => states - {path}
    case DirDeleted(dir) => map p | p in states && !(dir <= p) :: states[p]
    case DirCreated(_) => states
    case FileContent(_, _, _) => states
    case Heartbeat(_) => states
  }

  function TrackAll(states: States, notes: seq<Note>): States
    decreases |notes|
  {
    if notes == [] then states else TrackAll(Track(states, notes[0]), notes[1..])
  }

  /** What a note says about a path, if anything. */
  function Says(note: Note, p: Path): Option<Option<FileState>> {
    match note.event
    case FileCreated(path, hash, size) => if path == p then Some(Some(FileState(hash, size))) else None
    case FileModified(path, hash, size) => if path == p then Some(Some(FileState(hash, size))) else None
    case FileDeleted(path) => if path == p then Some(None) else None
    case DirDeleted(dir) => if dir <= p then Some(None) else None
    case DirCreated(_) => None
    case FileContent(_, _, _) => None
    case Heartbeat(_) => None
  }

  /** The last thing said about a path, reading the notes from the end. */
  function LastSaid(before: Option<FileState>, notes: seq<Note>, p: Path): Option<FileState> {
    if notes == [] then before
    else
      var last := Says(notes[|notes| - 1], p);
      if last.Some? then last.value else LastSaid(before, notes[..|notes| - 1], p)
  }

  lemma {:induction false} TrackAllLast(states: States, notes: seq<Note>)
    requires notes != []
    ensures TrackAll(states, notes) == Track(TrackAll(states, notes[..|notes| - 1]), notes[|notes| - 1])
    decreases |notes|
  {
    if |notes| == 1 {
      assert notes[1..] == [] && notes[..0] == [];
    } else {
      TrackAllLast(Track(states, notes[0]), notes[1..]);
      assert notes[1..][..|notes| - 2] == notes[..|notes| - 1][1..];
    }
  }

  lemma {:induction false} TrackAllAppend(states: States, a: seq<Note>, b: seq<Note>)
    ensures TrackAll(states, a + b) == TrackAll(TrackAll(states, a), b)
    decreases |a|
  {
    hide Track;
    if a == [] {
      assert a + b == b;
    } else {
      assert (a + b)[0] == a[0] && (a + b)[1..] == a[1..] + b;
      TrackAllAppend(Track(states, a[0]), a[1..], b);
    }
  }

  lemma {:induction false} TrackOneMore(states: States, notes: seq<Note>, note: Note)
    ensures TrackAll(states, notes + [note]) == Track(TrackAll(states, notes), note)
  {
    TrackAllAppend(states, notes, [note]);
    assert [note][1..] == [];
  }

  /** The tracker knows of each path exactly what was said about it last. */
  lemma {:induction false} TrackerRemembersLast(states: States, notes: seq<Note>, p: Path)
    ensures Lookup(TrackAll(states, notes), p) == LastSaid(Lookup(states, p), notes, p)
    decreases |notes|
  {
    if notes != [] {
      TrackAllLast(states, notes);
      TrackerRemembersLast(states, notes[..|notes| - 1], p);
    }
  }

  /**
   A report is dropped exactly when it is a create or modify that repeats what was said last. Deletions,
   directories, content and heartbeats are always passed on.
   */
  lemma {:induction false} DroppedIffRepeated(states: States, notes: seq<Note>, e: SyncEvent)
    ensures !Emits(TrackAll(states, notes), e)
        <==> IsMetadata(e) && LastSaid(Lookup(states, e.path), notes, e.path) == Some(FileState(e.hash, e.size))
  {
    if IsMetadata(e) {
      TrackerRemembersLast(states, notes, e.path);
    }
  }

  lemma {:induction false} SilenceKeeps(before: Option<FileState>, notes: seq<Note>, p: Path)
    requires forall k :: 0 <= k < |notes| ==> Says(notes[k], p) == None
    ensures LastSaid(before, notes, p) == before
    decreases |notes|
  {
    if notes != [] {
      SilenceKeeps(before, notes[..|notes| - 1], p);
    }
  }

  /**
   No echo: once a remote announcement was applied, a local report with the same hash and size
   is dropped, after any notes about other paths, and dropping it changes nothing.
   */
  lemma {:induction false} NoEcho(states: States, applied: SyncEvent, notes: seq<Note>, report: SyncEvent)
    requires IsMetadata(applied) && IsMetadata(report)
    requires report.path == applied.path && report.hash == applied.hash && report.size == applied.size
    requires forall k :: 0 <= k < |notes| ==> Says(notes[k], applied.path) == None
    ensures !Emits(TrackAll(Track(states, Applied(applied)), notes), report)
    ensures Track(TrackAll(Track(states, Applied(applied)), notes), Reported(report))
         == TrackAll(Track(states, Applied(applied)), notes)
  {
    var s := Track(states, Applied(applied));
    SilenceKeeps(Lookup(s, applied.path), notes, applied.path);
    DroppedIffRepeated(s, notes, report);
    TrackerRemembersLast(s, notes, applied.path);
  }

  class FsWatcher {
    var states: States

    constructor ()
      ensures states == map[]
    {
      states := map[];
    }

    /** Whether the file is known, and whether it differs from what is known. */
    method Check(path: Path, hash: Hash, size: nat) returns (known: bool, changed: bool)
      ensures known <==> path in states
      ensures changed <==> path in states && states[path] != FileState(hash, size)
    {
      if path !in states {
        return false, false;
      }
      var state := states[path];
      return true, state.hash != hash || state.size != size;
    }

    method RecordAppliedEvent(event: SyncEvent)
      modifies this
      ensures states == Track(old(states), Applied(event))
    {
      match event
      case FileCreated(path, hash, size) => states := states[path := FileState(hash, size)];
      case FileModified(path, hash, size) => states := states[path := FileState(hash, size)];
      case FileDeleted(path) => states := states - {path};
      case DirDeleted(dir) => states := map p | p in states && !(dir <= p) :: states[p];
      case DirCreated(_) =>
      case FileContent(_, _, _) =>
      case Heartbeat(_) =>
    }

    method ShouldEmit(event: SyncEvent) returns (emit: bool)
      modifies this
      ensures emit == Emits(old(states), event)
      ensures states == Track(old(states), Reported(event))
    {
      match event
      case FileCreated(path, hash, size) =>
        var known, changed := Check(path, hash, size);
        if known && !changed {
          return false;
        }
        states := states[path := FileState(hash, size)];
        emit := true;
      case FileModified(path, hash, size) =>
        var known, changed := Check(path, hash, size);
        if known && !changed {
          return false;
        }
        states := states[path := FileState(hash, size)];
        emit := true;
      case FileDeleted(path) =>
        states := states - {path};
        emit := true;
      case DirCreated(_) =>
        emit := true;
      case DirDeleted(dir) =>
        states := map p | p in states && !(dir <= p) :: states[p];
        emit := true;
      case FileContent(_, _, _) =>
        emit := true;
      case Heartbeat(_) =>
        emit := true;
    }
  }

  // ---------------------------------------------------------------------------
  // Waiting for a file to settle
  // ---------------------------------------------------------------------------

  /** Size and modification time; the time may be unavailable. All times are in milliseconds. */
  datatype Stat = Stat(size: nat, modified: Option<int>)

  datatype Wait = Stable(size: nat) | NotStable | NoStat

  const MIN_QUIET := 2000

  function RequiredQuiet(interval: nat): nat {
    if 10 * interval < MIN_QUIET then MIN_QUIET else 10 * interval
  }

  /** The last successful stat before poll `n` (polls are numbered from 1). */
  function LastStat(initial: Stat, polls: seq<Option<Stat>>, n: nat): Stat
    requires n <= |polls|
  {
    if n == 0 then initial
    else if polls[n - 1].Some? then polls[n - 1].value
    else LastStat(initial, polls, n - 1)
  }

  /** How many polls up to the `n`-th in a row found the file unchanged. */
  function QuietPolls(initial: Stat, polls: seq<Option<Stat>>, n: nat): nat
    requires n <= |polls|
  {
    if n == 0 || polls[n - 1] != Some(LastStat(initial, polls, n - 1)) then 0
    else QuietPolls(initial, polls, n - 1) + 1
  }

  /** A run of quiet polls: all of them succeeded with one and the same size and time. */
  lemma {:induction false} QuietMeansUnchanged(initial: Stat, polls: seq<Option<Stat>>, n: nat)
    requires n <= |polls|
    ensures QuietPolls(initial, polls, n) <= n
    ensures forall k :: n - QuietPolls(initial, polls, n) <= k < n ==> polls[k] == Some(LastStat(initial, polls, n))
  {
    if n > 0 && polls[n - 1] == Some(LastStat(initial, polls, n - 1)) {
      QuietMeansUnchanged(initial, polls, n - 1);
    }
  }

  /** Enough quiet at poll `n` to call the file stable. */
  predicate Settled(initial: Stat, polls: seq<Option<Stat>>, n: nat, interval: nat)
    requires n <= |polls|
  {
    0 < n && Times(QuietPolls(initial, polls, n), interval) >= RequiredQuiet(interval)
  }

  lemma {:induction false} BeforePolls(initial: Stat, polls: seq<Option<Stat>>, interval: nat)
    ensures LastStat(initial, polls, 0) == initial && QuietPolls(initial, polls, 0) == 0
    ensures Times(0, interval) == 0
  {
  }

  lemma {:induction false} OnePoll(initial: Stat, polls: seq<Option<Stat>>, n: nat, interval: nat)
    requires n < |polls|
    ensures
      var last, quiet := LastStat(initial, polls, n), QuietPolls(initial, polls, n);
      && LastStat(initial, polls, n + 1) == (if polls[n].Some? then polls[n].value else last)
      && QuietPolls(initial, polls, n + 1) == (if polls[n] == Some(last) then quiet + 1 else 0)
      && Times(0, interval) == 0
      && Times(quiet + 1, interval) == Times(quiet, interval) + interval
      && Times(n + 1, interval) == Times(n, interval) + interval
      && (Settled(initial, polls, n + 1, interval) <==>
           polls[n] == Some(last) && Times(quiet + 1, interval) >= RequiredQuiet(interval))
  {
  }

  /**
   Polls until the file has been quiet for long enough. `age` is the time since the last write
   at the first stat, and `polls` the answers to the polls, of which there are enough to fill
   the longest wait. `used` is how many polls were made.
   */
  method WaitForStable(initial: Option<Stat>, age: Option<nat>, polls: seq<Option<Stat>>, interval: nat, maxWait: nat)
      returns (result: Wait, used: nat)
    requires 0 < interval && 0 < |polls| && maxWait <= Times(|polls|, interval)
    ensures initial.None? ==> result == NoStat && used == 0
    ensures initial.Some? && age.Some? && 10 * interval <= age.value && 2000 <= age.value ==>
      result == Stable(initial.value.size) && used == 0
    ensures initial.Some? && (age.None? || age.value < 10 * interval || age.value < 2000) ==>
      && 1 <= used <= |polls|
      && (forall n :: 1 <= n < used ==> !Settled(initial.value, polls, n, interval) && Times(n, interval) < maxWait)
      && result == (if Settled(initial.value, polls, used, interval)
                    then Stable(LastStat(initial.value, polls, used).size) else NotStable)
      && (result == NotStable ==> maxWait <= Times(used, interval))
  {
    hide LastStat, QuietPolls, Settled, Times;
    if initial.None? {
      return NoStat, 0;
    }
    var requiredQuiet := RequiredQuiet(interval);
    assert age.Some? ==> (requiredQuiet <= age.value <==> 10 * interval <= age.value && 2000 <= age.value);
    hide RequiredQuiet;
    if age.Some? && age.value >= requiredQuiet {
      return Stable(initial.value.size), 0;
    }
    var prev := initial.value;
    var quietFor, elapsed := 0, 0;
    used := 0;
    BeforePolls(initial.value, polls, interval);
    while true
      invariant used < |polls| && elapsed == Times(used, interval)
      invariant prev == LastStat(initial.value, polls, used)
      invariant quietFor == Times(QuietPolls(initial.value, polls, used), interval)
      invariant forall n :: 1 <= n <= used ==>
        !Settled(initial.value, polls, n, interval) && Times(n, interval) < maxWait
      decreases |polls| - used
    {
      elapsed := elapsed + interval;
      var stat := polls[used];
      OnePoll(initial.value, polls, used, interval);
      used := used + 1;
      if stat == Some(prev) {
        quietFor := quietFor + interval;
        if quietFor >= requiredQuiet {
          return Stable(stat.value.size), used;
        }
      } else {
        if stat.Some? {
          prev := stat.value;
        }
        quietFor := 0;
      }
      if elapsed >= maxWait {
        return NotStable, used;
      }
    }
  }

  /** All of the last `m` polls found the file as it was before them. */
  predicate QuietFor(initial: Stat, polls: seq<Option<Stat>>, n: nat, m: nat)
    requires m <= n <= |polls|
  {
    forall k :: n - m <= k < n ==> polls[k] == Some(LastStat(initial, polls, n - m))
  }

  lemma {:induction false} QuietPollsAtLeast(initial: Stat, polls: seq<Option<Stat>>, n: nat, m: nat)
    requires m <= n <= |polls| && QuietFor(initial, polls, n, m)
    ensures m <= QuietPolls(initial, polls, n)
    ensures LastStat(initial, polls, n) == LastStat(initial, polls, n - m)
    decreases m
  {
    if m > 0 {
      assert QuietFor(initial, polls, n - 1, m - 1) by {
        assert n - 1 - (m - 1) == n - m;
      }
      QuietPollsAtLeast(initial, polls, n - 1, m - 1);
      assert polls[n - 1] == Some(LastStat(initial, polls, n - m));
    }
  }

  /** Behind the last poll that was not quiet the file is as it was found then. */
  lemma {:induction false} QuietSince(initial: Stat, polls: seq<Option<Stat>>, n: nat)
    requires n <= |polls|
    ensures QuietPolls(initial, polls, n) <= n && QuietFor(initial, polls, n, QuietPolls(initial, polls, n))
    ensures LastStat(initial, polls, n) == LastStat(initial, polls, n - QuietPolls(initial, polls, n))
  {
    if n > 0 && polls[n - 1] == Some(LastStat(initial, polls, n - 1)) {
      QuietSince(initial, polls, n - 1);
    }
  }

  /** A file is settled exactly when it was quiet for ten intervals and for two seconds. */
  lemma {:induction false} SettledIffQuiet(initial: Stat, polls: seq<Option<Stat>>, n: nat, interval: nat)
    requires 0 < interval && n <= |polls|
    ensures Settled(initial, polls, n, interval)
       <==> exists m: nat :: m <= n && QuietFor(initial, polls, n, m) && 10 <= m && 2000 <= m * interval
  {
    var quiet := QuietPolls(initial, polls, n);
    QuietSince(initial, polls, n);
    TimesIsProduct(quiet, interval);
    if Settled(initial, polls, n, interval) {
      TimesIsProduct(10, interval);
      TimesReflects(10, quiet, interval);
      assert QuietFor(initial, polls, n, quiet) && 10 <= quiet && 2000 <= quiet * interval;
    }
    if m: nat :| m <= n && QuietFor(initial, polls, n, m) && 10 <= m && 2000 <= m * interval {
      QuietPollsAtLeast(initial, polls, n, m);
      TimesIsProduct(m, interval);
      TimesIsMonotonic(m, quiet, interval);
      TimesIsProduct(10, interval);
      TimesIsMonotonic(10, quiet, interval);
    }
  }

  /** What a stable answer of the polling loop means. */
  lemma {:induction false} StableMeansQuiet(initial: Stat, polls: seq<Option<Stat>>, n: nat, interval: nat)
    requires n <= |polls| && Settled(initial, polls, n, interval)
    ensures
      var m := QuietPolls(initial, polls, n);
      && 1 <= m <= n && m * interval >= 10 * interval && m * interval >= MIN_QUIET
      && forall k :: n - m <= k < n ==> polls[k] == Some(LastStat(initial, polls, n))
  {
    QuietMeansUnchanged(initial, polls, n);
    TimesIsProduct(QuietPolls(initial, polls, n), interval);
  }
}
