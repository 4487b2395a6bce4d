# Verified model of dirsync

dirsync keeps two directories in step. Two instances on one machine exchange events through a
shared-memory ring: each pushes what changed in its own directory, and applies what the other
one pushed. This project models that machinery in Dafny and proves what it guarantees.

The model has five layers, each proved on its own and then put together.

* **The ring** (`RingModel`, `RingProofs`, `RingBounds`, `RingReads`, `Transport`, `StreamBounds`). One byte
  array, one write cursor, a read cursor and a liveness bit per instance. `RingModel` states each
  operation as a step on values, byte by byte; `Transport.ShmTransport` is the object that updates
  the array in place, with the source's loops, retries and 32-bit sums, and every method is proved
  equal to its step. The invariant says what the bytes between a read cursor and the write cursor
  spell. From it follow exactly-once delivery in order, the termination of the reader's loop and the
  unreachability of its `break`s, exact capacity bounds, and when the pop of an overrun reader returns.
* **The lock** (`SpinLock`, `LockedRing`). Every load, store and compare-and-exchange is a step of
  its own, from a new segment on, in which nobody is registered: each instance takes the lock before
  its own bit is set. `LockedRing` puts the lock around the ring and shows under which policy the
  bodies are atomic. The other layers run the bodies as atomic steps, so they speak about runs that
  keep to that policy.
* **The applier** (`ApplyModel`, `ApplyProofs`, `Transfers`, `LocalEdits`, `LaterEdits`, `CopyNames`,
  `ChangeApplier`, `Chunker`). What the receiver knows of a path is a slot (target, temporary
  file, baseline, pending transfer, blocked flag). An event is a step of the slots it touches.
  `ChangeApplier.ChangeApplier` is the object with the source's maps; its methods are proved equal
  to the steps.
* **The watcher** (`Watcher`). The tracker that suppresses echoes, and the wait for a file to settle.
* **The engine** (`SyncModel`, `SequenceNumbers`, `Conduct`, `Outgoing`, `SyncEngine`, `Arrival`,
  `Reception`, `EchoFreedom`, `Host`, `WireFormat`). Sequence numbers, filtering of own events, retries, failures
  and batched draining while streaming next to a peer that does anything it may, and the end-to-end
  results: whatever the interleaving, the receiver's directory is its old one overlaid with what was
  sent. `Arrival` looks at one run from both sides and ties the sending engine's own methods to what
  its peer holds afterwards. `WireFormat` is one concrete serialisation; `Host` uses it to show that
  what the engine demands can be met.

## Main results

| question | answer |
|---|---|
| Does each reader get every frame once, in order? | `RingProofs.ExactlyOnceFifo`, for every history and every capacity, for every reader no accepted frame was written over; `RingBounds.ForcedOutReaderLosesFrames` shows why overrun readers are excluded, at every capacity |
| Does every pop return? | for every history and every reader, overrun or not, if and only if its cursor is not led behind the end of the ring: `RingReads.PopReturnsUnlessOutside`; the loop never goes round for ever, and never leads a tracked reader there; an overrun one it can: `RingReads.OverrunReaderIsLedOutside` |
| When is the lock a lock? | mutual exclusion holds in every run if and only if nobody is evicted who has neither stopped nor left, nobody gives up on the lock while somebody is registering, nobody registers again after leaving, and nobody starts again after stopping: `SpinLock.ExclusiveIffStrict` (a registration that failed to get the lock may be tried again) |
| Are the locked bodies atomic? | under that policy, registrations included: `LockedRing.LockedBodiesAreAtomic` |
| What if an instance stops while it holds the lock? | the other one gets in if and only if the bit of the stopped one is clear: `SpinLock.OthersGetInIffBitClear`; every place is one where that can happen: `SpinLock.StopsAnywhere` |
| How much fits without a pop? | `RingBounds.BurstBoundIsExact`: `k + 1` frames of at most `f` bytes always fit if and only if `(k + 2) * f + 4 <= cap` |
| Does a refused push ever get through by itself? | never before the reader in the way moves: `RingBounds.RefusalIsStable` |
| For which capacities are the 32-bit sums right? | exactly up to `0x8000_0003`: `RingBounds.MachineIsExactUpTo` |
| Can the receiver show a mixture of versions? | no: `Transfers.AtomicVisibility`, and over the whole system `SyncModel.EndToEnd` |
| Does the order of chunks matter? | not before the first commit: `Transfers.PartsInAnyOrder`; afterwards a repeated part is harmless if and only if it is no proper prefix, `Transfers.RedeliveryIsHarmlessIff` |
| Does the order between files matter? | no: `ApplyProofs.InterleavingIndependence` |
| When is a conflict reported? | only for an edited path: `LocalEdits.BaselineAgreement` |
| Which side wins under last-writer-wins? | the one written later, whatever else happens while the version arrives, and it is reported exactly if that is the local one: `LaterEdits.LaterOneWins`; the content of the version that lost is ignored, `LaterEdits.LaterEditSurvives`, and the next one is received, `LaterEdits.NextVersionIsReceived` |
| Does keep-both lose a local version? | if and only if there are more than a thousand rounds: `LocalEdits.KeepBothLosesNothingIff` |
| Is a directory replicated? | `SyncModel.DirectoryReplication`; and what the engine's own `SyncEngine.SyncEngine.InitialSync` sent is what the peer holds once it has popped everything: `Arrival.DirectoryArrives` |
| Which sequence numbers arrive? | all that were handed out in the session but those whose every attempt failed, in order: `SequenceNumbers.CountersOfOneSession`; they increase in every run if and only if no sender begins a new session meanwhile, `SequenceNumbers.IncreasingIffNoRestart` |
| When does a push fail? | only if a request for the lock was in vain, the frame can never fit, or every attempt that the clock allowed met a ring without room: `Transport.OutcomeOfPush`, `Transport.RoomEndsPush` |
| Does streaming get stuck on the sender's own cursor? | not next to a peer that keeps up, if nine frames and four bytes fit the ring: `StreamBounds.KeepingUpMeetsNoRefusal`, and for the code's own loops `SyncEngine.SyncEngine.PushWithContent` and `SyncEngine.SyncEngine.InitialSync`, which end in success if the lock is always obtained |
| Are received files reported back? | exactly when their hash or size changed: `EchoFreedom.ReceivedIsNotReported` |

Some of these are about limits that the code has and its documentation does not mention:

* In a segment with a ring above `0x8000_0003` bytes a 32-bit sum of a push wraps around and the
  decision is wrong in a reachable state (`MachineIsExactUpTo`), while `src/shm.rs:55-56` accepts
  segments of up to `0x38 + 2^32 - 1` bytes.
* In a ring of at most 33 554 464 bytes, eight full chunks never fit between two drains, whatever the
  peer does: the sender's own read cursor is in the way (`EightChunksJam`). The default segment of
  64 MB is large enough as long as an envelope adds no more than 3 262 225 bytes (`DefaultSegmentStreams`).
* The pop of a reader that was forced out and overrun can read a length from the middle of a frame that
  leads it behind the end of the ring (`OverrunReaderIsLedOutside`).
* In a ring of less than 16 392 bytes every full chunk is too large for good, with any overhead, while
  rings from 8 bytes on are accepted (`FullChunkPassesIff`, `src/shm.rs:35`, `src/sync.rs:66-67`).
* A registering instance holds the lock before its bit is set, and one that has spun long enough
  takes the lock from it (`NewcomerMeetsRunning`).
* An instance that was declared offline while alive can be inside the locked region together with
  its evictor (`EvictedAliveMeetsEvictor`); `docs/development-plan.md:82` calls the reclaim safe.
* A leaver whose lock was reclaimed frees the lock of the new holder (`LeaverComesBack`), and an instance
  that starts again while it is being evicted loses its new bit (`RestartedMeetsEvictor`).
* An instance that stops inside, or on its way out, with its bit set keeps the other one out for ever
  (`OthersGetInIffBitClear`, `StopsAnywhere`).
* A sender whose process starts again counts from 1 again (`RestartRepeatsCounter`).
* The conflict copy number 1001 replaces the first one (`RoundsReplaceFirstCopy`, `src/apply.rs:588-595`).

## Conventions

Whatever comes from outside is a parameter: the digest function, the serialisation of envelopes (assumed
to give back what was put in), clocks and modification times, the answers of `stat`, and, in
`Outgoing.Surroundings`, the answers to requests for the lock, how many attempts the clock allows, and
the size of each read. What the peer does in between is open and appears in the results as a run. Paths
are non-empty sequences of plain names. "Clean" is said of a path whose file is absent or has exactly the
content of its baseline. A step of the ring is one attempt to push or one pop that returns; a reader is
"tracked" while no accepted frame was written over its cursor. Counters, sizes, offsets and times of what
is pushed are 64-bit. Automatic induction is switched off in every lemma, so each induction is written
out in its proof.

## Model

| member | source | states |
|---|---|---|
| ByteStrings.LittleEndianRoundTrip | src/shm.rs:431-446 | The length field written by a push is the one read by a pop, for every 32-bit length |
| RingProofs.BytesAfterWritten | src/shm.rs:412-444 | An accepted push leaves at its start position exactly one frame spelling the payload, a sentinel at the old write position if and only if it wraps, and every other byte as it was |
| RingProofs.SentinelBytes | src/shm.rs:8 | The sentinel is four bytes 0xff, and the only length field that looks like it is that of 2^32 - 1 |
| RingProofs.FitsGeometry | src/shm.rs:388-447 | Where an accepted frame leaves the write cursor relative to a reader: it wraps only from behind the reader, and never reaches it |
| RingProofs.PushAppends | src/shm.rs:388-448 | If the bytes from a respected read cursor to the write cursor spelled a queue, after the push they spell that queue with the new frame at its end |
| RingProofs.WriteStaysInRange | src/shm.rs:388-390 | The write cursor never comes within four bytes of the end of the ring |
| RingProofs.TakesFirst | src/shm.rs:494-557 | One turn of the reader's loop over a well-formed queue takes its first frame; no `break` is taken |
| RingProofs.ScanIsExact | src/shm.rs:494-558 | The reader's loop over raw bytes ends, at the write cursor, with exactly the queue |
| RingProofs.StartInv | src/shm.rs:113-117 | A new segment satisfies the byte-level invariant |
| RingProofs.PushKeepsReader | src/shm.rs:351-467 | A push, accepted or refused, keeps the invariant of every reader whose cursor its frame does not reach |
| RingProofs.PopDelivers | src/shm.rs:469-575 | A pop of a respected reader returns exactly the frames owed to it and moves only its cursor, to the write cursor |
| RingProofs.TrackedPopReturns | src/shm.rs:494-558 | The loop of a tracked reader always ends |
| RingProofs.NextInv | src/shm.rs:245-575 | Push, pop, register, unregister and forced unregister all keep the invariant: for each tracked reader the unread bytes are whole frames with at most one sentinel |
| RingProofs.PushSparesUnread | src/shm.rs:326-448 | No push changes a byte that a counted reader has still to read, and every such byte stays unread |
| RingProofs.ExecAppend | src/shm.rs:245-575 | Runs compose: running one history after another is running both together |
| RingProofs.PopCompletes | src/shm.rs:469-575 | In every state that satisfies the invariant the next pop of a tracked reader returns exactly what was accepted and not yet popped, and moves only its cursor, to the write cursor |
| RingProofs.ExactlyOnceFifo | src/shm.rs:351-575 | Over every history, pops of overrun readers included, what a tracked reader popped since it registered is a prefix of what was accepted since then, and its next pop returns exactly the rest |
| RingBounds.DrainedIsInSync | src/shm.rs:326-349 | In a drained ring, where every counted reader stands at the write cursor, whatever happened to it before, whole frames lie in front of each of them |
| RingBounds.PopInSync | src/shm.rs:469-575 | A reader with whole frames in front of it, tracked or not, pops to the write cursor |
| RingBounds.BurstFromCourse | src/shm.rs:388-447 | The induction behind the burst bound, from any point of a burst: every push is accepted and at most one more wraps |
| RingBounds.BurstAccepted | src/shm.rs:326-447 | From any reachable drained ring, `k + 1` frames of at most `f` bytes, with pops of anybody in between, are all accepted if `(k + 2) * f + 4 <= cap`, and at most one of them wraps |
| RingBounds.FrameGoingRoundIsRefused | src/shm.rs:388-410 | With a reader that does not move and sits no further than one frame in, the first frame that has to go round is refused |
| RingBounds.SomeBurstIsRefused | src/shm.rs:379-410 | When the bound fails there is a history in which both instances register and which ends in a drained ring, and a burst of `k + 1` frames of `f` bytes, that meets a refusal |
| RingBounds.BurstBoundIsExact | src/shm.rs:326-410 | For every burst length and frame size of at least 5, bursts are always accepted if and only if `(k + 2) * f + 4 <= cap`; `k = 0` is the bound for a single frame in a drained ring |
| RingBounds.RefusalHasReader | src/shm.rs:326-410 | A frame is refused if and only if it does not fit in front of some counted reader |
| RingBounds.SmallerFrameKeepsBlock | src/shm.rs:388-410 | When another frame does get in, moving the write cursor and perhaps the wrap decision, the refused one still does not fit in front of the reader |
| RingBounds.RefusalIsStable | src/shm.rs:326-410 | A push refused because of a registered reader stays refused, and changes nothing, after every run in which that reader neither pops, registers again nor loses its bit |
| RingBounds.MachineIsExactUpTo | src/shm.rs:366-410 | The decisions computed with 32-bit sums agree with the unbounded ones in every reachable state if and only if the capacity is at most `0x8000_0003` |
| RingBounds.SumsStayIn32Bits | src/shm.rs:366-447 | Up to that capacity no sum of a push reaches 2^32, no length equals the sentinel, a wrap is never needed at offset 0, and the tail before a wrap has room for the sentinel |
| RingBounds.ForcedOutReaderLosesFrames | src/shm.rs:306-324 | At every capacity there is a history in which a reader that registered and was forced out is owed two accepted frames and pops none |
| RingReads.RunKeepsHead | src/shm.rs:388-447 | After every history whole frames lie from offset 0 to the write cursor, read or not |
| RingReads.LoopEnds | src/shm.rs:494-558 | From any cursor whatever, over any bytes of such a ring, the loop ends within the fuel or is led behind the end of the ring |
| RingReads.PopReturnsUnlessOutside | src/shm.rs:494-558 | After every history the pop of either reader, overrun or not, returns if and only if no turn begins less than four bytes before the end or takes a frame whose end exceeds both the ring and 32 bits |
| RingReads.OverrunReaderIsLedOutside | src/shm.rs:306-324 | In every ring of at least twelve bytes there is a history, with both instances registered and one of them forced out, after which the pop of that one does not return |
| RingReads.NoFrameEndsPop | src/shm.rs:501-538 | A sentinel in a ring written from 0 ends the pop at offset 0, a length that leads behind the ring ends it where it is, both without a frame |
| Transport.OpensIffInside | src/shm.rs:67-96 | A header is accepted if and only if the segment has a permitted size, the ring ends within it, and all cursors lie within the ring |
| Transport.ReachedHeadersOpen | src/shm.rs:67-96 | The header of a segment passes the bounds check of `open` at every moment of every history |
| Transport.ShmTransport.constructor | src/shm.rs:113-117 | A new ring of any permitted capacity is zeroed, empty, with nobody registered; its 32-bit guarantees hold if and only if the capacity is at most `0x8000_0003` |
| Transport.ShmTransport.Create | src/shm.rs:46-65 | A segment is created if and only if its size is from 64 to 2^32 + 55 bytes, and is valid if and only if 32-bit sums are exact for it |
| Transport.ShmTransport.CopyIn | src/shm.rs:431-443 | Copying into the array overwrites exactly the given stretch |
| Transport.ShmTransport.CopyOut | src/shm.rs:496-499 | Copying out returns exactly the given stretch |
| Transport.ShmTransport.FreeBytesLocked | src/shm.rs:326-349 | For every ring with cursors in range, the loop-free computation over the mask is the free space that the slowest counted reader leaves |
| Transport.ShmTransport.CheckRoom | src/shm.rs:371-428 | For every ring with cursors in range the decision is the one with wrapping 32-bit sums; where these are exact it is the unbounded one, and the error for a tail too short for a sentinel is unreachable |
| Transport.ShmTransport.WriteFrame | src/shm.rs:412-444 | The writes in place leave exactly the bytes of the model |
| Transport.ShmTransport.TryPush | src/shm.rs:371-461 | One attempt is the push step: refused with nothing changed, or accepted with the whole new ring and one counter advanced; validity is kept |
| Transport.ShmTransport.PeerMoves | src/shm.rs:245-575 | Anything the other instance does in between: pushes, pops that return, leaving and registering, in any number and order, as a legal run |
| Transport.ShmTransport.PushEvent | src/shm.rs:351-467 | The retry loop, for every sequence of answers to its requests for the lock: an attempt for each yes, refused ones repeated while the peer goes on, until one is accepted, the frame can never fit, the attempts that the clock allows are used up, or an answer is no |
| Transport.OutcomeOfPush | src/shm.rs:366-461 | What each outcome means: `Busy`, that the answer next in turn was no; `Full`, that all allowed attempts were made and refused; `TooLarge`, exactly for frames of more than the capacity less four bytes |
| Transport.RoomEndsPush | src/shm.rs:388-460 | An attempt made while the ring has room is the last one, and the push is accepted |
| Transport.AcceptedIsLast | src/shm.rs:431-448 | An accepted frame is behind all others that the readers are sent |
| Transport.ShmTransport.TakeTurn | src/shm.rs:494-557 | One turn over raw bytes, with its `break`s and 32-bit sums, is the turn of the model |
| Transport.ShmTransport.ReadAll | src/shm.rs:492-558 | The loop finds exactly the frames of the model's scan and stops at its cursor |
| Transport.ShmTransport.PopEvents | src/shm.rs:469-575 | A pop that returns is the pop step, or nothing happens for want of the lock; for a tracked reader it returns exactly the frames owed, in order, with its cursor at the write cursor and everything else as it was |
| Transport.ShmTransport.RegisterInstance | src/shm.rs:245-274 | An instance id above 1, and a lock that is not obtained, fail with nothing changed; otherwise the bit is set and the cursor skips to the end |
| Transport.ShmTransport.UnregisterInstance | src/shm.rs:281-301 | Leaving clears the bit and nothing else; without the lock the bit stays |
| Transport.ShmTransport.ForceUnregisterPeer | src/shm.rs:306-324 | Eviction clears the peer's bit and nothing else; without the lock it fails and nothing changes |
| SpinLock.HolderIsRead | src/shm.rs:197-236 | Whom the lock was taken for can be read from it, and a free lock reads as held by instance 0 |
| SpinLock.FailureCanBeTriedAgain | src/shm.rs:210-236 | An instance that does not get the lock changes nothing and can try again, unless it was leaving |
| SpinLock.DoKeepsInv | src/shm.rs:197-324 | Every step of the lock protocol under the strict policy, registrations included, keeps the invariant tying lock value, mask and positions together |
| SpinLock.RunKeepsInv | src/shm.rs:197-324 | So does every run |
| SpinLock.EvictedAliveMeetsEvictor | src/shm.rs:306-324 | A run in which a live instance is evicted and both end up inside |
| SpinLock.NewcomerMeetsRunning | src/shm.rs:245-265 | A run without evictions in which a registering instance and a running one end up inside |
| SpinLock.LeaverComesBack | src/shm.rs:281-301 | A run without evictions or overlaps in which an instance that left and registers again meets the other one inside |
| SpinLock.RestartedMeetsEvictor | src/shm.rs:306-324 | A run in which an instance that stopped starts again while it is being evicted, and meets its evictor inside |
| SpinLock.ExclusiveIffStrict | src/shm.rs:197-324 | From a new segment on, mutual exclusion holds in every run if and only if none of the four is allowed |
| SpinLock.OthersGetInIffBitClear | src/shm.rs:210-236 | Next to an instance that stopped while it held the lock, anywhere inside or on its way out, an idle live one gets in in some run if and only if the bit of the stopped one is clear |
| SpinLock.StopsAnywhere | src/shm.rs:245-301 | Each of these places is reached from a new segment, and only before the own bit is set and after it was cleared is it clear |
| LockedRing.InsideAlone | src/shm.rs:197-324 | Next to a live instance inside, nobody else, dead or alive, is in the middle of a write |
| LockedRing.BodyIsLegal | src/shm.rs:245-575 | Whoever transfers still has its bit, so its pop is that of a tracked reader and returns |
| LockedRing.RunsAreSerial | src/shm.rs:197-575 | Over every interleaving, with arbitrary writes inside bodies, the ended bodies form a legal history and a live holder saw the ring after it |
| LockedRing.HolderSeesHistory | src/shm.rs:469-575 | Whoever is alive inside saw the ring after the history so far, and a pop of what it saw returns exactly what it is owed |
| LockedRing.LockedBodiesAreAtomic | src/shm.rs:197-575 | From a new segment on, under the strict policy: pushes, pops, registrations, departures and evictions form a legal history, the shared memory is the ring after it while nobody writes, and so is what every live holder saw |
| StreamBounds.ChunkSizeByCapacity | src/sync.rs:66-67 | 16 384 bytes below a capacity of 65 536, a quarter of the ring from there to 16 MiB, 4 194 304 bytes from there on |
| StreamBounds.FullChunkPassesIff | src/shm.rs:376-386 | A full chunk passes the size test if and only if, with `overhead` bytes around the data: `overhead + 16 392 <= cap`, `overhead + 8 + cap / 4 <= cap` or `overhead + 4 194 312 <= cap`, by these ranges |
| StreamBounds.SpacedAppend | src/sync.rs:186-229 | Runs that pause after eight pushes compose |
| StreamBounds.KeepingUpMeetsNoRefusal | src/sync.rs:186-229 | A run that never attempts a ninth push before a pop, next to a peer that pushes nothing and has caught up at each of these pops, meets no refusal if `9 * f + 4 <= cap` |
| StreamBounds.BatchBoundIsExact | src/sync.rs:186-229 | Every batch of eight frames fits every drained ring if and only if `9 * f + 4 <= cap` |
| StreamBounds.DefaultSegmentStreams | src/sync.rs:66-67 | The default segment with the default chunk size meets the bound if and only if an envelope adds at most 3 262 225 bytes |
| StreamBounds.BacklogIsBounded | src/sync.rs:201-224 | While a registered reader does not pop, accepted frames never add up to the capacity |
| StreamBounds.EightChunksJam | src/sync.rs:66-67 | In a ring of at most 33 554 464 bytes eight full chunks pushed without popping meet a refusal, whatever the peer does |
| Chunker.EvenCutIsUnique | src/chunker.rs:21 | Content and chunk size determine the pieces |
| Chunker.ChunkData | src/chunker.rs:16-47 | The events are consecutive pieces of full size but for the last, adding up to the data; empty data gives one empty piece |
| Events.ContentEventsAppend | src/chunker.rs:21-28 | Offsets continue where the previous pieces end |
| ApplyModel.WriteAt | src/apply.rs:285-293 | Seek and write: the written stretch is the data, everything else is as before, holes read as zeros |
| ApplyProofs.StepStaysClean | src/apply.rs:221-403 | Every event leaves a path in agreement with its baseline if it was so before |
| ApplyProofs.CleanNeverConflicts | src/apply.rs:164-219 | A path in agreement with its baseline meets no conflict under either strategy |
| ApplyProofs.ApplyIsLocal | src/apply.rs:405-563 | Without a conflict an event changes the slots of the paths it touches, as that slot's step says, and no others |
| ApplyProofs.RunIsLocal | src/apply.rs:405-563 | From a clean directory, what becomes of a path is decided by the events touching it, in order, whatever strategy, clocks and other events |
| ApplyProofs.InterleavingIndependence | src/apply.rs:221-562 | Two interleavings with the same order per path give the same targets, temporary files, baselines and pending transfers |
| Transfers.PiecesInOrder | src/apply.rs:278-376 | In-order pieces leave the target alone until the last one, which commits the whole content |
| Transfers.OneVersion | src/apply.rs:221-376 | What any prefix of a version's stream does to the slot, starting from any slot at all |
| Transfers.HistoryShows | src/apply.rs:221-376 | After any number of events of cut streams the target is what the reference function of whole contents says |
| Transfers.ShownIsWhole | src/apply.rs:221-376 | That reference never shows anything but the original or one whole complete version |
| Transfers.AtomicVisibility | src/apply.rs:221-376 | With versions cut short by the next, interleaved with other paths' events, the target is at every moment the original or one whole version, and ends as the last complete one |
| Transfers.GatherParts | src/apply.rs:278-376 | The induction behind parts in any order, from any set of parts already written |
| Transfers.PartsInAnyOrder | src/apply.rs:278-376 | Parts in any order, overlapping and repeated: the target is untouched before the first commit, the commit comes no later than the part completing the cover, and commits the source |
| Transfers.RedeliveryIsHarmlessIff | src/apply.rs:378-403 | After the commit a part arriving again leaves the file intact if and only if it does not start at 0 or is the whole file |
| CopyNames.LastDot | src/apply.rs:574 | The position of the last dot, if any |
| CopyNames.DecimalSpells | src/apply.rs:589 | A numeral spells its number in decimal digits |
| CopyNames.DecimalInjective | src/apply.rs:589 | Different numbers have different numerals |
| CopyNames.MakeNameInjective | src/apply.rs:573-581 | Different suffixes give different names |
| CopyNames.CopyKeepsStemAndExtension | src/apply.rs:566-592 | A copy keeps directory, stem and extension; between the last two stands `.local`, with a number from the second name on |
| CopyNames.CopyNamesDiffer | src/apply.rs:566-592 | The names tried are pairwise different and none of them is the original's |
| CopyNames.FirstFree | src/apply.rs:583-595 | The name chosen is the first free one; the first of all only when all thousand are taken |
| LocalEdits.HappenKeepsAgreement | src/apply.rs:164-563 | One remote event or local edit keeps every path that does not count as edited in agreement with its baseline |
| LocalEdits.BaselineAgreement | src/apply.rs:164-563 | Over every mixture of remote events and local edits, including directory deletes, an unedited path is absent or has its baseline's hash and size, and no conflict is reported for it |
| LocalEdits.FreshIsClean | src/apply.rs:32-42 | A new applier starts in agreement on every path |
| LocalEdits.KeepBothMoves | src/apply.rs:429-448 | A keep-both conflict moves the local file to the copy name, opens the transfer at the path, and changes no third path |
| LocalEdits.OneRound | src/apply.rs:474-494 | After conflict and complete transfer the remote version is at the path and its baseline, the local one at the copy, everything else as before |
| LocalEdits.RoundsFillCopies | src/apply.rs:566-596 | Up to a thousand rounds, the local versions sit at consecutive copy names in order, and stay there |
| LocalEdits.RoundsReplaceFirstCopy | src/apply.rs:595 | When all names are taken every further round replaces the first copy and no other |
| LocalEdits.KeepBothLosesNothingIff | src/apply.rs:429-596 | All (distinct) local versions are still there if and only if there were at most a thousand rounds |
| LaterEdits.ReportedIff | src/apply.rs:164-219 | A conflict is reported if and only if the file differs from baseline and announcement and, under last-writer-wins, was written later; with both hashes and sizes |
| LaterEdits.AnnouncementAtEdit | src/apply.rs:411-497 | Under last-writer-wins an announcement that meets an edited file leaves it, its baseline and all other paths alone, opens no transfer and blocks the path if the file was written later; otherwise it opens the transfer, unreported |
| LaterEdits.ContentIsIgnored | src/apply.rs:545-549 | While a path is blocked, remote content changes nothing, mixed with anything on other paths and with local edits |
| LaterEdits.LaterEditSurvives | src/apply.rs:405-563 | After a conflict that the local file won, up to the next announcement or deletion, the file is what the local side makes of it and the baseline is as before |
| LaterEdits.VersionIsReceived | src/apply.rs:221-376 | A version to which the local side gives way is received in full and unreported, mixed with anything on other paths |
| LaterEdits.LaterOneWins | src/apply.rs:405-563 | When a complete version meets an edited file, in the end the file is the local one if that was written later, and the remote content otherwise; a conflict is reported exactly in the first case |
| LaterEdits.NextVersionIsReceived | src/apply.rs:221-563 | After a version that lost, and its content, the next one that meets no conflict is received in full |
| ChangeApplier.ChangeApplier.constructor | src/apply.rs:32-42 | No baselines, no transfers, nothing blocked |
| ChangeApplier.ChangeApplier.DetectConflict | src/apply.rs:164-219 | The nested tests report a conflict exactly when the file differs from remote content and baseline and does not give way, with both hashes and sizes |
| ChangeApplier.ChangeApplier.PrepareTransfer | src/apply.rs:221-276 | Opens the transfer, or writes the empty file at once; only this path's slot changes |
| ChangeApplier.ChangeApplier.TryCommitTransfer | src/apply.rs:298-376 | The target is replaced exactly when size and digest are the announced ones |
| ChangeApplier.ChangeApplier.WriteDirectChunk | src/apply.rs:378-403 | Writes into the target, truncating at offset 0, and makes the result the baseline |
| ChangeApplier.ChangeApplier.WritePendingChunk | src/apply.rs:278-296 | Writes into the temporary file and commits if complete, or directly without a transfer |
| ChangeApplier.ChangeApplier.KeepBothPath | src/apply.rs:566-596 | The loop finds the first free copy name |
| ChangeApplier.ChangeApplier.ApplyMetadata | src/apply.rs:411-497 | Conflict resolution and transfer together are one delivery of the model, with the conflict that is reported |
| ChangeApplier.ChangeApplier.RemoveFile | src/apply.rs:499-515 | Target, temporary file and all records of the path are gone |
| ChangeApplier.ChangeApplier.RemoveDir | src/apply.rs:528-543 | All records at or under the directory are gone and so is everything under it; a regular file standing there stays, and makes the call fail |
| ChangeApplier.ChangeApplier.ApplyEvent | src/apply.rs:405-563 | Applying one event is one delivery of the model, with its failure or its conflict |
| Watcher.TrackerRemembersLast | src/watcher.rs:26-285 | After any notes the tracker knows of each path exactly what was said about it last |
| Watcher.DroppedIffRepeated | src/watcher.rs:245-285 | Over every history of notes a report is dropped if and only if it is a create or modify that repeats what was said last; deletions, directories, content and heartbeats are always passed on |
| Watcher.NoEcho | src/watcher.rs:223-272 | After a remote announcement was noted, reports with its hash and size are dropped, over any notes about other paths, and dropping them changes nothing |
| Watcher.FsWatcher.constructor | src/watcher.rs:32-36 | Nothing is known |
| Watcher.FsWatcher.Check | src/watcher.rs:54-59 | Known, and known to differ |
| Watcher.FsWatcher.RecordAppliedEvent | src/watcher.rs:223-243 | Updates the tracker as the model's note does |
| Watcher.FsWatcher.ShouldEmit | src/watcher.rs:246-285 | Passes a report on exactly when it says something new, and records it |
| Watcher.QuietMeansUnchanged | src/watcher.rs:540-556 | A run of quiet polls all saw one and the same size and time |
| Watcher.WaitForStable | src/watcher.rs:500-567 | Returns at the first poll at which the file has been quiet long enough, with its size then, or gives up at the first poll past the limit; polls that fail restart the quiet time |
| Watcher.SettledIffQuiet | src/watcher.rs:505-560 | A file is settled at a poll if and only if it was found unchanged by the last `m` polls, for some `m` of at least ten polls and two seconds |
| Watcher.StableMeansQuiet | src/watcher.rs:500-567 | Then the last `m` polls succeeded with one size and time, and `m` intervals are at least ten intervals and at least two seconds |
| SyncModel.ArrivalsAppend | src/sync.rs:330-377 | What is applied from two pops is what is applied from their frames together |
| SyncModel.StepFollows | src/sync.rs:325-377 | Every step of either instance keeps the receiver's directory equal to its old one changed by the applied events, path by path |
| SyncModel.ReceiverFollows | src/sync.rs:325-377 | So does every run |
| SyncModel.AppliedIsPrefix | src/sync.rs:325-377 | The applied events are the first of those pushed for the receiver, and all of them once everything is popped |
| SyncModel.EndToEnd | src/sync.rs:325-377 | If the events pushed for a path are streams of versions, the receiver's file is at every moment of every run the original or one whole version, and ends as the last complete one, with nothing pending if that is the last |
| SyncModel.OverlayIsLast | src/sync.rs:312-323 | The overlaid directory holds at each path the version sent last |
| SyncModel.CompleteHistorySettles | src/apply.rs:298-376 | After versions of which the last is complete no transfer is pending |
| SyncModel.DirectoryReplication | src/sync.rs:312-377 | Whatever files are streamed, with directory announcements and heartbeats in between, once everything is popped the receiver's files are exactly its old ones overlaid with them, and none of their transfers is pending |
| SyncEngine.OnlyAppliedIsArrivals | src/sync.rs:330-350 | Decoding first and filtering afterwards gives the applied envelopes of the model |
| SyncEngine.HandleAllIs | src/sync.rs:346-367 | After a batch the three records are: the applier run over the events, the tracker told of those without conflict or failure, the suppressed paths with all of theirs |
| SequenceNumbers.StepStaysInStep | src/sync.rs:93-102 | Every step of either instance keeps the counters in the frames equal to those handed out but for the missing ones |
| SequenceNumbers.HandedIsExact | src/sync.rs:93-102 | That sequence is strictly increasing and holds every counter of the session that is not missing |
| SequenceNumbers.CountersOfOneSession | src/sync.rs:93-102 | Over every run in which the sender goes on with one session, the counters the receiver got are the first of those, and once everything is popped a counter is absent if and only if no attempt with it was accepted |
| SequenceNumbers.RestartRepeatsCounter | src/sync.rs:80-84 | A run in which the sender's process starts again and the receiver gets counter 1 twice |
| SequenceNumbers.IncreasingIffNoRestart | src/sync.rs:80-102 | Counters increase in every run if and only if no sender begins a new session while the receiver stays registered |
| SequenceNumbers.ToldIsAccepted | src/sync.rs:330-350 | What the other one will apply is exactly what was accepted, whatever it pushes itself, until it registers again |
| SequenceNumbers.RunIsHistory | src/sync.rs:325-377 | A run of the system is a history of the ring |
| SyncEngine.SyncEngine.constructor | src/sync.rs:45-91 | Registers the instance, whatever was pushed before, counts from 0 and chooses the chunk size: 16 384 bytes, a quarter of the ring or 4 194 304 bytes, by capacity |
| SyncEngine.SyncEngine.Push | src/sync.rs:93-102 | Takes the next counter and the time, and tries as often as the clock and the lock allow, every time with that one frame, as a stamped legal run next to whatever the peer does; the event counts as sent if and only if it was accepted |
| SyncEngine.SyncEngine.Interlude | src/sync.rs:325-328 | Whatever the peer does in between is a run that leaves this instance's record alone |
| SyncEngine.SyncEngine.InterludeAndDrain | src/sync.rs:325-328 | A drain, with the local modification times of that moment, ends a batch of eight, or fails for want of the lock and leaves it as it was |
| SyncEngine.SyncEngine.PushAndMaybeDrain | src/sync.rs:104-110 | A push, and, if asked for, a drain only after an accepted one, extending the run of the system; the event counts as sent even if the drain fails |
| SyncEngine.SyncEngine.HandleRemoteEvents | src/sync.rs:330-377 | The loop handles exactly the applied envelopes, in order, and a peer's heartbeat brings it back online |
| SyncEngine.SyncEngine.DecodeFrames | src/shm.rs:522-555 | Frames that decode to nothing are skipped, the others kept in order |
| SyncEngine.SyncEngine.PopEnvelopes | src/sync.rs:325-328 | What is popped, decoded, is what this instance is owed; without the lock nothing is popped |
| SyncEngine.SyncEngine.DrainRemoteEvents | src/sync.rs:325-328 | Popping, decoding and applying are one reception of the system model, with the notes the tracker takes; without the lock the call fails and the ring, the applier, the tracker and the other records stay as they were |
| SyncEngine.SyncEngine.CheckPeerAlive | src/sync.rs:297-310 | A peer silent for more than 15 s is declared offline once, and evicted unless the lock is not obtained |
| SyncEngine.SyncEngine.PushChunks | src/sync.rs:189-224 | Exactly the pieces that the reads give are pushed, in order, all of them on success, with a drain behind every eighth; the counter tells which push or drain ended it |
| SyncEngine.SyncEngine.StreamContent | src/sync.rs:189-229 | Whatever the refusals, retries and moves of the peer, exactly the pieces that the reads give are sent, in order, all of them on success, never more than eight between two drains; a run that ends refused met a refusal, and one that ends `Busy` did not get the lock for the next chunk, for the drain behind the last eight, or for the one at the end |
| SyncEngine.SyncEngine.PushWithContentInner | src/sync.rs:120-239 | Nothing is sent, or the announcement, corrected to the hash and size found now, with the first pieces of what was found afterwards, all of it on success; the tracker is told of the announcement before the content goes out; a report without readable content goes out as it stands |
| SyncEngine.SyncEngine.PushWithContent | src/sync.rs:112-114 | Until it registers again the peer is told exactly that; next to a peer that keeps up, with `9 * f + 4 <= cap`, the call succeeds if the lock is always obtained |
| SyncEngine.SyncEngine.InitialSync | src/sync.rs:312-323 | Everything the scan found is sent, item by item and in order, up to the first failure; the peer is told exactly that, and the tracker of every file announced; next to a peer that keeps up all of it is sent if the lock is always obtained |
| Outgoing.Pieces | src/sync.rs:196-216 | The pieces that the reads give are non-empty and add up to the content |
| Outgoing.FullReadsCutEvenly | src/sync.rs:196-216 | If every read fills the buffer, all pieces but the last have the chunk size |
| Outgoing.StreamGoesOn | src/sync.rs:201-216 | One more read and push keep the pieces, the offset and the events told in step |
| Outgoing.ItemTells | src/sync.rs:120-221 | A report of a created or modified file that can be read tells an announcement with the hash and size found, and the content; every other report goes out as it stands |
| Outgoing.ItemIsStream | src/sync.rs:159-229 | If the first bytes of what was hashed are what is found, up to a read error or not at all, the item tells the peer a stream of that content, complete if and only if all was found and sent |
| Outgoing.IntactItemsSpellFiles | src/sync.rs:312-323 | Items of which each was found as it was hashed tell the peer of their files, streamed one after the other, with the directories in between |
| Arrival.HistoryIsRun | src/sync.rs:325-377 | Every legal history in which an instance is neither removed nor registers again is a run as that instance sees it |
| Arrival.FileIsThere | src/apply.rs:221-376 | From any slot at all, the streams of any files make of a path the content sent last and leave nothing pending, or leave its slot alone if none of them is for it |
| Arrival.SentFilesArrive | src/sync.rs:120-377 | Whatever the peer pops and pushes while an engine's run is going on: once it has popped everything, at the latest with one more pop, its directory is what it would have held had it popped just before the run, overlaid with the files sent, with none of them pending and all other paths' records unchanged |
| Arrival.DirectoryArrives | src/sync.rs:312-377 | The same for the run of `InitialSync` that ends in success |
| Conduct.PushConducts | src/shm.rs:366-467 | All attempts of one push together are a stamped run of the system |
| Conduct.PushIsReadBack | src/sync.rs:93-102 | The frame of an accepted push is behind all others for the peer and is read back as the event with its counter and time |
| Conduct.ConductsMore | src/sync.rs:186-229 | The runs of consecutive methods compose, and a refusal in a part is one in the whole |
| Conduct.KeptUpIsSmooth | src/sync.rs:186-229 | A run of the engine next to a peer that keeps up meets no refusal |
| Conduct.ToldAtEnd | src/sync.rs:330-350 | After such a run the peer is told exactly what was accepted |
| Conduct.RunIsOver | src/sync.rs:120-239 | A run from one drain on told the peer what was accepted, unless it registered again, and was not refused next to a peer that kept up |
| WireFormat.FormatIsLossless | src/shm.rs:363-364 | Every envelope is read back from what was written |
| Host.FormatFitsChunks | src/sync.rs:66-67 | With that format every chunk fits its frame under every 64-bit counter, time and offset |
| Host.FormatFitsItem | src/sync.rs:312-323 | So does every announcement of a directory or file whose path and hash leave room |
| Host.SendDirectory | src/sync.rs:45-91 | From the creation of the segment to the end of the first scan: the engine's demands are met, its first events are those of the items that were sent, and that is all of them if the lock is always obtained and the peer keeps up |
| Reception.SuppressedIffNamed | src/sync.rs:334-350 | The paths suppressed by a batch are exactly those that foreign events, heartbeats aside, name |
| Reception.OnlyPeerHeartbeatsCount | src/sync.rs:334-344 | Exactly the heartbeats of the peer end its being offline, wherever they stand; one's own do not |
| Reception.DeletedIsForgotten | src/sync.rs:352-367 | After any batch whose last event about a path is a deletion that succeeds, the watcher does not know the path and passes on what is found there next |
| Reception.FailedIffStillThere | src/apply.rs:528-543 | The deletion of a directory fails, and is not noted, exactly if a file is still there |
| Reception.ConflictIsNotNoted | src/sync.rs:352-363 | An announcement that is reported as a conflict leaves the watcher's knowledge alone |
| Reception.AcceptedIsNoted | src/sync.rs:352-363 | After every other announcement the watcher knows its hash and size |
| Reception.DeletedIsGone | src/apply.rs:499-543 | In a directory without conflicts, after any run whose last event about a path deletes it, neither the file nor any record of it is left |
| Reception.DirectoryIsGone | src/apply.rs:528-543 | What is under a deleted directory is gone, what is at or under it is forgotten, everything else is as before |
| EchoFreedom.KnowledgeIsLocal | src/sync.rs:352-367 | Without local edits what the tracker knows of a path after a batch that does not delete it is decided by the events touching the path, each of which reaches it |
| EchoFreedom.LastAnnounced | src/watcher.rs:223-243 | After a history of versions the tracker knows the version announced last |
| EchoFreedom.ReceivedIsNotReported | src/sync.rs:352-367 | After batches that end a path with a complete version the file is that version, and a local report is passed on if and only if its hash or size differs from the file's |

## Left out

- Transport.ShmTransport.PopEvents: says nothing of a pop whose loop is led behind the end of the ring, which only an overrun reader can meet (`RingReads.PopReturnsUnlessOutside`); such a pop is no operation of a history.
- Transport.ShmTransport.TryPush: rings above `0x8000_0003` bytes are excluded, where the decision of `CheckRoom` can go wrong and what would be written then is not modelled.
- Transport.ShmTransport.PushEvent: the same rings are excluded.
- Transport.ShmTransport.PeerMoves: the peer does not evict this instance in between.
- SyncEngine.SyncEngine.constructor: a registration that fails to get the lock gives no engine and is left out.
- SyncEngine.SyncEngine.PushWithContentInner: of the notes that the tracker takes meanwhile only the one about the announcement is named; the others are those of its drains.
- SyncEngine.SyncEngine.Push: a counter that reaches 2^64 is excluded.
- Transfers.PartsInAnyOrder: assumes that no other content of the same size has the content's digest, without which a wrong temporary file could be committed.
- RingBounds.BurstBoundIsExact: frames of four bytes, which carry no payload, are covered by the sufficient half `RingBounds.BurstAccepted` only.
- EchoFreedom.ReceivedIsNotReported: deletes are not claimed to be echo-free, because the tracker does not drop them.
- Payloads of 2^32 - 4 bytes and more, whose length the source truncates.
- Histories in which an instance registers twice: the ring layer covers them, its bodies as atomic steps; that they are atomic is proved for one session of each instance.
- Rings above `0x8000_0003` bytes beyond the fact that their decisions go wrong.
- Shared-memory creation and opening, names of segments, raw pointers and memory fences; steps are sequentially consistent.
- The number of spins before giving up: an instance may give up at any time.
- The formats of bincode and blake3; heartbeats are decoded and skipped, when they are sent is not modelled.
- Directories as objects of their own, symbolic links, path-escape checks, a directory standing at a copy name, and failing file operations other than the removal of a directory where a file stands.
- Prefix conflicts between a file and a directory of the same name.
- The translation of notifications, debouncing, the walk of the initial scan, waiting for the peer before it, the seeding of the tracker, the guess whether a removed path was a file, and the loop that drops local reports for suppressed paths.
- The command line, logging and shutdown.
