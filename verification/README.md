# The EHUB xHCI driver, modelled and proved in Dafny

This project models the host-controller driver of an xHCI host that is reached over USB, and
proves what its hardest parts rely on. `dafny verify dfyconfig.toml` checks all of it.

What is modelled, module by module:

- **Trbs, Laps, Growth, Segments, Splice, Rings** - transfer and command rings. A ring is a
  circle of 64-slot segments closed by Link TRBs (`Segments`); laid out in ring order it is a
  tape (`Laps`) on which a producer writes and a consumer follows cycle bits. `Rings.Ring` is the
  driver's object with its own fields; every method is tied to a step on the tape. `Growth` and
  `Splice` are live expansion.
- **Runs, Witness** - all interleavings of queueing, publishing, link hand-over, expansion,
  fetching, reclaiming and Set TR Dequeue Pointer, and runs that reach the states in which an
  expansion or a cancellation goes wrong.
- **Recovery, Cancel** - the search for a new dequeue state, its completion, retiring a TD, and
  rewriting a cancelled TD into no-ops.
- **Mirror, CacheCopy, CachedRuns, CacheBlocks, IsocData** - the on-chip copy of ring segments,
  the copy loop, the block allocator, and isochronous OUT data kept on chip.
- **Splitting, Submission, ActualLength** - cutting buffers into TRBs, submitting a bulk transfer
  on a ring object, and the length a transfer event accounts for.
- **Completion, Watchdog, Commands** - who still owes which URB, the Stop Endpoint watchdog, and
  the command list beside the command ring.
- **Bandwidth, Reservation** - the periodic interval table and the try/rollback transaction.
- **TrbInTd, Ports, Lists** - which segment of a TD holds an address, the split roothub's port
  numbers, and kernel lists as sequences.

How to read the ring part: `Inv` is the invariant of producer and consumer, `Queue` what the
controller has been given and not taken, `Building` the TD whose first TRB is still withheld. A
class method says `Model() == F(old(Model()))` for a step `F` on the tape; what `F` means for the
controller is proved about `F`.

## What turned out not to hold

Each of these has an exact condition and a lemma that shows the failure.

- **Expansion behind a drained segment.** If enqueue rests on a link and dequeue already stands at
  the head of the following segment, an expansion puts the new segments between the two and the
  free count no longer adds up: `Growth.AccountingIffNotDrained`, reached by
  `Witness.DrainedIsReached`.
- **Expansion under a lingering controller.** If the controller still stands on the link of the
  segment that enqueue has come round to, it follows the re-pointed link into blank slots and takes
  them for its own: `Growth.ViewIffNotLingering`, reached by `Witness.LingeringIsReached`. Both
  cases need dequeue at the head of the segment behind enqueue's, which the driver could check
  before it splices (`Growth.SafeUnlessDequeueFollows`). `PrepareRing` and `QueueBulkTx` therefore
  ask for `SafeToGrow` when an expansion is needed.
- **No-op cancellation on cached rings.** `td_to_noop` queues no cache write, so the controller
  goes on to perform the cancelled TD from the device copy unless it held no transfer:
  `Cancel.NoopMissesTheCopy`, with an input in `Witness.CancelledIsPerformed`.
- **Empty scatter-gather transfers.** With a first entry on a 64 KB boundary no TRB is counted and
  one is queued: `Splitting.QueueSg`.
- **Isochronous counting.** TRBs are counted from `transfer_dma` and cut from `transfer_buffer`;
  the lengths add up exactly when the buffer address would not have counted more:
  `Splitting.IsocExact`.
- **Cached isochronous data.** The device address is right exactly when the buffer is aligned to a
  block: `IsocData.RightIffAligned`.
- **A lost Stop Endpoint command.** The timer is armed before the command is queued and the outcome
  is not looked at; if queueing fails the host is declared dying without having been asked:
  `Watchdog.LostCommandKills`. A death is justified exactly when the endpoint's last command was not
  lost (`Watchdog.DyingIsJustifiedIff`), and an unjustified one lies ahead exactly when it was
  (`Watchdog.UnjustifiedIffLost`).
- **Devices of unknown speed in the bandwidth table.** Totals are charged and never taken back:
  `Reservation.DropUndoesAddIff`.
- **Protocol capabilities of revision 0.** They count ports they do not mark:
  `Ports.AddInMatchesIff`.

Two conditions turn out to be met by everything the driver does. `ehub_trb_in_td` is wrong for a TD
that wraps into its first segment (`TrbInTd.ExactIffNotWrapped`), but the room kept in front of
dequeue never lets a live TD do so (`TrbInTd.ExactForLiveTds`). An expansion of a cached ring also
needs a `cache_enqueue` that does not linger (`Mirror.GrowMirrorsIff`), and between two TDs, where
`prepare_ring` is called with the count of a whole transfer, it never does
(`CachedRuns.ExpandBetweenTds`).

## What callers are assumed to do

- Transfer rings have at least two segments, and no cache write fails part way through linking or
  copying; cache writes are carried out in order.
- A Stop Endpoint command completes for a command that was sent; a command completion names a
  command the controller has executed; an URB is unlinked once.
- An endpoint that is added to a configuration without being dropped is not listed in the bandwidth
  table, and intervals lead to one of the 16 slots.
- A transfer is shorter than 2 GB and a residual has 24 bits.

## Model

| member | source | states |
|---|---|---|
| `Laps.OwnedIffQueued` | src/xhci-ring.c:24-66 | a consumer in a lawful state owns the TRB it stands on exactly when it has not reached the place where the driver makes it stop |
| `Laps.TakesExactlyTheQueue` | src/xhci-ring.c:24-66 | left alone, a consumer obeying cycle bits takes exactly the published TRBs in order and then none: never a stale slot |
| `Laps.AdvanceKeeps` | src/xhci-ring.c:24-66 | a consumer step, following a link and toggling where the link says so, keeps the ring invariant |
| `Laps.PassLinkKeeps` | src/xhci-ring.c:298-336 | handing over a link and moving to the next segment keeps the invariant and shows the consumer no new TRB |
| `Laps.PutKeeps` | src/xhci-ring.c:281-337 | queueing one TRB, with the link behind it passed or left, keeps the invariant: cycle bits per lap, free count plus occupied slots, consumer never overtaken |
| `Laps.PutQueue` | src/xhci-ring.c:2940-2952 | a TRB carrying the cycle state joins the consumer's queue if no TD is being built; while one is, the consumer's view does not change and the TD grows by that TRB |
| `Laps.PutWrites` | src/xhci-ring.c:281-337 | queueing a TRB writes it under enqueue and, where it crosses a link, inverts the link's cycle bit and gives it the TRB's chain bit unless the hardware wants that left alone; pointer and toggle stay, and no other slot changes |
| `Laps.OnwardWrites` | src/xhci-ring.c:3014-3062 | handing over the link under enqueue changes that link only: cycle bit inverted, chain bit as asked for |
| `Laps.PutChains` | src/xhci-ring.c:314-323 | on hardware without the link quirk every link a TD under construction has crossed is chained |
| `Laps.ReleaseKeeps` | src/xhci-ring.c:3186-3198 | writing the first cycle bit appends the whole TD to the queue in one step and keeps the invariant |
| `Laps.ReclaimKeeps` | src/xhci-ring.c:232-262 | giving up a slot the controller has passed keeps the invariant and the room in front of dequeue, and changes nothing but dequeue and the free count |
| `Laps.WorkCountIsLength` | src/xhci-ring.c:343-383 | the arithmetic count of slots between two positions is the number of TRBs there that are not links |
| `Growth.GrowLawful` | src/xhci-mem.c:169-203 | after any splice the cycle bits keep their meaning, the ring has one toggling link, and a controller at its moved position holds the right cycle state |
| `Growth.AccountingIffNotDrained` | src/xhci-mem.c:169-203 | after an expansion the free count plus the occupied slots is again 63 per segment less one, if and only if the ring was not drained with enqueue on the link in front of dequeue |
| `Growth.ViewIffNotLingering` | src/xhci-mem.c:490-537 | an expansion leaves what the controller has been given unchanged if and only if the controller does not linger on the link of enqueue's segment |
| `Growth.QueueWhenLingering` | src/xhci-mem.c:490-537 | a controller that lingers acts on every blank slot of the new segments before it reaches its queue |
| `Growth.LingersOnTheLink` | src/xhci-ring.c:343-383 | on a transfer ring the only way to linger is to stand on the link itself with dequeue at the head of the following segment |
| `Growth.EnqueueNotBehindDequeue` | src/xhci-ring.c:360-383 | on a transfer ring enqueue never stands behind dequeue in dequeue's own segment |
| `Growth.SafeUnlessDequeueFollows` | src/xhci-mem.c:490-537 | if dequeue is not at the head of the segment behind enqueue's, neither failure of an expansion can occur |
| `Growth.GrowKeeps` | src/xhci-mem.c:490-537 | otherwise an expansion keeps invariant, room, the controller's queue and the TD under construction |
| `Growth.SecondGrowthIsSafe` | src/xhci-ring.c:2991-3012 | after one expansion a second one is always safe |
| `Segments.NextIsNext` | src/xhci-ring.c:215-226 | the driver's walk through `next` and the controller's walk through Link TRB pointers reach the same slot, which is the next one on the tape |
| `Segments.StoreCircle` | src/xhci-ring.c:2940-2952 | storing a TRB of the same kind through a pointer keeps the circle of segments and changes exactly one slot of the tape |
| `Splice.SplicedOk` | src/xhci-mem.c:118-203 | re-linking enqueue's segment to the new ones and the last new one to the old successor gives one circle again, with every pointer still on it and one toggling link |
| `Splice.SplicedGrew` | src/xhci-mem.c:169-203 | seen as a tape, the spliced ring is the old one with blank, producer-owned slots inserted behind enqueue's segment |
| `Splice.FreshOk` | src/xhci-mem.c:343-434 | freshly allocated and linked segments form a circle whose slots all belong to the driver, with nothing queued |
| `Rings.Ring.constructor` | src/xhci-mem.c:443-477 | a new ring of num segments is safe and empty, enqueue, dequeue and controller on the first slot, 63 x num - 1 slots free |
| `Rings.Ring.IncEnq` | src/xhci-ring.c:281-337 | the object after inc_enq is the tape step Put, including the link left for later when the TD ends in front of it; which slot holds what afterwards is stated slot by slot, with the link's chain and cycle bit |
| `Rings.Ring.QueueTrb` | src/xhci-ring.c:2940-2952 | the object after queue_trb is the tape step Put of the TRB, with the same statement slot by slot |
| `Rings.Ring.IncDeq` | src/xhci-ring.c:232-262 | the object after inc_deq is the tape step Reclaim: one slot freed unless dequeue stood on a link, links skipped |
| `Rings.Ring.GivebackFirstTrb` | src/xhci-ring.c:3186-3198 | the object after the first cycle bit is written is the tape step Release |
| `Rings.Ring.Fetch` | src/xhci-ring.c:24-66 | the controller, following link pointers in memory, makes the consumer step of the tape |
| `Rings.Ring.SegmentAlloc` | src/xhci-mem.c:40-72 | every slot of a new segment is zeroed and carries the complement of the cycle state |
| `Splice.LinkReroutes` | src/xhci-mem.c:118-163 | re-linking a segment of a live ring sends driver and controller from its link to the new target, leaves the way on from every other slot as it was, hands over no slot and keeps every toggle |
| `Rings.Ring.AllocSegments` | src/xhci-mem.c:373-434 | num new segments, each linked to the next and the last to the first, and no other segment touched |
| `Rings.Ring.LinkRings` | src/xhci-mem.c:169-203 | the two links are re-pointed, the toggle moves if enqueue's segment was the last, and the counts grow by num segments and 63 x num slots |
| `Rings.Ring.EnoughSegments` | src/xhci-mem.c:490-513 | an expansion adds as many segments as there are, or as many as the slots asked for take if that is more, and not one more |
| `Rings.Ring.NeededIs` | src/xhci-ring.c:360-383 | nothing is missing exactly when the TRBs fit, on a transfer ring together with the part of dequeue's segment behind dequeue; otherwise how much is missing |
| `Rings.Ring.RingExpansion` | src/xhci-mem.c:490-537 | fails exactly when memory for max(segments, needed) new segments is missing and then changes nothing; otherwise both views of the ring are those of the splice |
| `Rings.Ring.NeededShrinks` | src/xhci-ring.c:360-383 | after an expansion by what was needed at most dequeue's index is missing, after a second one nothing |
| `Rings.Ring.AskedShrinks` | src/xhci-ring.c:2991-3012 | the segments to be asked for before num_trbs TRBs fit are those of the next expansion plus those still to be asked for after it |
| `Rings.Ring.GrowOnce` | src/xhci-ring.c:2991-3012 | one round of expansion keeps the ring safe, the controller's queue and the TD under construction, and leaves it safe to grow again |
| `Rings.Ring.MakeRoom` | src/xhci-ring.c:2991-3012 | the loop ends after at most two expansions; it makes room for num_trbs exactly when the segments to be asked for can be had, or nothing is missing on the command ring; without an expansion nothing changes |
| `Rings.Ring.PrepareRing` | src/xhci-ring.c:2958-3063 | succeeds exactly when the endpoint state allows it and the memory for the missing segments is there, is out of memory exactly when only the memory is lacking; on success there is room for num_trbs, enqueue is on an ordinary slot, and without an expansion at most the link under enqueue has been handed over, chained exactly on quirky hardware; the controller's queue and a TD under construction are unchanged in every case |
| `Rings.Ring.PrepareCommandRing` | src/xhci-ring.c:2991-3062 | on the command ring: succeeds exactly when num_trbs slots are free, and then at most hands over the link under enqueue |
| `Runs.StepKeeps` | src/xhci-ring.c:232-337 | every step of driver or controller keeps: nothing published is lost, repeated or reordered |
| `Runs.StepDoes` | src/xhci-ring.c:232-337 | what every event does, from the state before it: the slots written, the pointers and the free count moved, and what joins the published, the withheld and the passed TRBs |
| `Runs.RingIsFifo` | src/xhci-ring.c:24-66 | over every run, what the controller has passed followed by what it would take if left alone is what was published, in order, and neither log is rewritten |
| `Witness.DrainedIsReached` | src/xhci-mem.c:490-537 | a segment's worth of traffic on a new two-segment ring leads to the state in which any expansion breaks the free count |
| `Witness.LingeringIsReached` | src/xhci-mem.c:490-537 | another lap leads to the state in which any expansion changes what the controller will act on |
| `Witness.CancelledIsPerformed` | src/xhci-ring.c:635-685 | on a new cached ring, one TD queued, published and then rewritten into no-ops is still performed from the copy |
| `Recovery.JumpLawful` | src/xhci-ring.c:540-613 | moving the controller forward inside its queue drops exactly the TRBs jumped over |
| `Recovery.Search` | src/xhci-ring.c:540-613 | the search terminates and finds the later of the controller's pointer and the slot behind the TD, with the cycle state flipped if the way wraps; it fails exactly when a pointer is not on the ring or the walk comes back to dequeue |
| `Recovery.FindNewDequeueState` | src/xhci-ring.c:540-613 | the same on the ring object |
| `Recovery.NewDequeueIsJump` | src/xhci-ring.c:540-613 | with controller and TD between dequeue and enqueue, the search succeeds, lands behind the TD and not behind the stop, and gives the cycle state a consumer would hold there |
| `Recovery.CatchUp` | src/xhci-ring.c:1005-1050 | dequeue reaches the queued pointer and the free count grows by the ordinary slots passed |
| `Recovery.UpdateRingForSetDeqCompletion` | src/xhci-ring.c:1005-1050 | the same on the ring object; nothing else changes |
| `Recovery.CaughtUpIsRetired` | src/xhci-ring.c:1005-1050 | for a pointer on the live span the walk restores exactly the free-slot accounting |
| `Recovery.RetireToKeeps` | src/xhci-ring.c:1005-1050 | moving dequeue to the controller keeps invariant, room and queue, unless the controller is one link behind dequeue |
| `Recovery.SkipTd` | src/xhci-ring.c:540-613 | search, Set TR Dequeue Pointer and its completion in a row: dequeue and controller end on the same slot behind the TD, exactly the TRBs jumped over are gone from the controller's queue, and the ring is safe |
| `Recovery.RetireTd` | src/xhci-ring.c:1980-1984 | the loop over inc_deq ends behind the TD's last TRB with the invariant kept and the controller's queue untouched |
| `Cancel.NoopKeepsRing` | src/xhci-ring.c:635-685 | every cycle bit, link pointer and toggle survives the rewriting, and so does the ring invariant |
| `Cancel.NoopErasesTd` | src/xhci-ring.c:635-685 | a consumer of host memory performs the same transfers minus exactly those of the rewritten TD |
| `Cancel.NoopedSlot` | src/xhci-ring.c:644-672 | slot by slot: links of the TD only lose their chain bit, its other TRBs become no-ops with nothing but their cycle bit, no other slot changes |
| `Cancel.Rewrite` | src/xhci-ring.c:635-685 | the loop rewrites exactly the slots from first to last TRB and keeps the circle |
| `Cancel.TdToNoop` | src/xhci-ring.c:635-685 | the same on the ring object |
| `Cancel.NoopMissesTheCopy` | src/xhci-ring.c:635-685 | on a cached ring the controller performs what host memory shows after the rewriting if and only if the TD held no transfer |
| `Mirror.DeviceTakesTheQueue` | src/xhci-ehub.c:1093-1205 | a controller reading only the device copy takes exactly what host memory has published |
| `Mirror.FetchMirrors` | src/xhci-ehub.c:1093-1205 | a fetch from the copy is a fetch from host memory |
| `Mirror.StopsAgree` | src/xhci-ehub.c:1093-1205 | the copy makes the controller stop exactly where host memory does |
| `Mirror.WriteMirrors` | src/xhci-ring.c:2940-2952 | queueing in the middle of a TD leaves the device copy valid without writing it |
| `Mirror.LeaveLinkMirrors` | src/xhci-ring.c:3041-3057 | writing a handed-over link to the device at once keeps the copy valid |
| `Mirror.PublishShowsAll` | src/xhci-ring.c:3200-3208 | after publication the device copy equals host memory on every slot from dequeue to enqueue and is valid for the controller |
| `Mirror.GrowMirrors` | src/xhci-mem.c:118-163 | expanding a cached ring keeps the copy valid if neither the controller nor cache_enqueue lingers on the re-pointed link |
| `Mirror.GrowMirrorsIff` | src/xhci-mem.c:118-163 | an expansion keeps both the copy's validity and the controller's queue if and only if neither of the two lingers |
| `Mirror.LingersOnlyMidTd` | src/xhci-ehub.c:1093-1205 | on a ring of two or more segments cache_enqueue can only linger while a TD is under construction |
| `Mirror.GrowHeld` | src/xhci-mem.c:490-537 | an expansion keeps the agreement of copy and host memory from dequeue to the controller |
| `CacheCopy.FindPrevTrb` | src/xhci-ehub.c:1071-1091 | the search through `next` finds the slot in front of a given one |
| `CacheCopy.CopyFromRing` | src/xhci-ehub.c:1093-1205 | the loop terminates; each write stays inside one segment's block, only the last asks for the doorbell, and together they copy exactly the slots from cache_enqueue to enqueue, crossed links included |
| `CachedRuns.ExpandBetweenTds` | src/xhci-ring.c:2991-3012 | between two TDs an expansion of a cached ring is allowed exactly when it is on a ring without copy |
| `CachedRuns.ExpandWrites` | src/xhci-mem.c:118-203 | an expansion sends to the device the re-pointed link and the new slots, no toggle among the new ones, and leaves the rest of the copy |
| `CachedRuns.CachedStepKeeps` | src/xhci-ehub.c:1093-1205 | every cancellation-free step keeps the device copy in agreement with what has been published, and with host memory from dequeue on |
| `CachedRuns.CachedStepRefines` | src/xhci-ehub.c:1093-1205 | every step of a cached ring is a step of the ring without copy |
| `CachedRuns.CachedRunRefines` | src/xhci-ehub.c:1093-1205 | every cancellation-free run of a cached ring is a run of the ring without copy and ends in the same state |
| `CachedRuns.DeviceIsFifo` | src/xhci-ehub.c:1093-1205 | over every cancellation-free run a controller reading nothing but the device copy sees a FIFO of what was published |
| `CachedRuns.NewMirrors` | src/xhci-mem.c:373-434 | the copy of a newly allocated ring, in which no link toggles yet, is valid |
| `CachedRuns.NewDeviceIsFifo` | src/xhci-mem.c:443-477 | every cancellation-free run from a newly allocated cached ring is such a FIFO |
| `CacheBlocks.BlocksDisjoint` | src/xhci-ehub.c:743-759 | the 128 block address ranges are pairwise disjoint and inside the cache |
| `CacheBlocks.TakeKeeps` | src/xhci-ehub.c:836-845 | handing out the first free block keeps: every block on exactly one list, counters equal to lengths, one owner per used block, everybody's data intact |
| `CacheBlocks.ReleaseKeeps` | src/xhci-ehub.c:1003-1025 | taking a segment's block back keeps the same |
| `CacheBlocks.FreeOneKeeps` | src/xhci-ehub.c:1039-1048 | each turn of freeing an URB's blocks keeps the same |
| `CacheBlocks.FreeAllIs` | src/xhci-ehub.c:1027-1053 | freeing by URB returns exactly its blocks, in order, and doing it twice is doing it once |
| `CacheBlocks.SegmentWriteKeeps` | src/xhci-ehub.c:1093-1205 | a write into a segment's own block leaves the data of every URB in place |
| `CacheBlocks.WrittenMore` | src/xhci-ehub.c:974-996 | writing chunk i into block i extends the bytes the device holds |
| `CacheBlocks.Allocator.constructor` | src/xhci-ehub.c:743-759 | the initial lists satisfy the invariant |
| `CacheBlocks.Allocator.AllocateSegment` | src/xhci-ehub.c:857-916 | succeeds exactly when a block is free and the write works, and then exactly the first free block has moved to the end of the used list and belongs to a segment; after a failed write only the order of the free list has changed |
| `CacheBlocks.Allocator.FreeBlock` | src/xhci-ehub.c:1003-1025 | exactly this block leaves the used list and joins the end of the free list, the counters follow, and the invariant holds |
| `CacheBlocks.Allocator.FreeByUrb` | src/xhci-ehub.c:1027-1053 | the loop frees what the URB holds, as FreeAll says |
| `CacheBlocks.Allocator.AllocateUrb` | src/xhci-ehub.c:918-1001 | succeeds exactly when enough blocks are free and no write fails; out of memory exactly when too few blocks are free, and then nothing changes; after a failed write every block taken is free again; on success the device holds all bytes of the transfer in the blocks recorded |
| `IsocData.AddressIs` | src/xhci-ehub.c:1230-1267 | without blocks the address is the buffer's own; with blocks it lies in the block that holds the byte |
| `IsocData.RightIffAligned` | src/xhci-ehub.c:1230-1267 | the device address computed for a byte is where it was stored if and only if the buffer starts on a block boundary |
| `IsocData.TrbReadsItsBytes` | src/xhci-ring.c:3885-3964 | for an aligned buffer every byte a TRB covers is found at the TRB's device address with the value written |
| `IsocData.QueuedTrbs` | src/xhci-ring.c:3731-3746 | when DMA and buffer address agree modulo the block size, the TRBs queued are those pieces |
| `Splitting.PiecesSound` | src/xhci-ring.c:3544-3604 | pieces are contiguous, none is empty or crosses a boundary, and their lengths sum to the request |
| `Splitting.PiecesCount` | src/xhci-ring.c:3494-3513 | the number of pieces is the number of units the buffer touches |
| `Splitting.PiecesMinimal` | src/xhci-ring.c:3494-3604 | no other split that respects the boundaries has fewer pieces |
| `Splitting.PiecesCover` | src/xhci-ring.c:3544-3604 | the pieces describe every byte of the buffer once, in order |
| `Splitting.CountBulkTrbs` | src/xhci-ring.c:3494-3513 | the loop counts one TRB for an empty transfer and otherwise the pieces |
| `Splitting.CountSgTrbs` | src/xhci-ring.c:3137-3168 | the loop counts the pieces of the first len bytes of the list; for an empty transfer one TRB unless the first entry is aligned |
| `Splitting.SgCover` | src/xhci-ring.c:3349-3457 | a scatter-gather transfer describes the first len bytes of the list, in order |
| `Splitting.SgSound` | src/xhci-ring.c:3349-3457 | none of its TRBs is empty or crosses a 64 KB boundary |
| `Splitting.QueueSg` | src/xhci-ring.c:3349-3461 | TRB i has address and length of piece i, is a normal TRB, has the chain bit exactly if it is not the last and interrupts exactly if it is, although both bits are decided by the count alone; check_trb_math finds the count right if and only if the transfer is not empty or its first entry is not aligned, and the bytes queued are the smaller of request and list |
| `Splitting.IsocCountIsPieces` | src/xhci-ring.c:3731-3746 | the rounded-up quotient counts the pieces of the TD, at least one |
| `Splitting.CutIsPieces` | src/xhci-ring.c:3885-3964 | with too few TRBs the end of the TD is lost, with too many the TD ends in empty ones |
| `Splitting.IsocExact` | src/xhci-ring.c:3731-3972 | the TRBs' lengths add up to the TD exactly when the buffer address would not have counted more TRBs; with equal residues the TRBs are the pieces |
| `Splitting.QueueIsocTd` | src/xhci-ring.c:3885-3972 | the same for the TRBs of that cut, of which the first alone is an isochronous TRB; an error is reported exactly when the buffer address would have counted more TRBs |
| `Submission.CuttingStep` | src/xhci-ring.c:3599-3604 | a later TRB's length, computed without looking at its address, is the piece's: behind the first TRB every address is a boundary |
| `Submission.QueuePiece` | src/xhci-ring.c:3544-3604 | one turn of the loop extends the TD by the right TRB while the controller's queue stays the same |
| `Submission.QueueTd` | src/xhci-ring.c:3544-3604 | the loop builds the whole TD behind a withheld first TRB: TRB i describes piece i, all but the last are chained, the last alone interrupts, and on hardware without the link quirk every link crossed is chained |
| `Submission.LaidOnRelease` | src/xhci-ring.c:3544-3608 | the TD just published lies on the ring from the TRB recorded as its first to the one recorded as its last, ahead of dequeue |
| `Submission.ReleaseChained` | src/xhci-ring.c:3186-3198 | publication leaves the links between first and last TRB chained |
| `Submission.Publish` | src/xhci-ring.c:3186-3198 | the saved cycle state is the one the first TRB is due, and the controller gets the whole TD at once |
| `Submission.QueueBulkTx` | src/xhci-ring.c:3466-3608 | succeeds exactly when the endpoint is ready and the memory for the missing segments is there; then the controller's queue has grown by exactly one TD, TRB i describing piece i, chained up to the last which alone interrupts, lying between its first and last TRB and chained through the links between them; otherwise the queue has not changed; the ring is safe either way |
| `ActualLength.SlowWalk` | src/xhci-ring.c:2328-2339 | the walk terminates with the 32-bit sum of the lengths between dequeue and event, no-ops and links left out |
| `ActualLength.DataOfOne` | src/xhci-ring.c:2328-2339 | a TRB counts with its length unless it is a link or a transfer no-op |
| `ActualLength.CancelledInFront` | src/xhci-ring.c:635-685 | cancelling what lies in front of a queued TD leaves the TD where it is and no data between dequeue and it |
| `ActualLength.SilentStays` | src/xhci-ring.c:635-685 | a stretch without data stays without, whatever is cancelled |
| `ActualLength.DataBefore` | src/xhci-ring.c:2328-2339 | for a TD laid by the queueing code that sum is the total of the pieces in front of the event TRB, whatever no-ops and links lie before the TD |
| `ActualLength.FastPath` | src/xhci-ring.c:2294-2326 | the last-TRB formula is the request less the residual, or nothing if that is impossible |
| `ActualLength.BulkActualLength` | src/xhci-ring.c:2249-2347 | with or without the walk, and after the last check on completion, the URB reports the bytes of the TD moved up to the event; for a stop, also what an impossible residual leads to |
| `Completion.LeaveKeeps` | src/xhci-ring.c:1986-2024 | a TD that is due leaving both lists keeps the bookkeeping of every URB |
| `Completion.CancelKeeps` | src/xhci.c:1394-1409 | putting an URB's remaining TDs on the cancelled list keeps it |
| `Completion.UnlinkKeeps` | src/xhci-ring.c:776-818 | taking every cancelled TD off the ring list keeps it |
| `Completion.GivebackKeeps` | src/xhci-ring.c:840-858 | giving back an unlinked TD keeps it |
| `Completion.DropKeeps` | src/xhci.c:1352-1371 | dropping an URB of a device that is gone keeps it, also between two turns of the Stop handler's give-back loop |
| `Completion.OnListIffNotDone` | src/xhci-ring.c:700-728 | the TDs of a live URB still on a list are exactly those from number td_cnt on: what is done is a prefix |
| `Completion.CountsAddUp` | src/xhci-ring.c:700-728 | td_cnt plus the TDs still on either list is the URB's length |
| `Completion.StepDoes` | src/xhci-ring.c:700-912 | what every event does, from the state before it: which TDs leave or join which list and in what order, which count goes up, and when an URB is given back |
| `Completion.GivenWhenAllDone` | src/xhci-ring.c:700-912 | over every run that does not drop it, a live URB is given back, once, exactly when as many of its TDs have been finished, given back or killed as it had left |
| `Completion.ExactlyOnce` | src/xhci-ring.c:700-912 | in every run of submissions, finishes, cancels, stops, deaths and kills, an accepted URB is given back exactly once if none of its TDs is listed, and not at all otherwise |
| `Completion.Endpoint.FinishTd` | src/xhci-ring.c:1986-2024 | the TD at the head leaves both lists, its URB's count goes up, and the URB is given back and completion reported exactly when the count reaches its length |
| `Completion.Endpoint.UrbDequeue` | src/xhci.c:1394-1409 | the loop appends exactly the URB's remaining TDs, in order, to the cancelled list and marks it |
| `Completion.Endpoint.UnlinkCancelled` | src/xhci-ring.c:776-818 | the loop takes exactly the cancelled TDs off the ring list and keeps the order of the others |
| `Completion.Endpoint.GivebackCancelled` | src/xhci-ring.c:840-858 | one turn takes the first cancelled TD, counts it, and gives its URB back exactly when that was the last |
| `Completion.Endpoint.KillUrbs` | src/xhci-ring.c:863-912 | both loops end with empty lists and every accepted URB given back exactly once |
| `Watchdog.StepKeeps` | src/xhci-ring.c:687-697 | every step keeps: stop_cmds_pending is armed plus fired timers, an armed timer implies EP_HALT_PENDING, a pending stop of a living host has a timer left, and no running timer is armed again |
| `Watchdog.DiesIff` | src/xhci-ring.c:933-966 | the host is declared dying exactly when the endpoint's command is pending, its own timer has fired, and no other timer runs or waits |
| `Watchdog.DyingIsJustifiedIff` | src/xhci-ring.c:933-966 | whenever a run ends in a declared death, the command waited for is still with the controller if and only if the last one that the endpoint's events should have sent did get onto the command ring |
| `Watchdog.DiesIffUnanswered` | src/xhci-ring.c:933-966 | a run ends with the host declared dying if and only if some handler ran as the last one waiting for its endpoint, after the endpoint's timer had fired and before its command was answered |
| `Watchdog.UnjustifiedIffLost` | src/xhci.c:1414-1428 | timers alone can kill the host for an endpoint if and only if a stop is pending there, and with nothing outstanding if and only if its command never got onto the command ring |
| `Watchdog.LostCommandKills` | src/xhci.c:1414-1428 | a command that could not be queued lets the host be declared dying with nothing outstanding |
| `Watchdog.Controller.UrbDequeue` | src/xhci.c:1414-1428 | the object makes the cancel step; the timer it arms is not running |
| `Watchdog.Controller.StopCompleted` | src/xhci-ring.c:687-697 | the object makes the completion step |
| `Watchdog.Controller.Run` | src/xhci-ring.c:933-966 | the object makes the watchdog step and reports a death exactly when it declares one |
| `Bandwidth.AddKeeps` | src/xhci.c:2254-2325 | adding an endpoint keeps every total equal to the sum over its list and every list sorted, and lists exactly that endpoint |
| `Bandwidth.DropKeeps` | src/xhci.c:2191-2252 | dropping one keeps the same and unlists exactly that endpoint |
| `Bandwidth.AddDoes` | src/xhci.c:2254-2325 | what adding does, from the endpoint's record and speed: nothing if it is not periodic, the bus for SuperSpeed, otherwise totals, payload and active count of its interval, counted in frames unless high speed, and its place on the list |
| `Bandwidth.DropDoes` | src/xhci.c:2191-2252 | dropping does the opposite, if the endpoint is listed |
| `Bandwidth.ConsumedIs` | src/xhci.c:2177-2189 | the SuperSpeed charge in blocks of 16 bytes, spread over 2^interval microframes and rounded up |
| `Bandwidth.InsertSorted` | src/xhci.c:2310-2325 | insertion in front of the first endpoint that is not larger keeps the list sorted |
| `Bandwidth.TotalsFollow` | src/xhci.c:2191-2325 | two good tables with the same records and the same listed endpoints have the same totals and permuted lists |
| `Reservation.Domain.InsertEp` | src/xhci.c:2310-2325 | the loop inserts in that place |
| `Reservation.Domain.AddEp` | src/xhci.c:2254-2325 | the object makes the add step |
| `Reservation.Domain.DropEp` | src/xhci.c:2191-2252 | the object makes the drop step |
| `Reservation.Domain.UpdateBwInfo` | src/xhci-mem.c:1592-1644 | an added periodic endpoint gets the requested record, one that is only dropped a cleared one, every other and context 0 keep theirs |
| `Reservation.Granted` | src/xhci.c:2347-2434 | after a success, for every endpoint context: an added periodic one has the requested record and is on exactly the list of that record's interval, a dropped one has none and is on no list, an untouched one is where it was |
| `Reservation.OthersAsBefore` | src/xhci.c:2347-2434 | no record or listing of another device's endpoint changes |
| `Reservation.Domain.ReserveBandwidth` | src/xhci.c:2347-2434 | a refusal restores every total, record and list up to the order of a sorted list; a success leaves the table good and every endpoint context as `Reservation.Granted` says |
| `Reservation.StaysTidy` | src/xhci.c:2347-2434 | after a success the listed endpoints of the device are again those with a periodic record |
| `Reservation.DropUndoesAddIff` | src/xhci.c:2191-2325 | dropping an endpoint just added restores the table if and only if it is not periodic or its device has a speed the driver lists or is SuperSpeed |
| `Commands.NthOccupied` | src/xhci-ring.c:4097-4133 | the occupied command slots come in front of enqueue, none is a link, and enqueue is the next |
| `Commands.ListedNoop` | src/xhci-ring.c:1309-1352 | turning one command into a no-op leaves nothing but the cycle bit on its slot, touches no other slot and keeps the correspondence |
| `Commands.CommandQueue.QueueCommand` | src/xhci-ring.c:4097-4133 | refused when dying or when the slots and the reserve are short; otherwise the list grows by the command at enqueue, the i-th command is the i-th occupied slot, and an ordinary command leaves the reserved slots free |
| `Commands.CommandQueue.HandleStoppedRing` | src/xhci-ring.c:1309-1352 | exactly the aborted commands are marked, their slots hold a no-op command with their old cycle bit and nothing else, every other slot of the ring is unchanged, and list and ring still correspond |
| `Commands.CommandQueue.HandleTimeout` | src/xhci-ring.c:1355-1397 | the host is given up; on a running ring every command, the one waited for marked aborted, is completed in order and the ring left as it is; on a stopped ring the aborted commands, with the one waited for, become no-ops as above |
| `Commands.CommandQueue.HandleCompletion` | src/xhci-ring.c:1399-1521 | an event that does not name the slot under dequeue changes nothing; a stopped ring turns the aborted commands into no-ops as above; otherwise the first command of the list is the one that completed, it leaves the list and its slot is given up |
| `TrbInTd.TrbInTd` | src/xhci-ring.c:1805-1868 | the loop terminates and returns a segment exactly when that segment's part of the searched range holds the address |
| `TrbInTd.SlotInTd` | src/xhci-mem.c:1971-2090 | which slots of which segment belong to a TD, by the number of segments crossed |
| `TrbInTd.ExactIffNotWrapped` | src/xhci-ring.c:1805-1868 | the answer is right for every address and segment if and only if the TD does not wrap into its first segment on a ring with other segments |
| `TrbInTd.LiveNeverWraps` | src/xhci-ring.c:360-383 | no TD between dequeue and enqueue of a transfer ring comes back into the segment it started in |
| `TrbInTd.ExactForLiveTds` | src/xhci-ring.c:1805-1868 | for every TD between dequeue and enqueue of a safe transfer ring the answer is right for every address and segment |
| `Ports.AddInMatchesIff` | src/xhci-mem.c:2116-2198 | after a capability the USB 2 and USB 3 counters match the port array if and only if it is ignored, has a revision of at least 1, or claims no unclaimed port |
| `Ports.AddInAt` | src/xhci-mem.c:2116-2198 | what one capability makes of every port: unclaimed ports take its revision, ports claimed for another protocol become duplicates, all others stay |
| `Ports.PortIs` | src/xhci-mem.c:2116-2198 | over a row of capabilities a port ends unclaimed if none names it, with a revision if all that name it agree on that one, and as a duplicate otherwise |
| `Ports.Roothubs.AddInPort` | src/xhci-mem.c:2116-2198 | the loop marks the capability's ports in that way, port by port |
| `Ports.ListPorts` | src/xhci-mem.c:2316-2367 | the loop lists the hub's ports in order, up to the limit |
| `Ports.MemberAt` | src/xhci.c:3788-3802 | entry k of a hub's list is a port of the hub with k similar ports in front of it |
| `Ports.AtMember` | src/xhci-ring.c:1541-1570 | every port of the hub is listed under the number of similar ports in front of it |
| `Ports.FakedPort` | src/xhci-ring.c:1541-1570 | the loop counts the similar ports in front of a raw port |
| `Ports.Roothubs.SetupPortArrays` | src/xhci-mem.c:2206-2367 | for any capabilities of revision at least 1, every port is what the row of capabilities makes of it, the last ones left out only once every port is counted; counters and lists agree with the port array within the limits, and roothub numbers translate to raw ports and back |

## Left out

- Registers, doorbells, work queues and completions of USB requests: plumbing over kernel calls; a cache write is one step, carried out in order.
- Locks, memory leaks on failure and device teardown: each handler is one atomic step.
- Streams: the search for a dequeue state and the rings are modelled without them.
- Event rings and the polling of their memory: the driver is the consumer there and they have no Link TRBs.
- TD size, interrupter, immediate-data and short-packet bits of a TRB: the model keeps address, length, type, chain, IOC, toggle and cycle.
- Control transfers, and queueing a scatter-gather or isochronous URB on a ring object: the splitting is modelled, the ring side is that of `Submission.QueueBulkTx`.
- Rolling back a partly queued isochronous URB: correct only with enqueue on an ordinary slot.
- The missed-service loop that skips TDs: completion takes one TD per event.
- The URB status that goes with an actual length.
- The verdict of `xhci_check_bw_table`: a parameter, since it estimates the hardware's schedule.
- Wrap-around of the unsigned bandwidth counters: they are integers, and what is added is taken back exactly.
- Message parsing, power management, roothub requests, debugging and tracing.
- Rings.Ring.PrepareRing: does not say what an expansion does on a ring that is drained or has a lingering controller, since the controller's view then changes; `SafeToGrow` is required when an expansion is needed.
- Submission.QueueBulkTx: likewise requires `SafeToGrow` when an expansion is needed.
- Reservation.Domain.ReserveBandwidth: requires a device of low, full, high or super speed; for other speeds the rollback fails as `Reservation.DropUndoesAddIff` states.
- Ports.Roothubs.SetupPortArrays: requires revisions of at least 1, for the reason `Ports.AddInMatchesIff` states; the limit of 31 USB 2 ports is the USB core's constant.
- Commands.CommandQueue.HandleCompletion: requires a listed command when the event names the slot under dequeue; the source would take an emptied list's head for one.
- CachedRuns.NewDeviceIsFifo: over the same runs as `CachedRuns.DeviceIsFifo`.
- CachedRuns.DeviceIsFifo: over runs without cancellation, and with every TRB queued as part of a TD that is published by its first cycle bit.
- ActualLength.BulkActualLength: for events on a TD that a single bulk URB queued; the 17-bit mask of a TRB's length is left out because queued lengths are at most 64 KB.
