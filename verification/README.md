# A verified model of the AceStream orchestrator's core

The orchestrator runs a fleet of AceStream engines, many of them behind VPN
containers, and proxies their streams to players. This Dafny project models the
parts of it where a mistake is hardest to see, and proves what they keep.

**Control plane.** Many goroutines schedule engines at once. Each claims a place on
a VPN node, then ports, then perhaps the single leader slot of the node, and later
registers an engine or gives everything back.
`Store` is the shared state as a class, one method per critical section.
`Placement` is the choice of a node and the balanced limit, `Provisioner` the
claiming and releasing of one engine, `Scheduling` the protocol of any number of
schedulers in any interleaving, and `Rediscovery` a run that goes wrong. `Ports` is the port allocator as a class, `PortRuns`
its runs. `Streams` follows stream reservations over runs. `Controller` is
scale-down and the density pass.

**Byte path.** `Bits`, `RingBuffer` and `RingRuns` are the ring buffer: a fixed array
that stands for an append-only log, and one slow reader of it over whole runs.
`Notify` is its wake-up channel as a protocol. `TsPackets` and `PcrBitrate` are the
program clock and the bitrate average, `PcrRaces` its scans that come late.
`Segmenter` cuts packets into segments, and `EndToEnd` joins both ends, over every
interleaving of writes, resets and turns: from bytes written to segments listed.

**Pools.** `Leases` is the credential pool, `AirVpn` the pool of forwarded ports,
`Cache` the byte-bounded cache of segments.

Each mutating method is proved against a function of its old state. What such a
function means is said again in plain fields and numbers, by lemmas named `...Means` or
`...Exactly`; the properties are lemmas about these functions, and about runs of them. Time is a parameter.
Where the source walks a Go map, the model takes any order. Segment times are ticks
of 90 kHz, the bitrate is a real number.

## What does not hold

Where a promise fails, the model keeps the code and says exactly when it holds.

- The PCR reader's comment (pcr.go:19) calls value 01 "adaptation only"; the code
  tests the upper bit, as the standard has it. The model follows the code.
- The rollover constant of the bitrate average is 2^42, but a 27 MHz clock wraps at
  2^33 * 300, so the advance across a wrap is too large (`WrapOvershoots`). The estimate
  is safe from it exactly while the window spans at most 674468938 bytes, or more than
  40722652880592 (`WrapSafeExactly`).
- A chunk is scanned for its clock after the ring is unlocked, so a reset can come in
  between. Exactly then (`ResetCleanExactly`) the old stream's program id can outlive the
  reset, and a stream under another id is not measured until the next (`StuckUntilReset`).
- The HTTPS retry loop never ends, with the allocator locked, exactly when the avoided
  port is the only free one (`HttpsLoopEnds`, `PortAllocator.TakeHttps`).
- A failed allocation off VPN can take away an HTTP mark that was there before
  (`FailureRestoresWhen`); a release behind a VPN takes away the host mark of the same
  number (`ReleaseUndoesVpnAllocation`, `MixedModeUnmarksForeignPort`).
- A preferred density of zero or less removes the limit, hard limit included
  (`NoPreferenceNoLimit`).
- Ending a stream that was only prebuffering takes a unit of another stream, so an
  engine can get one stream too many (`EndedExactWhen`, `FailedPrebufferOvercommits`).
- The two stabilization windows of the density pass never decide anything
  (`WindowsNeverDecide`).
- A segment cut by the clock lasts at most a minute exactly when the clock did not wrap in
  it, or wrapped and came within a minute of the start (`ClockCutDuration`); else it can be
  hours long (`WrappedCutCanBeHours`). One cut at a discontinuity has a negative duration
  exactly when the clock went back (`BoundaryDuration`).
- A reader that had not caught up at a reset gets nothing until a whole capacity of new
  chunks is stored (`StrandedReadable`, `StrandedGetsNothing`).
- Rounding up to a power of two fails exactly for requests of which the predecessor has
  32 zero bits in a row below a set bit (`NextPow2ExactWhen`), 2^32 + 1 being the first.
- A container found by the periodic reindex that no scheduler has just started takes
  another one's claims. The books that leader exclusion and the density bound rest on stay
  right exactly when no claim is outstanding on its node, there is room, and it is no
  second leader (`AdoptKeepsExactly`); otherwise both can break (`LateDiscoveryBreaksBoth`).
- Engines of a scale-down batch are judged one by one and queued creations count as
  running, so a batch can leave fewer than the minimum (`BatchBreaksMinimum`); after a
  full batch it holds exactly under the condition of `FleetAfterBatch`.
- Restoring two live containers of one name loses a credential until the next configure
  (`PartitionExactlyWhen`, `SharedNameLosesCredential`). Configure's comment promises
  insertion order, but it walks a map: any order is possible.
- Storing a segment larger than the whole cache empties the cache (`OversizedSetEmpties`).

## Model

| member | source | states |
|---|---|---|
| Bits.MaskIsModulo | app/orchestrator/internal/proxy/buffer/ring.go:191-200 | masking with capacity - 1 picks the slot that the remainder by the capacity picks, for every power of two |
| Bits.NextPow2Value | app/orchestrator/internal/proxy/buffer/ring.go:496-508 | without a gap of 32 zero bits in the request less one, the smearing finds the power of two next above the request |
| Bits.NextPow2Least | app/orchestrator/internal/proxy/buffer/ring.go:496-508 | up to 2^32 the capacity is the least power of two that is at least the request and at least the safe minimum |
| Bits.NextPow2ExactWhen | app/orchestrator/internal/proxy/buffer/ring.go:496-508 | for every request the capacity is the least power of two that is at least the request and the safe minimum, exactly when the request less one has no 32 zero bits in a row below a set bit; otherwise it is no power of two |
| Bits.SmearReach | app/orchestrator/internal/proxy/buffer/ring.go:496-508 | the five smearing steps set exactly the bits with a set bit at most 31 places above |
| Bits.FailsBeyondPow2 | app/orchestrator/internal/proxy/buffer/ring.go:496-508 | the requests 2^k + 1 with k at least 32 fail; 2^32 + 1 is the smallest |
| TsPackets.ScanOfAligned | app/orchestrator/internal/proxy/hls/segmenter.go:183-194 | the sync scan loses nothing of a string of whole packets and never splits one |
| TsPackets.ScanIsGreedy | app/orchestrator/internal/proxy/hls/segmenter.go:183-194 | where the accepted packets lie in any bytes: at sync bytes, apart, with no sync byte skipped between them and no whole packet left behind the last |
| TsPackets.LastClockIsLast | app/orchestrator/internal/proxy/ts/pcr.go:59-90 | the reported clock is that of the last packet that has one, and there is none only if no packet has one |
| TsPackets.ScanForLastPcr | app/orchestrator/internal/proxy/ts/pcr.go:59-90 | the block scanner reports the last clock among the very packets that the segmenter's sync scan accepts |
| TsPackets.ClockRange | app/orchestrator/internal/proxy/ts/pcr.go:59-90 | decoded clocks are at most (2^33 - 1) * 300 + 511 and program ids are below 2^13, section 2.4.3.5 of ISO/IEC 13818-1 |
| TsPackets.PcrRoundTrip | app/orchestrator/internal/proxy/ts/pcr.go:15-90 | a clock laid out as the standard says is read back unchanged by both readers |
| TsPackets.FlagsRoundTrip | app/orchestrator/internal/proxy/ts/pcr.go:15-57 | every combination of the two flags and a clock is read back as written |
| TsPackets.FlagBits | app/orchestrator/internal/proxy/ts/pcr.go:15-57 | which bits the reader goes by: bit 5 of byte 3 for the field, and of its flags 7, 6 and 4 for discontinuity, random access and clock |
| TsPackets.ReadersAgree | app/orchestrator/internal/proxy/ts/pcr.go:15-90 | both readers see a clock in the same packets and agree on its base exactly when the extension is legal |
| PcrBitrate.Estimator.Record | app/orchestrator/internal/proxy/buffer/ring.go:438-494 | the circular array and its cursors behave as a plain window of samples, with its discards and average; ObservedExactly says what that is |
| PcrBitrate.ObservedExactly | app/orchestrator/internal/proxy/buffer/ring.go:447-493 | everything one observation does, in its fields: another program nothing, no advance restarts the window, a sane rate is the estimate from zero and later a quarter of it, any other leaves it |
| PcrBitrate.SteadyRateMeasured | app/orchestrator/internal/proxy/buffer/ring.go:438-494 | a stream of steady rate in the sane range is measured as exactly that rate from its second sample on |
| PcrBitrate.Estimator.UpdatePcrBitrate | app/orchestrator/internal/proxy/buffer/ring.go:438-494 | one stored chunk is scanned and its last clock observed |
| PcrBitrate.ChunkObserved | app/orchestrator/internal/proxy/buffer/ring.go:438-442 | a chunk with a clock is observed by its last one, with the bytes stored by then; one without changes nothing |
| PcrBitrate.Estimator.Clear | app/orchestrator/internal/proxy/buffer/ring.go:386-403 | a reset forgets every sample and the estimate |
| PcrBitrate.WindowIsRecent | app/orchestrator/internal/proxy/buffer/ring.go:438-476 | over every run the circular window is the last at most eight samples accepted since the last discard |
| PcrBitrate.EstimateAlwaysSane | app/orchestrator/internal/proxy/buffer/ring.go:478-494 | over every run the estimate is zero or within 10^4 and 5 * 10^8 |
| PcrBitrate.SmoothBetween | app/orchestrator/internal/proxy/buffer/ring.go:483-494 | an accepted slope moves the average a quarter of the way, never past the slope |
| PcrBitrate.WrapOvershoots | app/orchestrator/internal/proxy/buffer/ring.go:25-37 | the computed clock advance is right modulo the real clock except across a wrap, where it is too large by a fixed gap |
| PcrBitrate.RateInBand | app/orchestrator/internal/proxy/buffer/ring.go:484-487 | the slope is in the sane range exactly when two whole-number inequalities say so |
| PcrBitrate.BackwardsClockEffect | app/orchestrator/internal/proxy/buffer/ring.go:465-493 | exactly when, and how, a sample whose clock lies below the oldest in the window changes the estimate |
| PcrBitrate.BackwardsClockIgnored | app/orchestrator/internal/proxy/buffer/ring.go:465-481 | such a sample, by a wrap or otherwise, leaves the estimate unchanged for every span up to the safe one and above the top one |
| PcrBitrate.BackwardsClockTaken | app/orchestrator/internal/proxy/buffer/ring.go:465-493 | for every span in between, some run has a backwards clock that changes the estimate |
| PcrBitrate.WrapSafeExactly | app/orchestrator/internal/proxy/buffer/ring.go:465-493 | after every run, every backwards clock over a byte span is ignored exactly when the span is at most 674468938 or above 40722652880592 |
| PcrRaces.ScannedMarks | app/orchestrator/internal/proxy/buffer/ring.go:180-184 | a late scan of a chunk newer than the last reset taints nothing |
| PcrRaces.NothingOutlivesReset | app/orchestrator/internal/proxy/buffer/ring.go:138-189 | over every run whose resets find no clocked chunk between storing and scanning, no sample and no program id outlives a reset |
| PcrRaces.ResetCleanExactly | app/orchestrator/internal/proxy/buffer/ring.go:386-403 | whatever follows a reset, the estimate is of the new stream only, exactly when no writer was between storing a chunk with a clock and scanning it |
| PcrRaces.StuckUntilReset | app/orchestrator/internal/proxy/buffer/ring.go:447-453 | once such a scan has locked the old stream's program id, a stream under other ids is not measured at all before the next reset |
| RingBuffer.ChopConserves | app/orchestrator/internal/proxy/buffer/ring.go:153-176 | the whole chunks and the remainder are the bytes, in order |
| RingBuffer.ChopSizes | app/orchestrator/internal/proxy/buffer/ring.go:153-176 | every chunk has the target size and the remainder is shorter |
| RingBuffer.WrapIsModulo | app/orchestrator/internal/proxy/buffer/ring.go:191-200 | the slot number written without division is the remainder |
| RingBuffer.SlotsDiffer | app/orchestrator/internal/proxy/buffer/ring.go:191-200 | two indices less than a capacity apart never share a slot |
| RingBuffer.RingBuffer.constructor | app/orchestrator/internal/proxy/buffer/ring.go:109-132 | a new ring is empty, with the rounded capacity and the defaults for sizes not given; it needs a slot count whose rounding works |
| RingBuffer.RingBuffer.StoreChunk | app/orchestrator/internal/proxy/buffer/ring.go:191-200 | storing into the masked slot appends one chunk to the log and keeps every live index in its slot |
| RingBuffer.RingBuffer.StoreAll | app/orchestrator/internal/proxy/buffer/ring.go:158-170 | the chunking loop appends exactly the whole chunks and keeps the remainder |
| RingBuffer.RingBuffer.Write | app/orchestrator/internal/proxy/buffer/ring.go:138-189 | a write appends to the log what the old partial and the new bytes fill, or nothing once stopped, and feeds the estimate its last chunk |
| RingBuffer.RingBuffer.Head | app/orchestrator/internal/proxy/buffer/ring.go:203-210 | the head is the index of the newest chunk |
| RingBuffer.RingBuffer.ReadAfter | app/orchestrator/internal/proxy/buffer/ring.go:213-255 | a read returns exactly the slice of the log from the oldest kept index after the cursor, up to the limit, or nothing if that start precedes the last reset |
| RingBuffer.ReadMeans | app/orchestrator/internal/proxy/buffer/ring.go:213-255 | a read starts at the first kept index after the cursor and gives as many chunks as asked, ten if that is not positive, or as many as there are |
| RingBuffer.RingBuffer.Reset | app/orchestrator/internal/proxy/buffer/ring.go:386-403 | a reset forgets all stored bytes and counts a generation; the log keeps its length |
| RingBuffer.RingBuffer.Stop | app/orchestrator/internal/proxy/buffer/ring.go:416-423 | stopping changes nothing else |
| RingRuns.ChopAppend | app/orchestrator/internal/proxy/buffer/ring.go:138-176 | chunking two writes in turn is chunking their concatenation |
| RingRuns.StepChunked | app/orchestrator/internal/proxy/buffer/ring.go:138-189 | every step of a run keeps chunks and partial buffer those cut from the bytes accepted since the last reset |
| RingRuns.ChunksDependOnlyOnBytes | app/orchestrator/internal/proxy/buffer/ring.go:138-189 | over every run the chunks since the last reset, and the partial buffer, depend only on the bytes accepted since, not on how they were split into writes |
| RingRuns.ChunkConservation | app/orchestrator/internal/proxy/buffer/ring.go:138-189 | over every run those chunks followed by the partial buffer are those bytes, all chunks of the target size |
| RingRuns.ReaderIsFaithful | app/orchestrator/internal/proxy/buffer/ring.go:213-255 | over every run of writes, resets and polls a reader's indices strictly increase, each chunk is genuine and newer than the reset before it, and an index is skipped only once overwritten |
| RingRuns.StrandedReadable | app/orchestrator/internal/proxy/buffer/ring.go:213-255 | a reader behind a reset is given something exactly when a capacity of new chunks is stored, and resumes at the oldest kept |
| RingRuns.StrandedGetsNothing | app/orchestrator/internal/proxy/buffer/ring.go:213-255 | until then no run of polls and writes gives it anything or moves its cursor |
| RingRuns.CaughtUpReaderContinues | app/orchestrator/internal/proxy/buffer/ring.go:213-255 | over every run without another reset, a reader that had caught up at a reset is given something exactly when something is unread, and the very next chunk unless it is overwritten |
| RingRuns.ResetStrandsExactly | app/orchestrator/internal/proxy/buffer/ring.go:386-403 | a reset strands a reader exactly when it had not caught up |
| Notify.StepKeepsInv | app/orchestrator/internal/proxy/buffer/ring.go:425-431 | every step of writers and waiters keeps each captured channel current, about to be closed, or closed |
| Notify.InvAlways | app/orchestrator/internal/proxy/buffer/ring.go:312-324 | that invariant holds in every interleaving of any number of writers and waiters |
| Notify.NoLostWakeup | app/orchestrator/internal/proxy/buffer/ring.go:312-324 | no lost wake-up: with no writer mid-broadcast, a waiter blocked on an open channel has no unread chunk |
| Notify.CheckFirstLoses | app/orchestrator/internal/proxy/buffer/ring.go:312-324 | waiters that check before they capture do lose wake-ups: for any number of writers and waiters some run ends with no writer busy and a waiter blocked on an open channel with an unread chunk |
| Notify.MissedStaysStuck | app/orchestrator/internal/proxy/buffer/ring.go:312-324 | such a waiter stays blocked through every step until something more is stored |
| Segmenter.Segmenter.PushSegment | app/orchestrator/internal/proxy/hls/segmenter.go:314-330 | pushing keeps whole packets, takes the pending mark, and trims the window |
| Segmenter.Segmenter.FeedPacket | app/orchestrator/internal/proxy/hls/segmenter.go:192-260 | one turn of the packet loop does what the cutter function says, on every branch |
| Segmenter.Segmenter.ProcessChunk | app/orchestrator/internal/proxy/hls/segmenter.go:183-262 | the inner loop feeds exactly the packets of the sync scan, in order |
| Segmenter.Segmenter.Turn | app/orchestrator/internal/proxy/hls/segmenter.go:174-311 | one turn of the outer loop, which TurnExactly says in fields; segments stay whole and numbered |
| Segmenter.TurnExactly | app/orchestrator/internal/proxy/hls/segmenter.go:174-311 | a turn reads the next five chunks; with nothing to read it moves to the ring's newest index if the ring was reset, forgetting the open segment; or, when the timer fired, closes it after five seconds, or the target without a start |
| Segmenter.BoundaryExactly | app/orchestrator/internal/proxy/hls/segmenter.go:197-219 | a discontinuity closes what came before, if anything, and its packet opens the next segment |
| Segmenter.ClockExactly | app/orchestrator/internal/proxy/hls/segmenter.go:221-260 | any other packet is appended; a clock closes the segment on a jump, on a keyframe after two seconds, or after five, with the exact duration |
| Segmenter.Segmenter.FlushSilence | app/orchestrator/internal/proxy/hls/segmenter.go:293-308 | the silence flush pushes the whole packets held and keeps the rest |
| Segmenter.Segmenter.Lookup | app/orchestrator/internal/proxy/hls/segmenter.go:134-145 | a lookup finds exactly the segments of the window |
| Segmenter.Segmenter.Manifest | app/orchestrator/internal/proxy/hls/segmenter.go:80-112 | the k-th entry is media sequence plus k (section 4.3.3.2 of RFC 8216), and the target is the least that leaves every entry a second to spare |
| Segmenter.FeedConserves | app/orchestrator/internal/proxy/hls/segmenter.go:192-260 | on every branch a packet is kept exactly once, after everything before it |
| Segmenter.FlushConserves | app/orchestrator/internal/proxy/hls/segmenter.go:293-308 | a flush moves bytes from the open segment to the segments and loses none |
| Segmenter.FeedAllConserves | app/orchestrator/internal/proxy/hls/segmenter.go:181-262 | a run of packets adds exactly their bytes |
| Segmenter.SegmentsAlwaysWhole | app/orchestrator/internal/proxy/hls/segmenter.go:147-330 | over every run, re-anchors included, segments are nonempty runs of whole packets with contiguous numbers from zero, and the segment start is a 33-bit clock |
| Segmenter.SegmentConservation | app/orchestrator/internal/proxy/hls/segmenter.go:181-262 | between re-anchors all segments pushed, then the open one, are exactly the packets accepted by the sync scan, in order |
| Segmenter.ReanchorDropsOpenSegment | app/orchestrator/internal/proxy/hls/segmenter.go:264-285 | a re-anchor loses the open segment and nothing else |
| Segmenter.FeedAllMarks | app/orchestrator/internal/proxy/hls/segmenter.go:314-330 | through any run of packets only the first segment pushed can be marked, and it is exactly when a mark was pending |
| Segmenter.MarkedExactly | app/orchestrator/internal/proxy/hls/segmenter.go:264-330 | over every run a segment carries the discontinuity mark exactly when the run re-anchored between the push before it and its own |
| Segmenter.ElapsedIsModular | app/orchestrator/internal/proxy/hls/segmenter.go:231-235 | the wrap-corrected time is the distance on the clock circle whenever it is not treated as a jump |
| Segmenter.ClockStaysInRange | app/orchestrator/internal/proxy/hls/segmenter.go:225-258 | one packet leaves the segment start a 33-bit clock; SegmentsAlwaysWhole has it over runs |
| Segmenter.CutInTime | app/orchestrator/internal/proxy/hls/segmenter.go:225-260 | after every clocked packet without the discontinuity flag either the start was just set or less than 2.5 times the target has elapsed |
| Segmenter.ClockCutDuration | app/orchestrator/internal/proxy/hls/segmenter.go:231-259 | a segment closed by the clock lasts at least the target, and at most a minute exactly when the clock did not wrap in it, or wrapped and came within a minute of the start |
| Segmenter.WrappedCutCanBeHours | app/orchestrator/internal/proxy/hls/segmenter.go:231-259 | two packets fed to a new cutter close a segment of any length from a minute up to half the clock range |
| Segmenter.BoundaryDuration | app/orchestrator/internal/proxy/hls/segmenter.go:197-219 | a discontinuity closes the segment before its packet, with a negative duration exactly when the clock went back |
| Segmenter.SegmentsLongEnough | app/orchestrator/internal/proxy/hls/segmenter.go:181-262 | through any run without discontinuity flags every segment closed lasts at least the target |
| Segmenter.FeedTelescopes | app/orchestrator/internal/proxy/hls/segmenter.go:225-260 | one smooth packet closes nothing, or a segment as long as the start has moved on the clock circle |
| Segmenter.DurationsTelescope | app/orchestrator/internal/proxy/hls/segmenter.go:181-262 | over a smooth run, however often the clock wraps, the durations add up to how far the segment start has moved |
| EndToEnd.ChopAligned | app/orchestrator/internal/proxy/buffer/ring.go:153-176 | an aligned stream is chopped into aligned chunks |
| EndToEnd.StreamReachesSegments | app/orchestrator/internal/proxy/hls/segmenter.go:174-262 | a new segmenter fed the first chunks since a reset has pushed, and holds, exactly the bytes written first |
| EndToEnd.TurnIsTurned | app/orchestrator/internal/proxy/hls/segmenter.go:174-311 | the bookkeeping of the combined runs follows the segmenter's own turn |
| EndToEnd.ReadConserves | app/orchestrator/internal/proxy/hls/segmenter.go:174-262 | a turn that reads adds exactly the packets of the chunks it was given |
| EndToEnd.SegmentsAreDelivered | app/orchestrator/internal/proxy/hls/segmenter.go:147-311 | over every interleaving of writes, resets, stops and turns, segments and open segment have grown since the last anchor by exactly the packets of the delivered chunks, in order, and a chunk was passed over only because it was overwritten |
| EndToEnd.StreamReachesTurns | app/orchestrator/internal/proxy/hls/segmenter.go:147-311 | unless the segmenter fell a whole capacity behind, they are exactly the bytes written from its anchor to its cursor, however the stream was split into writes |
| EndToEnd.AlwaysUpToDate | app/orchestrator/internal/proxy/hls/segmenter.go:147-285 | over every interleaving, a cursor of the ring's own generation is level with the ring, and so is its anchor |
| EndToEnd.ReanchorIsLive | app/orchestrator/internal/proxy/hls/segmenter.go:264-285 | a turn that finds the ring reset and nothing to read leaves the segmenter at the newest index, level with the ring |
| EndToEnd.LiveUntilReset | app/orchestrator/internal/proxy/hls/segmenter.go:174-285 | from there, over every run until the next reset, it can read exactly when a newer chunk is stored, and gets the very next one unless overwritten |
| EndToEnd.StreamReachesCurrent | app/orchestrator/internal/proxy/hls/segmenter.go:147-311 | after any run, in the ring's own generation and with less than a capacity stored since the anchor, the segments hold exactly the bytes from anchor to cursor |
| Ports.NextIn | app/orchestrator/internal/controlplane/engine/ports.go:103-115 | the search loop visits the ports in cyclic order from the cursor |
| Ports.NextFreeCorrect | app/orchestrator/internal/controlplane/engine/ports.go:103-115 | the search finds a free port in range and fails exactly when every port is used |
| Ports.NextFreeNearest | app/orchestrator/internal/controlplane/engine/ports.go:103-115 | it finds the nearest free port at or after the cursor, around the end of the range |
| Ports.HttpsLoopEnds | app/orchestrator/internal/controlplane/engine/ports.go:141-156 | the HTTPS retry loop ends within two rounds unless the avoided port is the only free one, and then never |
| Ports.FirstSlotFree | app/orchestrator/internal/controlplane/engine/ports.go:205-229 | the slot given to a node is the lowest one that no node has |
| Ports.EnsuredKeepsSlots | app/orchestrator/internal/controlplane/engine/ports.go:205-229 | range slots are injective, and after asking, a node's pool is settled |
| Ports.SettledPoolNeverMoves | app/orchestrator/internal/controlplane/engine/ports.go:205-229 | a settled node keeps its pool whichever node asks next |
| Ports.PortAllocator.EnsureVpnRangeAssigned | app/orchestrator/internal/controlplane/engine/ports.go:205-229 | the slot search assigns the first free slot, once |
| Ports.PortAllocator.AssignSlot | app/orchestrator/internal/controlplane/engine/ports.go:217-226 | a free slot given to a node keeps slots injective |
| Ports.PortAllocator.TakeGluetun | app/orchestrator/internal/controlplane/engine/ports.go:231-255 | a port comes from the node's own range if it has one, was free, and is marked there; none only if that range is full |
| Ports.PortAllocator.TakeHttps | app/orchestrator/internal/controlplane/engine/ports.go:141-156 | the port was free and is not the avoided one; it spins exactly when only that one is free |
| Ports.PortAllocator.Rollback | app/orchestrator/internal/controlplane/engine/ports.go:300-330 | undoing a reservation list frees each port in its pool |
| Ports.RolledBackClosed | app/orchestrator/internal/controlplane/engine/ports.go:300-330 | undoing a list removes exactly what the list reserved, in any order |
| Ports.RollbackUndoes | app/orchestrator/internal/controlplane/engine/ports.go:300-330 | undoing gives the pools back, but for HTTP marks that were there already |
| Ports.PortAllocator.AllocateEnginePorts | app/orchestrator/internal/controlplane/engine/ports.go:293-476 | success: ports in range, free before, distinct per pool, and exactly those marked; failure: only when too few are free, with all marks restored but the named one |
| Ports.AllocationMeans | app/orchestrator/internal/controlplane/engine/ports.go:293-476 | the ports given are in the node's slot, or the global or host range, were unused, and differ |
| Ports.FailureRestoresWhen | app/orchestrator/internal/controlplane/engine/ports.go:293-476 | a failed allocation restores every mark exactly when it is behind a VPN or its host port was not marked as an HTTP port |
| Ports.PortAllocator.ReserveFromLabels | app/orchestrator/internal/controlplane/engine/ports.go:480-524 | a running container's ports are marked: host and API port in the node's pool, or off VPN the host pool, the others in theirs, and nothing else changes |
| Ports.NotedMarks | app/orchestrator/internal/controlplane/engine/ports.go:480-524 | the same, pool by pool |
| Ports.PortAllocator.ReleaseFromLabels | app/orchestrator/internal/controlplane/engine/ports.go:526-550 | a released container's ports are unmarked in the same pools, and nothing else changes |
| Ports.ForgottenMarks | app/orchestrator/internal/controlplane/engine/ports.go:526-550 | the same, pool by pool |
| PortRuns.EnsuredKeepsInv | app/orchestrator/internal/controlplane/engine/ports.go:205-229 | assigning a range moves no port that is already held |
| PortRuns.PoolDecidesMarks | app/orchestrator/internal/controlplane/engine/ports.go:205-229 | two nodes share marks exactly when they share a pool |
| PortRuns.FreshIsApart | app/orchestrator/internal/controlplane/engine/ports.go:293-476 | a new engine shares no port with one that holds ports |
| PortRuns.AllocateKeepsInv | app/orchestrator/internal/controlplane/engine/ports.go:293-476 | a successful allocation keeps all holdings apart |
| PortRuns.FailKeepsInv | app/orchestrator/internal/controlplane/engine/ports.go:293-476 | a failed allocation keeps them apart |
| PortRuns.ReleaseLeavesOthers | app/orchestrator/internal/controlplane/engine/ports.go:526-550 | releasing one engine frees its ports into the pool they came from and takes no mark of another away |
| PortRuns.InvAlways | app/orchestrator/internal/controlplane/engine/ports.go:293-550 | over every run in one mode each held port is marked where it came from and no two engines share one |
| PortRuns.AdoptKeepsExactly | app/orchestrator/internal/controlplane/engine/ports.go:480-524 | noting a container found running backs its ports, and no port is shared afterwards exactly when nobody held one of them |
| PortRuns.HeldNeverGivenOut | app/orchestrator/internal/controlplane/engine/ports.go:293-524 | while an engine holds its ports, found or allocated, no allocation gives one of them to another in its pool |
| PortRuns.PortsNeverShared | app/orchestrator/internal/controlplane/engine/ports.go:293-550 | port exclusivity: at every moment of every run in one mode, containers found running included, no two holders share a port of a pool |
| PortRuns.MixedModeUnmarksForeignPort | app/orchestrator/internal/controlplane/engine/ports.go:526-550 | across modes a release unmarks a foreign host port exactly when the numbers coincide |
| Store.BetterIsStrictWeak | app/orchestrator/internal/state/store.go:768-790 | the comparison of engine candidates is a strict weak order |
| Store.UsableMeans | app/orchestrator/internal/state/store.go:740-754 | eligible means healthy, not draining, below the maximum, and idle or assigned at least five seconds ago |
| Store.BetterMeans | app/orchestrator/internal/state/store.go:769-791 | the order in fields: lighter engine, quieter node, leader, assigned longest ago |
| Store.NodeLoadMeans | app/orchestrator/internal/state/store.go:724-730 | the load of a node is the sum over its engines, and zero off VPN |
| Store.StartedMeans | app/orchestrator/internal/state/store.go:872-961 | a start is one more running stream and, if there was any, one reservation less, on that engine alone |
| Store.Store.AddEngine | app/orchestrator/internal/state/store.go:89-114 | registration turns a pending claim, and a leader claim, into an engine |
| Store.Store.RemoveEngine | app/orchestrator/internal/state/store.go:165-175 | removal forgets the engine and its stream count |
| Store.Store.SelectAndClaimVpn | app/orchestrator/internal/state/store.go:337-363 | claims the first least-loaded candidate below the limit, and fails exactly when none is below it |
| Store.Store.DecrVpnPending | app/orchestrator/internal/state/store.go:371-377 | a place is given back, never below zero |
| Store.Store.TryClaimForwardedSlot | app/orchestrator/internal/state/store.go:408-423 | the leader slot is won exactly when no leader is registered or pending |
| Store.Store.SetForwardedPending | app/orchestrator/internal/state/store.go:387-395 | the leader claim is set or cleared |
| Store.Store.MarkEngineDraining | app/orchestrator/internal/state/store.go:276-286 | an engine is newly draining exactly when it is known and was not |
| Store.Store.NodeLoads | app/orchestrator/internal/state/store.go:724-740 | step one counts the load of every VPN node |
| Store.Store.SelectAndClaimEngine | app/orchestrator/internal/state/store.go:720-799 | reserves a place on an engine that is healthy, not draining, below the maximum, and idle or assigned at least five seconds ago, and of these the first in load, node load, leadership and last assignment; it fails exactly when every engine fails one of these |
| Store.Store.OnStreamStarted | app/orchestrator/internal/state/store.go:872-963 | a start turns a reservation into a running stream |
| Store.Store.OnStreamEnded | app/orchestrator/internal/state/store.go:1008-1040 | the end takes the stream away and one unit from its engine's count |
| Placement.SelectVpnContainer | app/orchestrator/internal/controlplane/engine/provisioner.go:444-535 | a place is claimed below the balanced limit, or below the hard limit when nothing else is coming up; it waits exactly when neither has room |
| Placement.PlacedWellMeans | app/orchestrator/internal/controlplane/engine/provisioner.go:460-524 | the node chosen is managed, ready, not draining, lightest of those, below the larger limit, and above the balanced one only with nothing else coming up |
| Placement.MustWaitMeans | app/orchestrator/internal/controlplane/engine/provisioner.go:487-530 | waiting means every ready node full at the balanced limit, and another coming up or all full at the hard limit |
| Placement.ReadyNamesMeans | app/orchestrator/internal/controlplane/engine/provisioner.go:460-477 | exactly the managed, ready nodes that are not draining are offered |
| Placement.LimitIsLeast | app/orchestrator/internal/controlplane/engine/provisioner.go:487-501 | required nodes and balanced limit are each the least that hold the desired engines |
| Placement.LimitCoversDesired | app/orchestrator/internal/controlplane/engine/provisioner.go:487-501 | with a positive preference the balanced limit is between 1 and it, and filling the required nodes covers every desired engine |
| Placement.NoPreferenceNoLimit | app/orchestrator/internal/controlplane/engine/provisioner.go:487-505 | without a positive preference any load is accepted |
| Placement.PlacedBelowBound | app/orchestrator/internal/controlplane/engine/provisioner.go:505-524 | a placed engine lands below the larger of the two limits |
| Placement.ChoiceIsLeast | app/orchestrator/internal/state/store.go:341-362 | the choice is a least loaded candidate of all |
| Placement.ChoiceIsFirst | app/orchestrator/internal/state/store.go:341-362 | and the first of the least loaded |
| Placement.ClaimKeepsBalance | app/orchestrator/internal/state/store.go:341-362 | one claim keeps balanced loads within one of each other |
| Placement.ClaimsStayBalanced | app/orchestrator/internal/state/store.go:341-362 | any run of claims over a balanced candidate set keeps it within one |
| Placement.FullNodesAddUp | app/orchestrator/internal/state/store.go:341-362 | when no node is below the limit, the loads add up to at least nodes times limit |
| Placement.PreferredClaimSucceeds | app/orchestrator/internal/controlplane/engine/provisioner.go:487-505 | with enough ready nodes and fewer than the desired engines placed, the first claim always succeeds |
| Scheduling.RegisterStep | app/orchestrator/internal/state/store.go:89-107 | registration turns a claim into an engine without changing the load of any node |
| Scheduling.AdoptKeepsExactly | app/orchestrator/internal/controlplane/docker/monitor.go:142-184 | finding a container that no scheduler started keeps its node's books right exactly when no claim is outstanding there, there is room, and it is no second leader |
| Scheduling.StepKeepsNode | app/orchestrator/internal/controlplane/engine/provisioner.go:40-155 | every step of every scheduler, and every container event that fits, keeps each node's books right |
| Scheduling.NodeAlwaysOk | app/orchestrator/internal/controlplane/engine/provisioner.go:40-155 | the books are right in every orderly interleaving: one whose adoptions fit |
| Scheduling.LeaderExclusion | app/orchestrator/internal/state/store.go:408-423 | in every orderly interleaving a node has at most one registered leader and outstanding leader claim together |
| Scheduling.DensityBound | app/orchestrator/internal/state/store.go:337-363 | in every orderly interleaving engines plus pending claims on a node never exceed the larger of the two limits |
| Scheduling.PendingIsOutstanding | app/orchestrator/internal/controlplane/engine/controller.go:742-778 | in every orderly interleaving the pending count of a node is exactly the number of schedulers, abandoned ones included, that hold a place on it |
| Scheduling.ClaimsAlwaysHeld | app/orchestrator/internal/state/store.go:89-107 | in every interleaving, whatever is adopted, no claim is counted that nobody holds |
| Rediscovery.LateDiscoveryBreaksBoth | app/orchestrator/internal/controlplane/docker/monitor.go:142-184 | a leader that vanishes and is found again while its successor starts: two leaders, and one engine above both limits |
| Provisioner.ElectForwardedEngine | app/orchestrator/internal/controlplane/engine/provisioner.go:600-630 | a leader is elected exactly when the slot was won and a port arrived; otherwise the slot is back |
| Provisioner.ScheduleNewEngine | app/orchestrator/internal/controlplane/engine/provisioner.go:40-138 | node, ports and leader are claimed together; for want of a node nothing changes, for want of ports every claim and mark is back but the one HTTP mark; there is no other failure |
| Provisioner.ReleaseSpec | app/orchestrator/internal/controlplane/engine/provisioner.go:141-155 | releasing frees the ports, the place and the leader slot |
| Provisioner.UnclaimUndoesClaim | app/orchestrator/internal/state/store.go:337-377 | giving a place back undoes claiming it |
| Provisioner.ReleaseUndoesSchedule | app/orchestrator/internal/controlplane/engine/provisioner.go:40-155 | releasing a spec right after building it gives back exactly its claims |
| Provisioner.ReleaseUndoesHostAllocation | app/orchestrator/internal/controlplane/engine/ports.go:293-550 | off VPN a release gives all ports back exactly when the port was not marked as an HTTP port before |
| Provisioner.FreedBehindVpn | app/orchestrator/internal/controlplane/engine/ports.go:293-550 | behind a VPN a release leaves no mark of the allocation, and unmarks the same host number |
| Provisioner.ReleaseUndoesVpnAllocation | app/orchestrator/internal/controlplane/engine/ports.go:293-550 | so it restores the pools exactly when that number had no host or HTTP mark |
| Streams.CapacityBound | app/orchestrator/internal/state/store.go:720-813 | over every legal run running streams plus reservations never exceed the per-engine maximum, and the reservations are the claims outstanding |
| Streams.ClaimEngine | app/orchestrator/internal/state/store.go:720-799 | every choice of the store is a claim that these runs allow, and none is refused that they allow but for draining, health and the settle delay |
| Streams.StartedExactWhen | app/orchestrator/internal/state/store.go:872-961 | a start keeps counts equal to live streams exactly when the stream was not live |
| Streams.PrebufferingExactWhen | app/orchestrator/internal/state/store.go:984-1006 | so does prebuffering |
| Streams.EndedExactWhen | app/orchestrator/internal/state/store.go:1008-1040 | an end keeps them equal exactly when it takes no unit of another stream |
| Streams.GoneExactWhen | app/orchestrator/internal/state/store.go:165-175 | removing an engine keeps them equal exactly when it has no live stream |
| Streams.CountsExact | app/orchestrator/internal/state/store.go:872-1040 | over every run that meets those conditions counts equal live streams |
| Streams.LiveStreamsBounded | app/orchestrator/internal/state/store.go:720-1040 | and then the live streams of an engine never exceed the maximum |
| Streams.FailedPrebufferOvercommits | app/orchestrator/internal/proxy/stream/manager.go:150-156 | otherwise they can: one failure while prebuffering lets a third stream onto an engine for two |
| Controller.CountHealthy | app/orchestrator/internal/controlplane/engine/controller.go:820-850 | the per-node counts of the balance check are right |
| Controller.CanStopEngine | app/orchestrator/internal/controlplane/engine/controller.go:786-866 | an engine may stop exactly when nothing keeps it and its grace is over; the empty-since record follows |
| Controller.MayStopMeans | app/orchestrator/internal/controlplane/engine/controller.go:786-866 | may stop means idle, the fleet and the free engines above their minimum without it, its node not the smallest, and empty for the grace period |
| Controller.NodeTooSmallMeans | app/orchestrator/internal/controlplane/engine/controller.go:819-847 | its node has fewer engines than every other healthy node in use |
| Controller.GraceIsCounted | app/orchestrator/internal/controlplane/engine/controller.go:849-865 | the grace is counted from the first of an unbroken run of empty checks, and a busy one starts it again |
| Controller.SelectTerminationCandidates | app/orchestrator/internal/controlplane/engine/controller.go:669-721 | a batch has at most the surplus, all idle and distinct, a leader only when every other engine of its node is draining; it leaves out an allowed engine only when full, and of those takes followers first, then the oldest |
| Controller.FleetAfterBatch | app/orchestrator/internal/controlplane/engine/controller.go:394-418 | what a batch leaves is at least the desired number less the queued creations; after a full one the minimum holds exactly when that and the inactive engines reach it |
| Controller.BatchBreaksMinimum | app/orchestrator/internal/controlplane/engine/controller.go:394-418 | engines of a batch are judged one by one: with a creation queued, a batch of two leaves one engine where two are required |
| Controller.DrainAll | app/orchestrator/internal/controlplane/engine/controller.go:627-632 | draining a list drains nothing else |
| Controller.RelieveNode | app/orchestrator/internal/controlplane/engine/controller.go:585-632 | an over-limit node loses exactly the excess of its lightest stable followers, and nothing while a drain is under way |
| Controller.CorrectHeadless | app/orchestrator/internal/controlplane/engine/controller.go:633-665 | a leaderless node gives up one idlest engine, and only when it could have a leader |
| Controller.VisitNode | app/orchestrator/internal/controlplane/engine/controller.go:579-666 | what is drained on one node is its exact outcome |
| Controller.VisitKeepsProgress | app/orchestrator/internal/controlplane/engine/controller.go:579-666 | visiting one node changes no other node's outcome |
| Controller.RebalanceDensity | app/orchestrator/internal/controlplane/engine/controller.go:472-667 | a pass never newly drains a leader, leaves over-limit nodes at least the limit, and drains exactly each node's outcome; the limit is the least share of the least number of nodes, or the lower configured maximum |
| Controller.PassLimitExactly | app/orchestrator/internal/controlplane/engine/controller.go:500-519 | required nodes are the least that hold the desired engines at the preference, and the limit the least per node that holds them all, cut to a lower configured maximum only if enough nodes are ready |
| Controller.PassLimitUnpreferred | app/orchestrator/internal/controlplane/engine/controller.go:500-519 | without a positive preference the limit is the fair share of the ready nodes |
| Controller.ReadyCountMeans | app/orchestrator/internal/controlplane/engine/controller.go:486-498 | ready nodes are those managed, healthy and not draining |
| Controller.WithinLimitNotRelieved | app/orchestrator/internal/controlplane/engine/controller.go:579-665 | a node within the limit is not relieved; one engine at most is drained, and only for want of a leader |
| Controller.OverLimitRelieved | app/orchestrator/internal/controlplane/engine/controller.go:585-632 | a node over it loses as many as the excess of its followers older than ten seconds, the lightest, or none while a drain is under way |
| Controller.HeadlessReplaced | app/orchestrator/internal/controlplane/engine/controller.go:633-665 | a capable node without a leader, registered or pending, gives up one engine with the least load |
| Controller.PassLimitPositive | app/orchestrator/internal/controlplane/engine/controller.go:500-519 | the limit of a pass is at least one, whatever is configured |
| Controller.WindowsNeverDecide | app/orchestrator/internal/controlplane/engine/controller.go:530-577 | the two stabilization windows never decide anything |
| Controller.PrefixIsLightest | app/orchestrator/internal/controlplane/engine/controller.go:610-626 | the front of the sorted followers is the lightest part of them |
| Leases.CredentialManager.Configure | app/orchestrator/internal/controlplane/vpn/credentials.go:61-110 | the pool is replaced, leases of vanished credentials are dropped, all others are queued once, and the port pool is rebuilt from the credentials |
| Leases.CredentialManager.AcquireLease | app/orchestrator/internal/controlplane/vpn/credentials.go:130-164 | the container's own credential, or the one queued longest, or none |
| Leases.CredentialManager.ReleaseLease | app/orchestrator/internal/controlplane/vpn/credentials.go:166-181 | a held credential goes to the back of the queue |
| Leases.CredentialManager.RestoreLeases | app/orchestrator/internal/controlplane/vpn/credentials.go:184-232 | leases are those of the accepted containers and the queue is the rest |
| Leases.AcquireKeeps | app/orchestrator/internal/controlplane/vpn/credentials.go:130-164 | acquiring never doubles or loses a credential |
| Leases.ReleaseKeeps | app/orchestrator/internal/controlplane/vpn/credentials.go:166-181 | nor does releasing |
| Leases.ConfiguredIsPartition | app/orchestrator/internal/controlplane/vpn/credentials.go:61-110 | configuring makes queue and leases a partition again, whatever was lost before |
| Leases.ConfigureKeepsLeases | app/orchestrator/internal/controlplane/vpn/credentials.go:78-92 | configuring keeps a container's lease exactly if its credential is in the new list |
| Leases.ByIdMeans | app/orchestrator/internal/controlplane/vpn/credentials.go:65-74 | of credentials with one id the last counts |
| Leases.RestoreKeeps | app/orchestrator/internal/controlplane/vpn/credentials.go:184-232 | restoring never leases a credential twice, and loses none exactly when no two restored containers share a key |
| Leases.RestoredExactly | app/orchestrator/internal/controlplane/vpn/credentials.go:184-232 | a restored lease is under the container's name, or its id if it has none, of a known credential that a node names; queued is what no such node names |
| Leases.SharedNameLosesCredential | app/orchestrator/internal/controlplane/vpn/credentials.go:184-232 | two live containers of one name: the earlier credential is lost |
| Leases.PartitionExactlyWhen | app/orchestrator/internal/controlplane/vpn/credentials.go:61-232 | over every run no credential is in two places, and all are in one exactly when the last rebuild of the queue was clean |
| Leases.PartitionCounts | app/orchestrator/internal/controlplane/vpn/credentials.go:234-248 | in a partition each credential is queued or held exactly once, so available plus leased is the total |
| Leases.QueueIsFifo | app/orchestrator/internal/controlplane/vpn/credentials.go:130-181 | between rebuilds credentials are handed out in the order they were queued |
| AirVpn.FirewallPorts | app/orchestrator/internal/controlplane/vpn/airvpn_ports.go:117-152 | the usable ports of a field are its numbers from 1 to 65535 |
| AirVpn.AirVpnPool.Rebuild | app/orchestrator/internal/controlplane/vpn/airvpn_ports.go:33-59 | the universe is the union of the credentials' ports, each once, and exactly the claims outside it are evicted |
| AirVpn.AirVpnPool.AcquirePort | app/orchestrator/internal/controlplane/vpn/airvpn_ports.go:64-79 | the container's own port, or the first unclaimed one, or 0 |
| AirVpn.AirVpnPool.ReleasePort | app/orchestrator/internal/controlplane/vpn/airvpn_ports.go:82-90 | the container's port is free again |
| AirVpn.AcquireOutcome | app/orchestrator/internal/controlplane/vpn/airvpn_ports.go:64-79 | an acquire fails exactly when the container has none and all are claimed, and takes no port that someone holds |
| AirVpn.ReleaseUndoesAcquire | app/orchestrator/internal/controlplane/vpn/airvpn_ports.go:64-90 | release undoes acquire |
| AirVpn.ClaimsAddUp | app/orchestrator/internal/controlplane/vpn/airvpn_ports.go:93-113 | the universe is what is claimed plus what is free |
| AirVpn.ClaimsAlwaysInverse | app/orchestrator/internal/controlplane/vpn/airvpn_ports.go:33-90 | over every run the two claim maps are inverse to each other and inside the universe |
| AirVpn.PortIsKept | app/orchestrator/internal/controlplane/vpn/airvpn_ports.go:33-90 | over every run a container keeps its port, alone, exactly as long as it does not release it and every rebuild still carries it |
| Cache.GlobalCache.Get | app/orchestrator/internal/proxy/hls/cache.go:59-73 | a hit moves the item to the front; an expired item is removed |
| Cache.GlobalCache.Set | app/orchestrator/internal/proxy/hls/cache.go:76-102 | the item goes to the front, then the oldest go until the limit is met; map, list and byte total stay in step |
| Cache.GlobalCache.RemoveElement | app/orchestrator/internal/proxy/hls/cache.go:117-122 | removing an element removes its key and its bytes |
| Cache.GlobalCache.Sweep | app/orchestrator/internal/proxy/hls/cache.go:132-142 | a sweep removes exactly the expired items and keeps the order |
| Cache.TrimIsLongestFit | app/orchestrator/internal/proxy/hls/cache.go:98-101 | what is kept is the longest most-recent-first prefix that fits |
| Cache.OversizedSetEmpties | app/orchestrator/internal/proxy/hls/cache.go:76-102 | the new item is kept, in front, exactly when it fits alone; else the cache is left empty |
| Cache.OrderedByUse | app/orchestrator/internal/proxy/hls/cache.go:59-102 | over every run the items stand in the order of their last set or hit |
| Cache.AlwaysWithinLimit | app/orchestrator/internal/proxy/hls/cache.go:76-102 | over every run keys are distinct and the bytes stay within a positive limit |
| Cache.StaysUnlessThrown | app/orchestrator/internal/proxy/hls/cache.go:59-142 | one operation drops an item exactly when it finds it expired or it no longer fits |
| Cache.LastSetIsHeld | app/orchestrator/internal/proxy/hls/cache.go:59-142 | over every run what is held under a key is the item last set, exactly when nothing has thrown it out since |
| Cache.HitExactlyWhen | app/orchestrator/internal/proxy/hls/cache.go:59-142 | over every run a get returns the data last set, exactly when it was not thrown out since and has not expired |

## Left out

- Network, Docker, Redis, Gluetun and AceStream calls, HTTP handlers, the event log, persistence, logging and metrics: they appear only as steps that may succeed or fail.
- Bitrate and segment times: rounding of floating point; reals and integer ticks stand for it. The playlist's text is modelled as values.
- Integers are unbounded: overflow of 64-bit counters is not modelled.
- RingBuffer.constructor: a negative target chunk size, on which the first write of the source stops with a run-time error; and slot counts whose rounding fails, for which the source's mask is no remainder.
- Ring buffer: freshness timestamps, and WriteAfterTo, which selects chunks as ReadAfter does and writes them out.
- RingBuffer.Write: the clock scan, which the source does after unlocking, is part of the call; PcrRaces has it interleaved with other writes and resets, Notify the storing, swapping and closing.
- Ring buffer: its clock fields are a class of their own, Estimator, inside the buffer.
- Segmenter: the keyframe test of a packet is a parameter, any function. That no segment mixes two buffer generations is not claimed: the generation is looked at only when nothing can be read.
- IsNodeReady and port-forwarding support: inputs of the placement and the election.
- PortAllocator.AllocateEnginePorts: ports requested by the caller, because the only caller requests none; the plain pools AllocHTTP, and the internal peer-to-peer ports, whose free function is never called.
- PortAllocator: a node's range record is kept as two maps; the parsing of the configured ranges.
- PortRuns.PortsNeverShared: a container found running whose ports somebody holds, for which AdoptKeepsExactly shows why it fails; and runs that mix engines on and off VPN, for which MixedModeUnmarksForeignPort does.
- Scheduling.DensityBound: needs a positive preferred density, because NoPreferenceNoLimit shows there is none otherwise.
- Scheduling.LeaderExclusion: as for DensityBound, NodeAlwaysOk, StepKeepsNode and PendingIsOutstanding, each container registered for a scheduler uses up that scheduler's claims, of its node and role, and other containers found have to fit; AdoptKeepsExactly says when they do.
- Scheduling.PendingIsOutstanding: the two paths that abandon a claim without releasing it are steps of their own, so abandoned claims are counted.
- Streams.CapacityBound: each start uses up a reservation of its engine, as the proxy does.
- RebalanceDensity: health changes during a pass. Engines of its snapshot may be gone from the store. For a preferred density of zero the number of nodes needed is a parameter, because the source converts an infinity.
- SelectTerminationCandidates: the order of equals after a sort is any order.
- Controller: the desired-replica computation, the queue of intents and the circuit breaker, except for their effect on claims.
- Leases: the hash that names a credential; times are one value per restore.
- AirVpn: a port field is a list of items already split; provider names are already compared.
- Cache: the background loop's ticker and its stopping; one sweep is modelled.
