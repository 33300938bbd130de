# A verified model of the payload flight firmware

The firmware runs a photonic payload from one cyclic executive on one core: no operating
system, no heap, state in static variables, interrupts that only count and queue. This
project restates the parts of it whose correctness spans several functions, or many
runs, and proves what those parts are for. `dafny verify dfyconfig.toml` checks all of it.

## How the model is built

One module stands for one source file or one mechanism of it.

| module | what it models |
|---|---|
| `Words` | fixed-width words with their wrap, status codes, packing |
| `Crc` | the nibble-table CRC-32, against bit-at-a-time division |
| `Seal`, `SealBits`, `StoredChecksum` | what that checksum catches when the damage may fall on the checksum itself: stored most significant octet first in frames and packets, least significant first in storage |
| `FrameAssembler`, `CommandSequence` | telecommands: finding frames in a byte stream, and answering each command once |
| `CommandLink` | the whole serial command path: interrupt, ring, frames, answers |
| `SpacePacket`, `OutputQueue` | space packets, and the priority queue that sends them |
| `Handoff`, `InterruptRing`, `EventQueue` | the queues an interrupt fills and the loop empties |
| `ExecCore` | the timebase of the executive |
| `FaultClass`, `FaultService`, `FaultPass` | the counters of one fault class; the service pass over all of them, with the housekeeping link as uplink; what interrupted passes account for |
| `Mission`, `Boot` | the stage sequence and the boot sequence, which use those counters as retry counters |
| `MemoryTest` | the power-on memory test over faulty memory |
| `RecordStore`, `StagedOutput` | the append-only store and its transfer; what the link sends of it through the one staging buffer |
| `ConfigStore`, `Calibration` | the live parameter block, and interpolation on the laser's curve |
| `BufferStore`, `DataPath` | ownership of memory regions, and the list of finished acquisition buffers |

Code that changes static state is a class whose methods change fields and arrays as the
source does, loop for loop; each method's contract ties the new state to a function of the
old one or to the property itself, and lemmas say what that function is worth. Unsigned
arithmetic wraps through `Wrap`. Where an interrupt may land between two accesses of the
loop, each access is a step of its own, the interrupt runs between any two steps, and
unbounded ghost histories say what the wrapped counters stand for.

Everything outside a module comes in as a parameter: what a handler, stage step, consumer
or device operation answers, whether a link takes a frame, the time. All properties hold
for all such answers.

## What the model found

Statements in the repository that its code does not keep, or keeps only within 32 bits. Each
has a concrete input or run on which it fails, and in most cases the exact condition under
which it holds.

- The space-packet checksum covers the application data only. The comment at
  src/comm/comm_ccsds.c:288-289 counts on a corrupted sequence count failing the checksum;
  `SpacePacket.CountIsNotProtected` shows any other count is accepted instead.
- Frames and packets send the checksum most significant octet first, against the order of
  its bits, and so lose part of what it promises: a change of four consecutive octets across
  the boundary of data and checksum goes unnoticed exactly if it is 61 D8 F4 EE
  (`Seal.UndetectedExactly`). In a telecommand frame it changes the sequence number, for one
  from 0 to 0x61D8 (`CommandSequence.BurstCanRenumber`, `CommandSequence.ZeroIsRenumbered`);
  `FrameAssembler.DamagedFrameExactly` and `SpacePacket.DamagedDataExactly` are the exact
  statements. Stored images, least significant octet first, have no such exception:
  `StoredChecksum.InMemoryDamageShows`.
- A tick that completes a major cycle between the two loads of a resync
  (src/exec/exec_core.c:79-83) is counted as a boundary seen while its tick is not consumed:
  no wait announces that boundary. `ExecCore.ResyncCanLoseABoundary` is a run,
  `ExecCore.BoundaryAnnouncedIff` the exact condition.
- "Earliest submission wins" (src/comm/comm_output.c:101-104) is by slot, and slots are
  reused. `OutputQueue.EarliestWinsIff` gives the exact condition,
  `OutputQueue.LaterOvertakes` a run in which the third submission leaves before the second.
- The work of one command service is not bounded by the size of the receive ring
  (src/comm/comm_cmd.c:357-360): octets that arrive while it reads are read too. It stays
  within that size exactly if no more are accepted meanwhile than were free at the start
  (`CommandLink.Link.Drain`); `CommandLink.MoreThanTheRingHolds` is a run on the ring of 256.
- A buffer queued for sending must not be touched until it has been sent
  (include/qiran/comm/comm_output.h:17-19), but the transfer reads every payload into the
  same one (src/data/storage_nand.c:234-252). `StagedOutput.Downlink.SentIsRecordIff` says
  exactly when a record goes out as itself, `StagedOutput.SecondGoesOutTwice` is a run in
  which it does not, and `StagedOutput.Downlink.DrainedTransfer` a discipline under which
  every record does.
- "Retries exhausted, power cycle requested" (include/qiran/plat/plat_boot.h:26): a boot step
  is given up without that request if the reports that reach its limit come from interrupts
  after the pass has loaded it. `Boot.GivenUpUnelevated` is a run, `Boot.RoundVerdict` the
  exact condition.
- Parameters a short stored image does not supply keep their present value rather than
  their default (src/svc/svc_config.c:217-241), so a repair from such an image can
  keep corruption: `ConfigStore.RepairIsLegalIff`, `ConfigStore.ShortImageKeepsCorruption`.
- The length check of the transfer is made in 32 bits and wraps for lengths near 2^32
  (src/data/storage_nand.c:211-218): `RecordStore.LengthCheckIsExactIff`. A header damaged
  that way can send the transfer back (`RecordStore.DamagedLengthMovesBack`) or leave it
  where it is for ever, with storing and clearing refused all the while
  (`RecordStore.DamagedLengthStandsStill`): `RecordStore.MovesOnIff` says which.
- Attaching storage again keeps the old transfer count (src/data/storage_nand.c:69-73),
  which is what lets a store be erased: `RecordStore.ReattachForgets` is a run. What a clear
  erases had been handed over exactly if a transfer has begun since the store was last
  emptied: `RecordStore.Store.Clear`.
- "Minor cycles executed" (include/qiran/exec/exec_core.h:8) also contains the ticks that
  resyncs absorb, and loses track once the overrun count wraps:
  `ExecCore.AbsorbedTicksAreReported` is a run, `ExecCore.CyclesAreWaitsIff` the exact condition.
- The slot loses its phase exactly if slot and backlog together exceed 32 bits:
  `ExecCore.SlotKeepsPhaseIff`, with the run `ExecCore.SlotLosesPhase`. The whole-run theorems
  about time assume the loop is never that far behind.
- The retry bounds and the once-per-epoch escalation count reports in 32 bits.
  `FaultClass.ExhaustedExactly`, `FaultClass.PassEscalatesIff` and `Mission.RetryStallsIff` are
  exact for any number of reports. 2^32 of them hide every retry and the escalation
  (`FaultClass.WrapHidesEveryReport`, `FaultClass.WrapHidesEscalation`), and with enough of
  them between retries there is no bound on retries at all (`Mission.RetriesWithoutBound`).
- "A completion naming a buffer the fabric did not own is refused"
  (docs/firmware_decisions.md:781-784): a number beyond the buffers is reduced modulo seven
  (src/data/data_path.c:80-82) and completes the buffer it then names, if the fabric owns that
  one. `DataPath.StrayNumberCompletes` is a run, `DataPath.CompletionIff` the exact condition.
- A region released while it waits in the ready list is listed twice:
  `DataPath.UntakenReleaseDuplicates`, with the exact condition in
  `DataPath.ListStaysSoundIff`.

## Model

| member | source | states |
|---|---|---|
| `Words.GetAfterPut16` | include/qiran/comm/comm_bytes.h:22-46 | a packed 16-bit word is read back, wherever it stands in a buffer |
| `Words.GetAfterPut32` | include/qiran/comm/comm_bytes.h:29-52 | a packed 32-bit word is read back, wherever it stands in a buffer |
| `Words.PutAfterGet16` | include/qiran/comm/comm_bytes.h:22-46 | any two octets are what packing the word read from them gives |
| `Words.PutAfterGet32` | include/qiran/comm/comm_bytes.h:29-52 | any four octets are what packing the word read from them gives |
| `Words.Put32Injective` | include/qiran/comm/comm_bytes.h:29-36 | different words have different octets |
| `Crc.LookupIsFourReductions` | src/svc/svc_crc.c:3-8 | for every state, the table entry of its low nibble folded into the state shifted by four is four one-bit reductions by 0xEDB88320 |
| `Crc.OctetByTable` | src/svc/svc_crc.c:14-23 | two table steps on an octet are bit-at-a-time division of its eight bits, least significant first (CRC-32 of IEEE 802.3 clause 3.2.9) |
| `Crc.RegisterConcat` | src/svc/svc_crc.c:10-26 | the register after two buffers in a row is the second taken from the register of the first |
| `Crc.DivideLinear` | src/svc/svc_crc.c:10-26 | division is linear over exclusive-or of states and bit streams |
| `Crc.BitBurstDetected` | src/svc/svc_crc.c:10-26 | two bit streams of equal length that differ only within some 32 consecutive bits leave different registers from every state |
| `Crc.BurstDetected` | src/svc/svc_crc.c:10-36 | the same for octet buffers, with the burst at any bit position |
| `Crc.FourOctetDamageDetected` | src/svc/svc_crc.c:33-36 | two different buffers of equal length that differ only within some four consecutive octets have different checksums |
| `Crc.ChecksumReflectsRegister` | src/svc/svc_crc.c:28-31 | equal checksums mean equal registers: the final inversion hides nothing |
| `Crc.ValueInjective` | src/svc/svc_crc.c:28-31 | the checksum as an integer determines the 32-bit register |
| `Crc.Update` | src/svc/svc_crc.c:10-26 | the nibble-table loop computes the division of the whole buffer, for every starting state |
| `Crc.Crc32` | src/svc/svc_crc.c:33-36 | the one-call form is the checksum defined by bit-at-a-time division |
| `Crc.CheckValue` | include/qiran/svc/svc_crc.h:7-11 | the check value of "123456789" is 0xCBF43926, so seed, octet order and final inversion are those of the standard |
| `FrameAssembler.Assembler.Resync` | src/comm/comm_cmd.c:329-350 | in place, drops the first octet and everything before the next marker, and counts it once |
| `FrameAssembler.Assembler.Feed` | src/comm/comm_cmd.c:366-384 | after one octet, the frames delivered and the buffer are those of the batch scan of buffer and octet |
| `FrameAssembler.Assembler.FeedChunk` | src/comm/comm_cmd.c:364-384 | the same for one read of any length |
| `FrameAssembler.Assembler.Assemble` | src/comm/comm_cmd.c:352-386 | the same for a whole series of reads, so how the stream is cut does not matter |
| `FrameAssembler.Assembler.Gap` | src/comm/comm_cmd.c:425-435 | an idle gap empties the buffer, counted only if something was lost |
| `FrameAssembler.ScanResumes` | src/comm/comm_cmd.c:352-386 | the batch scan of a stream may be stopped anywhere and resumed from its leftover: frames, leftover and rejections add up |
| `FrameAssembler.ScanTakesAccepted` | src/comm/comm_cmd.c:352-386 | the scan delivers exactly the windows at the accepted positions, each led by the marker with a valid checksum |
| `FrameAssembler.AcceptedAreApart` | src/comm/comm_cmd.c:352-386 | accepted positions are at least a frame apart, in order |
| `FrameAssembler.LostOnlyToOverlap` | src/comm/comm_cmd.c:329-386 | a valid frame anywhere in the stream is delivered unless an earlier delivered frame overlaps it |
| `FrameAssembler.LeftoverIsSuffix` | src/comm/comm_cmd.c:329-386 | what stays buffered is a marker-led suffix of the stream shorter than a frame |
| `FrameAssembler.BackToBackFramesArrive` | src/comm/comm_cmd.c:352-386 | valid frames sent back to back all arrive, in order, leaving nothing and rejecting nothing |
| `FrameAssembler.DamagedFrameExactly` | src/comm/comm_cmd.c:374-383 | a frame changed within four consecutive octets anywhere, the checksum and the boundary to it included, is still taken for a frame exactly if the change is 61 D8 F4 EE at octets 7 to 10 |
| `FrameAssembler.SlippedFrameIsFrame` | src/comm/comm_cmd.c:374-383 | and that change does turn every frame into another frame |
| `Seal.UndetectedExactly` | src/comm/comm_cmd.c:311-318 | of any string ending in its own checksum, most significant octet first, and any change within four consecutive octets: it goes unnoticed exactly if it is 61 D8 F4 EE, two octets on either side of the boundary |
| `Seal.SlippedIsSealed` | src/comm/comm_cmd.c:311-318 | and that change goes unnoticed in every such string |
| `SealBits.ShortStringShows` | src/svc/svc_crc.c:10-26 | of all nonzero strings of one to three octets divided from an empty register, only the one that reads 0xD861 as a word leaves as many low octets of the register zero as it is long |
| `StoredChecksum.InMemoryDamageShows` | src/svc/svc_crc.c:28-36 | with the checksum stored least significant octet first there is no such exception: every change within four consecutive octets is noticed |
| `StoredChecksum.SealedResidue` | src/svc/svc_crc.c:28-36 | because every string sealed that way leaves one and the same register |
| `CommandSequence.BuiltFrameDecodes` | src/comm/comm_cmd.c:164-169 | a built frame passes the frame test and yields the command, parameter and sequence it was built from |
| `CommandSequence.BuildFrame` | src/comm/comm_cmd.c:154-176 | in place: the built frame at the front of the buffer and nothing else changed, or a buffer too short is refused and untouched |
| `CommandSequence.BurstCanRenumber` | src/comm/comm_cmd.c:164-169 | so for every command frame some change of four consecutive octets gives the valid frame of the same command and parameter with another sequence number |
| `CommandSequence.ZeroIsRenumbered` | src/comm/comm_cmd.c:164-169 | for sequence number 0 that other number is 0x61D8 |
| `CommandSequence.ResultFrameDecodes` | src/comm/comm_cmd.c:190-197 | a result frame is 18 octets with a checksum over the first 14, and yields the receipt time, sequence, command, verdict and detail it was made from |
| `CommandSequence.ResultFramesDiffer` | src/comm/comm_cmd.c:190-197 | different results have different frames |
| `CommandSequence.EnergyMayAlwaysBeRemoved` | src/comm/comm_cmd.c:15-36 | commands that remove energy and the resets are legal in every stage, those that apply it only in the first two |
| `CommandSequence.ActedOnWhen` | src/comm/comm_cmd.c:211-302 | exactly when a frame is acted on, completed at once, or left running; and that energy can be removed unless another command runs |
| `CommandSequence.RefusedBecause` | src/comm/comm_cmd.c:255-302 | every verdict has exactly one cause, the first check that fails, and its detail says what was wrong: the version, identifier, stage or parameter found, the command in hand, or what the handler answered |
| `CommandSequence.LateAsAtOnce` | src/comm/comm_cmd.c:388-423 | a command that finishes later is answered as it would have been at once: completed if its handler reports success, failed with what it reports otherwise, timed out exactly if it is still busy past its budget |
| `CommandSequence.VerdictsAreNumbered` | include/qiran/comm/comm_cmd.h:36-46 | numbers and verdicts determine each other; rejections are numbered from 16, failures from 32 |
| `CommandSequence.StatusesAreNumbered` | include/qiran/qiran_types.h:8-18 | so do the details of failures and statuses |
| `CommandSequence.TerminatedCount` | src/comm/comm_cmd.c:178-209 | the terminal results are the completions, rejections and failures together |
| `CommandSequence.CommandService.CountersBalance` | src/comm/comm_cmd.c:178-322 | received = completed + rejected + failed + one if a command is running, modulo 2^32, in every reachable state |
| `CommandSequence.CommandService.Answer` | src/comm/comm_cmd.c:178-200 | a result discharges exactly the command it is owed to, is counted by its kind, and puts its frame on the link exactly if a transmit function is set |
| `CommandSequence.CommandService.Settle` | src/comm/comm_cmd.c:202-209 | a terminal result restores the balance of commands received against results and the one in hand |
| `CommandSequence.CommandService.Reject` | src/comm/comm_cmd.c:202-209 | a rejection is a terminal result of the command owed one |
| `CommandSequence.CommandService.Dispatch` | src/comm/comm_cmd.c:211-252 | the handler's answer gives one result, or leaves the command running |
| `CommandSequence.CommandService.Process` | src/comm/comm_cmd.c:255-302 | one result per frame, the one the first failing check or the handler decides; the handler is called once, with the parameter, exactly if the frame is in order, nothing is in hand and the command is legal; the commands received are the terminal results and the one in flight, as multisets |
| `CommandSequence.CommandService.Track` | src/comm/comm_cmd.c:388-423 | the running command has its handler called once more, and gets its one terminal result when that stops being busy or its budget expires: the result it would have got at once or a timeout, counted as completed exactly on success and as failed otherwise; nothing changes before |
| `CommandSequence.CommandBudgets` | src/comm/comm_cmd.c:15-36 | how long each command is given |
| `CommandSequence.CommandService.Submit` | src/comm/comm_cmd.c:304-322 | a frame from a space packet is processed exactly if it is whole, with the result the first failing check or the handler decides, and otherwise leaves no trace in the commands, the results, the link, the command in hand or the receipt time |
| `CommandSequence.CommandService.Register` | src/comm/comm_cmd.c:103-116 | a handler is registered once, never replaced, and a missing one is refused |
| `CommandLink.Link.EveryFrameAnswered` | src/comm/comm_cmd.c:352-441 | end to end, in every reachable state, under any cut and preemption: the frames handed on are the scan of the octets taken between idle gaps, each is one command with its number, and there is exactly one terminal result or the one command in hand for each of them |
| `CommandLink.Link.EveryFrameSentIsAnswered` | src/comm/comm_cmd.c:352-386 | without gaps, once the ring was found empty, the frames answered are those in the accepted octets taken as one piece; frames sent back to back are all answered, in order |
| `CommandLink.Link.Service` | src/comm/comm_cmd.c:437-441 | whatever the cut into reads and the octets pushed meanwhile: the first result is the one, if any, that ends the command in hand, as it would have been given at once or for running out of time, and then there is one for each frame in the octets taken; it ends with the ring found empty; it takes the octets waiting at the start and those accepted meanwhile, no more than the ring holds exactly if no more were accepted than were free at the start |
| `CommandLink.Link.Drain` | src/comm/comm_cmd.c:357-386 | the octets taken are those waiting and those accepted meanwhile, so the work stays within the size of the ring exactly if no more are accepted meanwhile than were free when it began; while an octet arrives before each one is taken, every read is followed by another |
| `CommandLink.MoreThanTheRingHolds` | src/comm/comm_cmd.c:357-386 | a run: five reads on the receive ring of 256 octets, octets arriving meanwhile, take more than 256 |
| `CommandLink.Link.ReadOnce` | src/comm/comm_cmd.c:364-384 | one read of at most 64 octets, and what they lead to |
| `CommandLink.Link.Chunk` | src/comm/comm_cmd.c:366-384 | what one read leads to depends only on the buffer and its octets together |
| `CommandLink.Link.Octet` | src/comm/comm_cmd.c:367-383 | an octet that completes a frame has it processed at once |
| `CommandLink.AdvancedTwice` | src/comm/comm_cmd.c:352-386 | assembling and answering some octets and then some more is assembling and answering them together |
| `CommandLink.Link.Gap` | src/comm/comm_cmd.c:425-435 | an idle gap ends the stretch and gives up what was partly received, answering nothing |
| `CommandLink.Link.Arrive` | src/plat/plat_isr_uart.c:10-14 | octets pushed between services are accepted in order as far as there is room, and disturb nothing |
| `Handoff.PowerOfTwoDivides` | src/svc/svc_ring.c:5-21 | a power-of-two length divides 2^32, which is what lets indices wrap |
| `Handoff.WrappedIndex` | src/svc/svc_ring.c:32-62 | the slot of a wrapped index is the slot of the unwrapped one |
| `Handoff.SlotsDistinct` | src/svc/svc_ring.c:32-62 | elements less than a length apart never share a slot |
| `Handoff.Backlog` | src/svc/svc_ring.c:75-83 | the wrapped difference of the indices is the number waiting |
| `Handoff.PushKeeps` | src/svc/svc_ring.c:32-47 | a push lands in a free slot or is refused and counted, wherever the loop is inside a pop |
| `Handoff.LoopStepKeeps` | src/svc/svc_ring.c:49-62 | each single access of a pop keeps every element it may still read in place |
| `Handoff.RunKeeps` | src/svc/svc_ring.c:32-62 | every interleaving of pushes with the single accesses of pops keeps the queue sound |
| `Handoff.EveryInterleavingIsSafe` | src/svc/svc_ring.c:32-78 | from a fresh queue, whatever the interleaving and however often the indices wrap: taken is a prefix of accepted, drops are exactly the refusals, accepted and refused are all the pushes |
| `Handoff.RefinesBoundedFifo` | src/svc/svc_ring.c:32-62 | step by step the queue is a bounded first-in-first-out queue that refuses the newest when full and reports empty only when empty |
| `InterruptRing.PowersOfTwo` | src/svc/svc_ring.c:10-12 | the halving test accepts exactly the powers of two below 2^32 |
| `InterruptRing.Init` | src/svc/svc_ring.c:5-21 | a ring is made exactly over storage whose length is a power of two, and starts empty |
| `InterruptRing.Ring.constructor` | src/svc/svc_ring.c:14-20 | the ring over given storage is the fresh queue |
| `InterruptRing.Ring.Push` | src/svc/svc_ring.c:32-47 | in place, the push step of the queue; accepted exactly if there is room |
| `InterruptRing.PushedInOrder` | src/svc/svc_ring.c:32-47 | pushes in a row are accepted in order as long as there is room and refused from then on |
| `InterruptRing.Ring.Pop` | src/svc/svc_ring.c:49-62 | in place, with any pushes landing before each of its four accesses: the interleaved run of the queue, giving the oldest element |
| `InterruptRing.Ring.Read` | src/svc/svc_ring.c:64-73 | hands over consecutive elements, fewer than asked for only when the ring is left empty, under any preemption; as many as asked for if something arrives before each |
| `InterruptRing.ArrivalIsFound` | src/svc/svc_ring.c:49-62 | if anything arrives before a pop begins, the pop does not come away empty |
| `InterruptRing.Ring.Count` | src/svc/svc_ring.c:75-78 | the number waiting |
| `InterruptRing.Ring.Free` | src/svc/svc_ring.c:80-83 | the number that would still be accepted |
| `EventQueue.ActKeeps` | src/plat/plat_irq.c:47-77 | raising numbers the event by how many were raised; no access of a take disturbs the numbering |
| `EventQueue.ActsKeep` | src/plat/plat_irq.c:47-77 | the numbering holds over every interleaving |
| `EventQueue.TakenAreNumbered` | src/plat/plat_irq.c:155-176 | a taken event carries its place among all raised, refused ones included, modulo 65536 |
| `EventQueue.GapsCountLosses` | src/plat/plat_irq.c:47-77 | two events taken one after the other differ in sequence number by one plus the events refused between them, modulo 65536 |
| `EventQueue.TakenAsRaised` | src/plat/plat_irq.c:47-77 | in every interleaving the event taken is the event raised at its place among all raised: tick, datum and kind, numbered by that place |
| `EventQueue.ActsCarry` | src/plat/plat_irq.c:47-77 | so is every event accepted, also those still waiting |
| `EventQueue.IrqSource.Handle` | src/plat/plat_irq.c:47-86 | in place, one raise of the queue, with its tick, datum and kind, the number advancing even when the event is refused |
| `EventQueue.IrqSource.Take` | src/plat/plat_irq.c:155-176 | in place, with interrupts landing between its accesses, those of the copy of the four fields included: the interleaved run of the queue, giving the oldest event whole, as it was raised |
| `EventQueue.IrqSource.CopyElement` | src/plat/plat_irq.c:171 | the copy, field by field with interrupts between the fields, is the event the slot held when it began |
| `EventQueue.IrqSource.Pending` | src/plat/plat_irq.c:178-184 | the number of events waiting, never above the depth |
| `FaultClass.RunKeeps` | src/svc/svc_fdir.c:154-370 | reports landing between any two accesses of a service pass or a clear keep counters and history in step |
| `FaultClass.NoReportLostOrCountedTwice` | src/svc/svc_fdir.c:331-342 | whenever the loop asks, serviced or not, the occurrence count is the reports since the last clear, modulo 2^32 |
| `FaultClass.OccurrencesAreReports` | src/svc/svc_fdir.c:331-342 | the same, for any sound state of a class outside a pass |
| `FaultClass.ExhaustedExactly` | src/svc/svc_fdir.c:344-353 | a class has no retry left exactly when it has a limit and the reports since the clear, in 32 bits, reach it |
| `FaultClass.EscalationsInEpoch` | src/svc/svc_fdir.c:235-250 | a critical class has escalated since the clear exactly if its serviced count has reached a non-zero limit |
| `FaultClass.CriticalEscalatesOncePerEpoch` | src/svc/svc_fdir.c:235-250 | over every run a critical class escalates at most once between clears, and exactly once if the serviced count reaches its limit while fewer than 2^32 reports were made |
| `FaultClass.PassEscalatesIff` | src/svc/svc_fdir.c:235-250 | one pass escalates a critical class, after any number of reports, exactly if it finds news, the class is not elevated, and the reports since the clear, in 32 bits, have reached a non-zero limit |
| `FaultClass.WrapHidesEscalation` | src/svc/svc_fdir.c:235-250 | a run: 2^32 reports, then a pass, and a critical class of any limit has not escalated |
| `FaultClass.WrapHidesEveryReport` | src/svc/svc_fdir.c:336-353 | a run: after 2^32 reports a sound class has no occurrence and every retry left |
| `FaultClass.OtherTiersEscalate` | src/svc/svc_fdir.c:215-257 | a severe class escalates once per pass with news, the lower tiers never |
| `FaultService.PoliciesHold` | src/svc/svc_fdir.c:14-98 | what the policy table promises: only critical classes have a limit and all of them do; the lower tiers are only logged; hazards are severe; they, memory and the boot steps ask for a power cycle; boot steps and lock acquisition get three attempts |
| `FaultService.FeedbackDiesOut` | src/svc/svc_fdir.c:305-322 | with no new external reports, three passes leave nothing unserviced, whatever the link accepts or refuses in each |
| `FaultService.TwoPassesMayNotSuffice` | src/comm/comm_rs485_hk.c:211-228 | two passes are not enough in general: from one state, a refusing link leaves a report unserviced after the second |
| `FaultPass.OneShortIsReached` | src/comm/comm_rs485_hk.c:211-228 | that state is reached from the initial table, by reports of two classes and one pass |
| `FaultPass.TwoPassesLeaveOne` | src/comm/comm_rs485_hk.c:211-228 | so the whole run leaves a report unserviced after two undisturbed passes |
| `FaultService.QuietPass` | src/comm/comm_rs485_hk.c:275-338 | once only the link's own class has news, it is either silenced or elevated, and when elevated its failures escalate no more |
| `FaultService.ServiceEntryEffect` | src/svc/svc_fdir.c:305-322 | servicing a class leaves nothing unserviced and escalates a critical class only into elevation |
| `FaultService.ClearIsTwoSteps` | src/svc/svc_fdir.c:355-370 | an undisturbed clear is its two guarded accesses |
| `FaultService.Service.Report` | src/svc/svc_fdir.c:154-172 | one report of one class; an identifier outside the set changes nothing |
| `FaultService.Service.Escalate` | src/svc/svc_fdir.c:174-208 | what the policy of the class names is asked of the uplink, once; a refused delivery is counted and reported as a fault of the link, an unset uplink only counted |
| `FaultService.Service.Classify` | src/svc/svc_fdir.c:215-257 | the record takes the new occurrences, and escalation is decided by tier and limit |
| `FaultService.Service.ServiceOne` | src/svc/svc_fdir.c:308-321 | the three accesses to one class and the delivery they lead to, with interrupts before each |
| `FaultService.Service.ErrorHandling` | src/svc/svc_fdir.c:305-322 | one pass over the platform counters and every class in order, class 0 excepted, with interrupts reporting before each access of it |
| `FaultPass.InterruptedPass` | src/svc/svc_fdir.c:305-322 | a pass with interrupts reporting between any two of its accesses, for every class: counters and escalations stay in step with its history; it gains exactly what was collected, what interrupts reported and, for the link's own class, the refused deliveries; everything reported by the end of collecting is serviced; each undelivered escalation is counted |
| `FaultPass.PassLeaves` | src/svc/svc_fdir.c:305-322 | what an interrupted pass leaves unserviced of a class is exactly what interrupts report after the class has been loaded and, of the link's own class, the deliveries refused since |
| `FaultPass.LeftUnserviced` | src/svc/svc_fdir.c:305-322 | the same from any class on |
| `FaultPass.EveryRunKeepsCount` | src/svc/svc_fdir.c:154-370 | over every run of such passes, clears and reports, feedback included: no report of any class is lost or counted twice, and a critical class escalates at most once until it is cleared |
| `FaultPass.EveryEscalationAsks` | src/svc/svc_fdir.c:174-208 | over every such run each escalation of a class is exactly one request to the uplink, of the kind its policy names, and nothing else is asked for |
| `FaultPass.PassAsks` | src/svc/svc_fdir.c:305-322 | the same of one interrupted pass |
| `FaultPass.HazardAsksForReset` | src/svc/svc_fdir.c:15-17 | over-current, brownout or excess temperature reported before a pass makes that pass ask for a power cycle on its behalf |
| `FaultPass.SettlesAfterAnyRun` | src/svc/svc_fdir.c:305-322 | after any such run, three passes without new reports leave nothing unserviced |
| `FaultPass.OwnServiced` | src/svc/svc_fdir.c:312-319 | whatever lands between its accesses, servicing a class reaches exactly the reports made before its load |
| `FaultPass.CollectGains` | src/svc/svc_fdir.c:259-290 | how often collecting reports each class |
| `FaultService.LandedReported` | src/svc/svc_fdir.c:154-172 | an interrupt's reports and one of the loop's commute |
| `FaultService.PassUndisturbed` | src/svc/svc_fdir.c:305-322 | without interrupts it is the plain pass |
| `FaultService.Service.CollectCounters` | src/svc/svc_fdir.c:259-290 | overruns are reported one by one, the other counters once per change; what interrupts report between is as if reported after |
| `FaultService.Service.OccurrencesOf` | src/svc/svc_fdir.c:336-342 | the count including what is not serviced yet |
| `FaultService.Service.RetriesExhausted` | src/svc/svc_fdir.c:344-353 | never for a class without a limit |
| `FaultService.Service.Clear` | src/svc/svc_fdir.c:355-370 | the class starts a new epoch |
| `FaultService.Service.ReentryNote` | src/svc/svc_fdir.c:399-407 | past the global limit every re-entry escalates its cause |
| `ExecCore.SlotKeepsPhaseIff` | src/exec/exec_core.c:32-42 | the slot keeps its phase exactly when slot and backlog together fit 32 bits |
| `ExecCore.SlotLosesPhase` | src/exec/exec_core.c:32-42 | a run: a wait after 24 ticks and the next one 2^32 - 1 ticks later consume everything and leave slot 23 where the ticks say 19 |
| `ExecCore.RunCounts` | src/exec/exec_core.c:66-149 | every interleaving of ticks with the loop's accesses keeps counters and true time in step |
| `ExecCore.TimeIsAccountedFor` | src/exec/exec_core.c:90-149 | slot = elapsed modulo 25, and elapsed = waits + cycles lost to overruns + ticks absorbed by resyncs, across wrap |
| `ExecCore.BoundaryAnnouncedIff` | src/exec/exec_core.c:77-154 | after any resync, for every 25-tick boundary whose tick a wait consumes, the caller finds the flag set at exactly one return, of the wait consuming its tick or the one before, also across overruns, unless, and exactly if, its tick landed between the two loads of the resync: then at none |
| `ExecCore.DueIff` | src/exec/exec_core.c:139-154 | a wait returns with the flag set exactly if it passed a boundary not seen before |
| `ExecCore.RecordsAreTrue` | src/exec/exec_core.c:111-149 | what a run records, told by what the caller finds at each return: the major cycles are the returns with the flag set, and the overruns, the cycles they lost and the worst of them are those of the returns that found more than one tick |
| `ExecCore.AnnouncedNearby` | src/exec/exec_core.c:132-146 | along any chain of waits a boundary is announced exactly if the first wait did not find it counted already, and then by the wait consuming its tick or the one before |
| `ExecCore.ResyncCanLoseABoundary` | src/exec/exec_core.c:77-88 | a run in which the 25th tick lands between the two loads of a resync: the next wait reaches slot 0, and the boundary is not announced |
| `ExecCore.NeverTwice` | src/exec/exec_core.c:132-146 | no boundary is announced twice |
| `ExecCore.RunBoundaries` | src/exec/exec_core.c:66-149 | the recorded waits form a chain over ticks and boundaries, in every run |
| `ExecCore.Executive.OnMinorTick` | src/exec/exec_core.c:66-75 | the tick interrupt is one tick of the machine |
| `ExecCore.Executive.AdvanceBy` | src/exec/exec_core.c:32-42 | slot and elapsed count after a backlog |
| `ExecCore.Executive.Poll` | src/exec/exec_core.c:103-113 | polling ends at the first look that finds a tick |
| `ExecCore.Executive.ConsumePending` | src/exec/exec_core.c:114-131 | the ticks found are consumed, all but one of them as an overrun |
| `ExecCore.Executive.CheckMajor` | src/exec/exec_core.c:132-146 | the flag is set, and a major cycle counted, exactly if the interrupt has counted a boundary not seen before |
| `ExecCore.Executive.WaitForMinorTick` | src/exec/exec_core.c:90-154 | the whole wait is a run of its single accesses, with ticks landing anywhere between, and returns with the flag set exactly if the boundary count has moved since it was last seen |
| `ExecCore.Executive.Resync` | src/exec/exec_core.c:77-88 | likewise the resync |
| `ExecCore.Executive.MinorCycles` | src/exec/exec_core.c:171-184 | what is reported as cycles executed is the waits, the ticks absorbed by resyncs, and the lost cycles beyond what the 32-bit overrun count shows |
| `ExecCore.CyclesAreWaitsIff` | src/exec/exec_core.c:171-184 | it is the waits exactly if no resync has absorbed a tick and the overrun count has not wrapped |
| `ExecCore.AbsorbedTicksAreReported` | src/exec/exec_core.c:77-184 | a run: up to 24 ticks and a resync, and that many cycles are reported without a single wait |
| `MemoryTest.Memory.Test` | src/plat/plat_post.c:115-139 | for 2 to 2^31 words the test passes exactly when the address map is injective on the region and no reached bit is stuck, and then word i holds the complement of i |
| `MemoryTest.Memory.TestDataLines` | src/plat/plat_post.c:66-84 | passes exactly if no bit at offset 0 is stuck, and otherwise names a bit whose pattern a stuck bit disagrees with |
| `MemoryTest.Memory.TestAddressLines` | src/plat/plat_post.c:34-62 | passes exactly if offset 0 and the powers of two reach different cells and no stuck bit there disagrees with its pattern |
| `MemoryTest.Memory.PatternsDiffer` | src/plat/plat_post.c:37-44 | offset 0 and the power-of-two offsets all have different patterns |
| `MemoryTest.Memory.TestCells` | src/plat/plat_post.c:88-113 | the two cell passes alone succeed exactly on healthy memory |
| `MemoryTest.Memory.ReadPass` | src/plat/plat_post.c:88-113 | finds a word that does not show its pattern, if there is one |
| `MemoryTest.Memory.BothPassesMeanSound` | src/plat/plat_post.c:88-113 | a cell that shows a pattern and its complement has no stuck bit |
| `MemoryTest.Memory.SharedCellShows` | src/plat/plat_post.c:88-113 | two offsets that reach one cell cannot both show their own pattern |
| `MemoryTest.BitsInjective` | src/plat/plat_post.c:88-113 | different offsets have different patterns |
| `RecordStore.DecodeEncoded` | src/data/storage_nand.c:96-147 | the used part of an undamaged store decodes to exactly the records stored |
| `RecordStore.EncodedIsIntact` | src/data/storage_nand.c:96-147 | an undamaged store has every header and payload as stored |
| `RecordStore.Store.Decay` | src/data/storage_nand.c:225-259 | the damage the transfer is proved against: any change of a payload octet at any time, also ahead of or behind a transfer under way |
| `RecordStore.Store.Corrupt` | src/data/storage_nand.c:198-223 | any change of any octet, headers included: after it only what holds of any device content is claimed |
| `RecordStore.SendsExactlyTheIntactOnes` | src/data/storage_nand.c:180-259 | a transfer hands over each intact record of at most 512 octets once, in order, with its class and bytes, and passes over payloads damaged within four consecutive octets |
| `RecordStore.OutgoingCount` | src/data/storage_nand.c:180-259 | no more is handed over than there are records, and as many only if each was |
| `RecordStore.CompleteWhenCounted` | src/data/storage_nand.c:261-288 | a transfer count equal to the record count means every record went out |
| `RecordStore.LengthCheckIsExactIff` | src/data/storage_nand.c:208-222 | a length from a header is refused exactly when it does not fit, except when the 32-bit sum wraps into the used part |
| `RecordStore.MovesOnIff` | src/data/storage_nand.c:225-231 | a length that is taken moves the transfer on exactly if adding header and length to the offset does not wrap, and leaves it where it is exactly if it is 2^32 - 20 |
| `RecordStore.WrappedHeaderPasses` | src/data/storage_nand.c:206-231 | in any store, a header with a sound mark and kind and a length that makes the sum wrap into the used part is passed over to where the wrapped sum says |
| `RecordStore.DamagedLengthMovesBack` | src/data/storage_nand.c:208-238 | a run from a new store: with the length in the second header damaged to 2^32 - 21, the transfer goes back one octet instead of ending |
| `RecordStore.StandsStill` | src/data/storage_nand.c:180-267 | with the length 2^32 - 20 at its offset, any number of calls leave the transfer active where it is with nothing more handed over, and between any two of them storing and clearing are refused as busy |
| `RecordStore.DamagedLengthStandsStill` | src/data/storage_nand.c:180-267 | a run from a new store into that, by one damaged length |
| `RecordStore.TurnUnderWay` | src/data/storage_nand.c:192-257 | over intact headers a turn at the transfer's offset finds the record at its position and does with it what its length, its checksum and the reads decide |
| `RecordStore.TurnIff` | src/data/storage_nand.c:192-257 | on any device content: a record is offered exactly if a record header is there, its length fits the store and the stage, and the payload read checks; passed over exactly if the header is sound and the payload is too long or does not check; anything else ends the transfer |
| `RecordStore.Store.Put` | src/data/storage_nand.c:96-147 | for every length: the records stored grow by this one or, on any refusal or a device write that failed half way, not at all; an undamaged store stays undamaged; a length whose size check wraps is refused by the device |
| `RecordStore.Store.FitsDeviceIff` | src/data/storage_nand.c:113-116 | a record that passes the 32-bit size check fits the device exactly if its length with the header does not wrap |
| `RecordStore.Store.WriteRecord` | src/data/storage_nand.c:118-140 | the two device writes never touch the used part |
| `RecordStore.Store.TransferBegin` | src/data/storage_nand.c:149-162 | a transfer starts from the first record with nothing handed over |
| `RecordStore.Store.TransferComplete` | src/data/storage_nand.c:169-173 | complete means, over intact headers, that everything stored was handed over, exactly if a transfer has begun since the store was emptied |
| `RecordStore.Store.TransferService` | src/data/storage_nand.c:180-259 | on whatever the device holds, one turn a call: the end, a stop, a record passed over, handed over, or kept for the next call while the queue is full; over intact headers it advances exactly past the record at its position, each advance decreasing what is left |
| `RecordStore.Store.Inspect` | src/data/storage_nand.c:198-250 | header and payload as read decide the turn |
| `RecordStore.Store.TakeTurn` | src/data/storage_nand.c:206-258 | and the turn is taken as decided |
| `RecordStore.Store.Clear` | src/data/storage_nand.c:261-288 | erases only when the counts agree; over intact headers what it erases had all been handed over since the store was last emptied exactly if a transfer has begun since, and if none has the counts agree only by the count left from before; a failed erase leaves anything in the used part and forgets nothing |
| `RecordStore.Store.Attach` | src/data/storage_nand.c:57-74 | at any time, also in a transfer: unusable operations are refused and change nothing; usable ones make the store empty, while the transfer count and a transfer under way stay |
| `RecordStore.Store.Init` | src/data/storage_nand.c:37-55 | without operations everything starts anew |
| `RecordStore.ReattachForgets` | src/data/storage_nand.c:69-73 | a run from a new store: after a transfer of one record and another attach, a record stored since is erased without any transfer of it |
| `RecordStore.Store.ErasesWhatWasSent` | src/data/storage_nand.c:269-275 | with agreeing counts, everything stored has been handed over exactly if a transfer has begun since the store was last emptied |
| `RecordStore.AllAreOffered` | src/data/storage_nand.c:180-259 | from an undamaged store of records of at most 512 octets a transfer hands over all of them |
| `StagedOutput.FrontIff` | src/data/storage_nand.c:234 | after any further reads into the one staging buffer its front is as it was exactly if every octet was last left as it was |
| `StagedOutput.LeftInTimeIff` | src/data/storage_nand.c:234-252 | where every later payload begins with another octet, exactly if nothing has been read since |
| `StagedOutput.SameAgain` | src/data/storage_nand.c:251-255 | reading the same record again, as a refused submission leads to, does no harm |
| `StagedOutput.Downlink.Turn` | src/data/storage_nand.c:234-258 | the payload a turn reads goes into the stage under every descriptor waiting there, whether or not the queue then takes it; one it takes waits as a place and a length |
| `StagedOutput.Downlink.Send` | src/comm/comm_output.c:135-155 | a descriptor leaves with what the stage holds by then, which is what the reads since its submission left of its record |
| `StagedOutput.Downlink.SentIsRecordIff` | include/qiran/comm/comm_output.h:17-19 | in every reachable state, in whatever order descriptors leave: what was sent for a record is that record exactly if every octet of it was last left as it was by the payloads read before its descriptor left |
| `StagedOutput.Downlink.DrainedTransfer` | src/data/storage_nand.c:180-259 | if the queue drains after every turn the link sends exactly what the transfer hands over, over intact headers the intact records in order |
| `StagedOutput.SecondGoesOutTwice` | src/data/storage_nand.c:234-258 | a run: two records, two turns before the link takes anything, and the second record goes out twice |
| `StagedOutput.RecordsByUrgency` | src/data/storage_nand.c:83-92 | each kind of record goes out in packets of its own class, health before processed before raw |
| `ConfigStore.OneParameterCorruptionShows` | src/svc/svc_config.c:95-98 | changing one parameter of any block, to any value, changes its checksum |
| `ConfigStore.OneParameterIsFourOctets` | src/svc/svc_config.c:95-98 | such a change lies within four consecutive octets of the block's memory |
| `ConfigStore.DefaultsAreLegal` | src/svc/svc_config.c:23-67 | every default is within its own limits |
| `ConfigStore.WhatMayBeSet` | src/svc/svc_config.c:23-67 | exactly the durations of the stages are locked in flight, and the temperature setpoint has no value outside its absolute range |
| `ConfigStore.SavedImageIsSound` | src/svc/svc_config.c:297-319 | a saved image passes the test made when it is read |
| `ConfigStore.DamagedImageRefused` | src/svc/svc_config.c:199-215 | a stored image changed within four consecutive octets anywhere, marks and checksum included, is refused |
| `ConfigStore.DamagedRecordRefused` | src/svc/svc_config.c:250-262 | so is a stored calibration record |
| `ConfigStore.RepairIsLegalIff` | src/svc/svc_config.c:194-243 | a repair leaves a legal block exactly when it does not rest on a short image, or what the image does not supply was legal |
| `ConfigStore.FullImageRestores` | src/svc/svc_config.c:194-243 | a sound legal full-count image restores exactly its values |
| `ConfigStore.ShortImageKeepsCorruption` | src/svc/svc_config.c:221-241 | a sound image of no parameters leaves a corrupted parameter in a block declared repaired |
| `ConfigStore.Config.constructor` | src/svc/svc_config.c:115-132 | the block starts as the defaults, legal and with matching checksum |
| `ConfigStore.Config.Set` | src/svc/svc_config.c:165-188 | a value is taken exactly if it is in range and not locked in flight; a legal block stays legal and matching |
| `ConfigStore.Config.ReadParams` | src/svc/svc_config.c:194-243 | which image is refused, and what an accepted one leaves in each parameter |
| `ConfigStore.MergedIsTakenOver` | src/svc/svc_config.c:217-243 | parameter by parameter: those the image counts take its value if it is within the limits and the default if not, the rest keep their own |
| `ConfigStore.Config.TakeOver` | src/svc/svc_config.c:225-240 | in place, and each default taken is counted as a correction |
| `ConfigStore.Config.Load` | src/svc/svc_config.c:273-295 | a usable image is merged, an unusable one gives the defaults, no storage leaves everything alone; the calibration is valid exactly if its record is sound, which the status does not tell |
| `ConfigStore.Config.ReadCalibration` | src/svc/svc_config.c:245-271 | a record is taken exactly if it is marked, checks, and counts no more points than it has |
| `ConfigStore.Config.SetCalibration` | src/svc/svc_config.c:357-384 | what is written is what is kept, marked and with its checksum; a record counting too many points is refused and changes nothing |
| `ConfigStore.CalibrateThenLoad` | src/svc/svc_config.c:245-384 | a calibration set on one side and loaded on another arrives whole |
| `ConfigStore.Config.Save` | src/svc/svc_config.c:297-319 | refused without storage; otherwise the image of the live block is written, and the answer is the write's |
| `ConfigStore.Config.Verify` | src/svc/svc_config.c:321-350 | finds every block that is out of range or does not match, leaves a good one alone, and repairs a bad one |
| `ConfigStore.SaveThenLoad` | src/svc/svc_config.c:273-319 | save then load gives back exactly the legal block saved |
| `ConfigStore.CorruptVerifyVerify` | src/svc/svc_config.c:321-350 | corruption of one parameter is found even in range; with intact or unusable storage the block comes out legal and matching, and a second verify passes |
| `Calibration.Expected` | src/svc/svc_config.c:392-433 | refuses exactly without a usable curve or off the span, and otherwise interpolates on the first segment that reaches the current |
| `Calibration.ClosesIsOne` | src/svc/svc_config.c:408-415 | at most one segment is the first to reach a current |
| `Calibration.ProductFits` | src/svc/svc_config.c:423-428 | the 64-bit product never overflows, on any curve |
| `Calibration.PlainArithmetic` | src/svc/svc_config.c:417-428 | on a rising segment no difference, quotient or sum wraps |
| `Calibration.AnswerIsBracketed` | src/svc/svc_config.c:408-430 | the answer lies between the bracketing powers, at or below the exact straight line and by less than one |
| `Calibration.CurveNeverFalls` | src/svc/svc_config.c:392-433 | across the whole curve a larger current never gets a smaller power |
| `Calibration.ExactAtPoints` | src/svc/svc_config.c:392-433 | at a calibrated point the answer is that point's power |
| `Calibration.Compare` | src/svc/svc_config.c:392-433 | two readings succeed exactly on the span and keep the order of their currents |
| `Mission.NoStageIsSkipped` | src/mission/mission_seq.c:126-196 | at every point of every run, for each stage below the current one the last outcome applied at or below it was its own completion |
| `Mission.StepLeads` | src/mission/mission_seq.c:126-196 | a completion leads to the next stage unless there is none, a return to the earlier stage it names, anything else nowhere; entries, attempts, re-entries, payload status and the budget mark follow, and exactly an abort or a return that is none stops the sequence, besides a retry too many |
| `Mission.StepBlames` | src/mission/mission_seq.c:126-196 | a step reports, once, the class its outcome names or else the stage's own if it retried, returned or aborted, and the timeout class if newly late; a completion clears the class instead; nothing else is reported but by interrupts and by the link |
| `Mission.CompletionsArrive` | src/mission/mission_seq.c:155-164 | after n completions from the start the sequence stands in stage n, or in the last, each stage up to there entered once, operational once the detector stage is behind it |
| `Mission.StagesBlame` | src/mission/mission_seq.c:14-37 | which stages share a fault class, and how many attempts each is given |
| `Mission.EntriesAddUp` | src/mission/mission_seq.c:55-62 | the entry counts total one + advances + retries that did not stall + accepted returns, and re-entries are those returns, modulo 2^32 |
| `Mission.RunIsOrderly` | src/mission/mission_seq.c:126-196 | per stage, the entry count is the turns that entered it; attempts are the retries since the last move; the payload is operational only after its stage completed and no abort |
| `Mission.StoppedStaysPut` | src/mission/mission_seq.c:126-238 | once stalled or aborted no later call runs a stage, moves the position or counts, in any run |
| `Mission.RetriesAreBounded` | src/mission/mission_seq.c:166-174 | since a class with a limit was last cleared it was retried at most that often and the retry reaching the limit stalled, whatever reports, services or clears meanwhile, for fewer than 2^32 reports |
| `Mission.RetryKeepsBound` | src/mission/mission_seq.c:166-174 | one more reported retry keeps that bound or stalls |
| `Mission.RetryStallsIff` | src/mission/mission_seq.c:166-174 | a retry stalls, after any number of reports, exactly if its class has a limit and the reports since the clear, in 32 bits, have reached it |
| `Mission.RetriesWithoutBound` | src/mission/mission_seq.c:166-174 | for every number and class there is a run from the start with that many retries of it and no stall, 2^32 reports apart |
| `Mission.NoLimitNeverStalls` | src/mission/mission_seq.c:166-174 | a class without a limit never stalls the sequence by retrying |
| `Mission.EveryEntryIsAMove` | src/mission/mission_seq.c:55-62 | every entry is an advance, a retry or a return |
| `Mission.Sequencer.Step` | src/mission/mission_seq.c:126-196 | in place, one turn: nothing at all once stopped, only the budget where no step is registered, and otherwise to the stage the outcome leads to, with everything counted on the way |
| `Mission.Sequencer.Apply` | src/mission/mission_seq.c:149-195 | the outcome's reports or clears, and the move it makes |
| `Mission.Sequencer.FinishDone` | src/mission/mission_seq.c:155-164 | a completion clears its class and advances, except from the last stage |
| `Mission.Sequencer.FinishRetry` | src/mission/mission_seq.c:166-174 | the retry is reported before the limit is asked about, and stalls if none is left |
| `Mission.Sequencer.FinishBack` | src/mission/mission_seq.c:176-189 | only a return to an earlier stage is accepted; any other stalls |
| `Mission.Sequencer.CheckBudget` | src/mission/mission_seq.c:103-124 | an overrun is reported once per entry, only for timed stages |
| `Mission.Sequencer.Enter` | src/mission/mission_seq.c:55-62 | the new position, counted, with a fresh budget |
| `Mission.Sequencer.Abort` | src/mission/mission_seq.c:228-238 | the first cause stays |
| `Mission.Sequencer.Register` | src/mission/mission_seq.c:86-99 | a stage's step is registered once |
| `Mission.Sequencer.constructor` | src/mission/mission_seq.c:64-84 | the state every run starts from |
| `Boot.Sequence.RunStep` | src/plat/plat_boot.c:140-189 | the unbounded loop ends within the class's limit (once if it has none), at the first success or at the first failure with which the reports reach the limit, interrupts reporting during the attempts and between the accesses of their service passes; a step given up has its class elevated exactly if the reports reach the limit without those made too late for the last pass; one without tolerance has escalated; the faults are those of the failed and late attempts |
| `Boot.Sequence.BootAndInit` | src/plat/plat_boot.c:191-225 | no step begins before all earlier ones passed; success exactly if all five pass, and then their classes start anew; failure leaves later steps unattempted and the failed class as the step left it; a boot in which every step passes at once and in time reports and escalates nothing |
| `Boot.Sequence.ForgetBootFaults` | src/plat/plat_boot.c:216-222 | every boot class starts a new epoch |
| `Boot.Sequence.ReportAttempt` | src/plat/plat_boot.c:164-180 | an attempt that failed, or passed late, is reported and serviced on the spot, with interrupts reporting during it, before the pass and inside it |
| `Boot.Sequence.PassAttempt` | src/plat/plat_boot.c:159-171 | an attempt that passed is reported and serviced only if it was late |
| `Boot.RoundVerdict` | src/plat/plat_boot.c:173-187 | after a failed attempt no retry is left exactly if the reports have reached the limit, at the latest when the attempts have; the class is elevated exactly if they have without those made after the pass loaded it; a class without tolerance has escalated |
| `Boot.AfterFailure` | src/plat/plat_boot.c:173-180 | a failed attempt adds to every boot class its own report and those of the interrupts, services what was reported before the pass, and leaves exactly what came after the class was loaded |
| `Boot.StepsBlame` | src/plat/plat_boot.c:114-125 | each step has a class of its own; the first gets one attempt, every other three |
| `Boot.AfterSuccess` | src/plat/plat_boot.c:153-170 | an attempt in time adds to every boot class what the interrupts reported and services nothing; a late one is one more report of its class, serviced, and escalates a class without tolerance |
| `Boot.PassingIs` | src/plat/plat_boot.c:153-170 | so a step that passed has had its class reported and serviced once more exactly if its last attempt was late |
| `Boot.RoundsGain` | src/plat/plat_boot.c:150-188 | each failed attempt of a step adds at least one report of its class, and no class gains more than its attempts and their interrupts report |
| `Boot.SpentAndElevated` | src/plat/plat_boot.c:173-187 | for a sound critical class: out of retries is enough reports since the clear, elevated is enough of them serviced |
| `Boot.GivenUpUnelevated` | src/plat/plat_boot.c:173-187 | a run from the initial table: one failed attempt, two reports of its class after the pass has loaded it, and the step is given up with its limit reached and no power cycle asked for |
| `SpacePacket.ParsePrinted` | src/comm/comm_ccsds.c:118-171 | every legal header is parsed back from its octets (section 4.1.3 of CCSDS 133.0-B-2), whatever follows |
| `SpacePacket.PrintParsed` | src/comm/comm_ccsds.c:118-171 | every six octets are what the header parsed from them prints as |
| `SpacePacket.HeaderLayout` | src/comm/comm_ccsds.c:118-146 | each field is where section 4.1.3 of CCSDS 133.0-B-2 puts it |
| `SpacePacket.BuiltLayout` | src/comm/comm_ccsds.c:198-224 | every packet built is telemetry of version 1 without secondary header, unsegmented, with its own identifier, count and length in the octets |
| `SpacePacket.ExaminedAs` | src/comm/comm_ccsds.c:237-279 | what becomes of any octets, said of the octets: the first thing wrong decides, and what is handed on is what lies between header and checksum, for the class whose identifier is there |
| `SpacePacket.ClassOfItsApid` | src/comm/comm_ccsds.c:85-96 | a class is found by its own identifier |
| `SpacePacket.BuiltIsRouted` | src/comm/comm_ccsds.c:181-309 | a packet built under distinct identifiers is routed to its class with exactly its application data, for up to 65532 octets |
| `SpacePacket.DamagedDataExactly` | src/comm/comm_ccsds.c:252-278 | a packet whose data field is damaged within four consecutive octets, checksum and boundary included, is refused, whatever became of its header, unless exactly the header keeps its length and the change is 61 D8 F4 EE across the end of at least two octets of application data |
| `SpacePacket.CountIsNotProtected` | src/comm/comm_ccsds.c:281-293 | the checksum does not cover the header: a packet whose count was changed is accepted as that count |
| `SpacePacket.GapsAreBreaks` | src/comm/comm_ccsds.c:281-301 | over any deliveries, classes interleaved, the gap counter is the number not adjacent modulo 16384 to the one of their class before |
| `SpacePacket.GapsEndToEnd` | src/comm/comm_ccsds.c:226-301 | the same from the octets of any packets built to the receiver's counter |
| `SpacePacket.LossShowsExactly` | src/comm/comm_ccsds.c:281-301 | a loss run between packets delivered in order shows exactly when its length is not a multiple of 16384 |
| `SpacePacket.BreakMeansLoss` | src/comm/comm_ccsds.c:226-228 | between packets delivered in the order built, a break means packets of that class were lost |
| `SpacePacket.ArrivesAsBuilt` | src/comm/comm_ccsds.c:181-309 | the k-th packet built arrives as its class, its data and its build index modulo 16384 |
| `SpacePacket.BuildHeader` | src/comm/comm_ccsds.c:118-146 | in place: the octets of a header that fits, the rest of the buffer untouched, or nothing |
| `SpacePacket.ParseHeader` | src/comm/comm_ccsds.c:148-171 | refused only when shorter than a header |
| `SpacePacket.PacketLayer.SetApid` | src/comm/comm_ccsds.c:60-78 | accepted exactly if usable and not another class's, so identifiers stay distinct |
| `SpacePacket.PacketLayer.ClassOf` | src/comm/comm_ccsds.c:85-96 | a class exactly if the identifier is assigned |
| `SpacePacket.PacketLayer.Build` | src/comm/comm_ccsds.c:181-235 | the buffer holds the next packet of its class, and the transmit count is the packets built modulo 16384, across 32-bit wrap |
| `SpacePacket.PacketLayer.Receive` | src/comm/comm_ccsds.c:237-309 | status, counters, sequence memory and hand-over follow from what the packet is |
| `SpacePacket.PacketLayer.Register` | src/comm/comm_ccsds.c:98-111 | a consumer is registered once |
| `SpacePacket.BuildThenReceive` | src/comm/comm_ccsds.c:181-309 | build on one side, receive on the other: the consumer is handed exactly the octets built from |
| `OutputQueue.SortedIsStableSort` | src/comm/comm_output.c:12-19 | the order of leaving is the stable sort by class priority: a permutation, ordered, each priority in its own order |
| `OutputQueue.UrgentLeavesFirst` | src/comm/comm_output.c:6-19 | nothing leaves before fault and event data, then status, then processed results; raw science and files leave before nothing else |
| `OutputQueue.ByUrgency` | src/comm/comm_output.c:6-19 | the order of the classes by priority |
| `OutputQueue.PickIsHead` | src/comm/comm_output.c:105-122 | the slot picked holds the head of the stable sort of what is queued |
| `OutputQueue.EarliestWinsIff` | src/comm/comm_output.c:65-104 | a submission leaves after everything of its priority queued before it exactly if no slot above the lowest free one holds an item of its priority |
| `OutputQueue.LaterOvertakes` | src/comm/comm_output.c:65-159 | a run from an empty queue: two submissions, one packet sent, a third submission, and the third goes out before the second |
| `OutputQueue.Queue.constructor` | src/comm/comm_output.c:44-58 | an empty queue with all counts at zero |
| `OutputQueue.Queue.Submit` | src/comm/comm_output.c:65-99 | into the lowest free slot, or refused with its reason; a full queue is counted |
| `OutputQueue.Queue.Pick` | src/comm/comm_output.c:105-122 | the best slot, or none exactly if nothing is queued |
| `OutputQueue.Queue.Round` | src/comm/comm_output.c:126-158 | what one round does to any descriptor: sent, kept, or dropped if it cannot be a packet |
| `OutputQueue.Queue.Service` | src/comm/comm_output.c:124-159 | sends packets of the items queued, in the order of the stable sort, until the queue is empty or the link stops; pending = used slots, submitted = pending + sent + failed, failed stays 0 |
| `OutputQueue.CarriedIsFound` | src/comm/comm_output.c:135-152 | in the octets sent for an item a receiver under the same identifiers finds exactly that item |
| `OutputQueue.Batch` | src/comm/comm_output.c:65-159 | any submissions to an empty queue, then any passes: what was sent, as packets of its own, is a prefix of the stable sort of what was admitted, the rest still queued |
| `BufferStore.Store.Handoff` | src/data/storage_ddr.c:89-108 | accepted exactly from the stated owner of a configured region; anything else changes no owner |
| `BufferStore.Store.Clear` | src/data/storage_ddr.c:110-123 | only its owner releases a region, which is then empty |
| `BufferStore.Store.Append` | src/data/storage_ddr.c:125-162 | in place, all of the data after what is there or nothing; used never exceeds the memory |
| `BufferStore.Store.SetUsed` | src/data/storage_ddr.c:164-190 | never beyond the memory; what is refused is counted as an overrun or a violation |
| `BufferStore.Store.Read` | src/data/storage_ddr.c:192-214 | only the owner sees the used part; another's attempt is counted |
| `BufferStore.Store.SetRegion` | src/data/storage_ddr.c:41-58 | memory is not changed under an owner |
| `BufferStore.Store.FreeRawSlot` | src/data/storage_ddr.c:234-255 | a free configured slot of the channel's own pair, or none exactly if there is none |
| `BufferStore.Copy` | src/data/storage_ddr.c:155-157 | the copied octets follow the old ones and nothing else moves |
| `DataPath.HandOverIsExact` | src/data/data_path.c:57-100 | over every run of clients that release only regions they have taken: taken and waiting are the completions in order, distinct, no overflow, and no region completes more often than it was armed |
| `DataPath.RoomForCompletion` | src/data/data_path.c:90-94 | a region the fabric owns is not listed, so by pigeonhole the list has room |
| `DataPath.ListStaysSoundIff` | src/data/storage_ddr.c:89-123 | one accepted operation keeps the list sound exactly if its region is not waiting, or stays with the processor |
| `DataPath.UntakenReleaseDuplicates` | src/data/data_path.c:80-100 | releasing a region still waiting lets it be listed twice |
| `DataPath.CompletionIff` | src/data/data_path.c:80-100 | the number an interrupt gives is taken modulo 7; it is listed exactly if the fabric owns that region and there is room, and refused exactly if it does not own it |
| `DataPath.StrayNumberCompletes` | src/data/data_path.c:80-82 | a run: the number 7 completes region 0 |
| `DataPath.StepKeeps` | src/data/data_path.c:30-100 | every disciplined step keeps the hand-over exact |
| `DataPath.Path.Arm` | src/data/data_path.c:30-50 | the free slot of the pair goes to the fabric, or the failure is counted |
| `DataPath.Path.Complete` | src/data/data_path.c:80-100 | the region the interrupt named joins the list, or is counted as dropped because the fabric did not own it |
| `DataPath.Path.List` | src/data/data_path.c:90-99 | the region joins the end of the list, or is counted if there is no room |
| `DataPath.Path.TakeReady` | src/data/data_path.c:57-73 | the oldest region comes out, owned by the processor, and the rest keep their order |
| `DataPath.Path.ServiceInterrupts` | src/data/data_path.c:112-119 | all queued completions, in their order |
| `OutputQueue.Queue.SendBest` | src/comm/comm_output.c:126-158 | the head of the stable sort goes out exactly if the link takes it |
| `OutputQueue.Queue.Take` | src/comm/comm_output.c:77-88 | a slot taken counts as pending and submitted, and raises the high-water mark |
| `Mission.Sequencer.FinishAbort` | src/mission/mission_seq.c:190-194 | an abort outcome is reported and stalls |
| `FaultService.Service.CollectIrqDrops` | src/svc/svc_fdir.c:259-290 | one report per interrupt source whose drop count changed |
| `Boot.Sequence.ClearReport` | src/plat/plat_boot.c:196-202 | every report field starts clean |
| `SpacePacket.PacketLayer.Fill` | src/comm/comm_ccsds.c:206-224 | in place: header, data and checksum are the packet, the rest of the buffer untouched |
| `SpacePacket.PacketLayer.Advance` | src/comm/comm_ccsds.c:226-228 | the count moves on modulo 16384 with each packet built |
| `SpacePacket.PacketLayer.Hear` | src/comm/comm_ccsds.c:292-301 | a gap is counted once and then adopted |
| `SpacePacket.PacketLayer.constructor` | src/comm/comm_ccsds.c:39-58 | the default identifiers are distinct, nothing sent or heard |
| `ExecCore.Executive.Look` | src/exec/exec_core.c:105-110 | one look at the tick count is one step |
| `ExecCore.Executive.RecordOverrun` | src/exec/exec_core.c:120-128 | more than one tick pending is an overrun by the rest |
| `ExecCore.Executive.Absorb` | src/exec/exec_core.c:77-88 | a resync consumes the backlog without counting it as an overrun |
| `RecordStore.Store.Accept` | src/data/storage_nand.c:240-258 | a record the queue takes is counted and moved past, once |
| `RecordStore.Store.Skip` | src/data/storage_nand.c:225-238 | a record passed over is moved past and not counted |
| `RecordStore.Store.Empty` | src/data/storage_nand.c:280-287 | an erased store is a fresh one |
| `ConfigStore.Config.LoadDefaults` | src/svc/svc_config.c:105-113 | every parameter takes its default and the checksum matches |
| `ConfigStore.Config.LiveChecksum` | src/svc/svc_config.c:95-98 | the checksum of the block's memory |
| `MemoryTest.Memory.WritePass` | src/plat/plat_post.c:88-113 | healthy memory shows every word its own pattern after a pass |
| `BufferStore.Store.constructor` | src/data/storage_ddr.c:25-39 | nothing configured, nothing owned |
| `DataPath.Path.constructor` | src/data/data_path.c:22-28 | the idle state every run starts from |

## Left out

Parts of the firmware that are not modelled:

- Hardware access (`plat_gic.c`, `plat_timer.c`, `plat_cpu.c`, `plat_reg.h`, cache maintenance): foreign calls and assembly; what remains of it is the tick and the interrupt as steps.
- The files of `src/hal` and `src/board`, and those of `src/photonic` and `src/plat` that are six lines long: each holds one function that answers "unsupported" and keeps no state.
- `data_product.c`: double-precision formulas, where rounding is the point.
- The housekeeping frame layout and sampler in `comm_rs485_hk.c`: straight-line packing; only whether its link takes a frame matters to the fault service.
- `exec_sched.c`: which task is due in which slot, a remainder per task over a constant table, and the cycle counts measured around each task; no modelled file asks it.
- `photonic_sched.c`: calls each enabled control loop once per minor cycle and reports the ones that fail; to the fault service these are reports like any other.
- `svc_health.c`, `svc_watchdog.c`: count consecutive failures of registered checks, and restart the watchdog timer while no gating check has failed too often in a row; their reports reach the fault service as parameters.
- `plat_devinit.c`, `plat_safe_outputs.c`: call a registered list of functions and combine their answers into one; that one answer is a parameter of the boot sequence.
- `comm_spw_link.c`: starts the packet link, watches it and hands packets to `comm_ccsds.c`; whether the link takes a packet, and what it delivers, are parameters.
- `svc_log.c`: a ring of entries for reading on the ground, on which nothing else depends.
- `exec_major.c` tracing, name tables, `main.c`, the shims and the build: printing and plumbing.
- Measured durations, worst-case cycle counts, fault details and log entries: recorded but never decided on, except a boot step's or stage's budget, whose excess is a parameter.
- Memory-ordering barriers: one core, so sequentially consistent steps are enough.
- Fault reports made by `comm_cmd.c`, `comm_ccsds.c`, `comm_output.c`, `storage_nand.c`, `svc_config.c`, `storage_ddr.c` and `data_path.c`: their counters are modelled, the reports themselves are `FaultService.Service.Report` and change nothing in those files.
- Identifiers outside an enumeration (owners, step results, packet flags): enumerations are datatypes, so only their members occur; region, class, parameter, command and stage numbers are plain numbers and their range checks are modelled.
- Null pointers: a missing handler, step, consumer, memory or storage is modelled; null data and result pointers are not values here.
- `mission_payload_status_set`: an outside caller may set the payload status; the model shows what the sequence itself makes of it.

Contracts stated for less than every machine state:

- InterruptRing.Init: states the bit test of src/svc/svc_ring.c:10 as being a power of two, and the index mask as a remainder, because the two agree on powers of two and integers carry the wrap proofs.
- CommandSequence.CommandService.Track: whether the budget has expired is a parameter, because the clock is outside the model.
- Handoff.EveryInterleavingIsSafe: one interrupt source per queue, which runs to completion and does not interrupt itself.
- EventQueue.IrqSource.Take: each of the four fields of an event is one access, and the copy ends with the load of the last.
- EventQueue.IrqSource.Handle: tick, datum and kind come as parameters, because the acknowledge hook and the raw tick are outside the file.
- FaultService.Service.Report: the detail and the tick a report leaves behind are not kept, because nothing is decided on them.
- FaultService.Service.Escalate: what the uplink is asked for is kept as class and kind; the frame that carries it on the housekeeping link is not modelled.
- FaultService.Service.Classify: the last detail, last tick and per-tier totals of a record are not kept, for the same reason.
- FaultService.Service.ErrorHandling: the record of a class is written in one access, because only the loop touches it; the platform counters are read at one moment.
- FaultPass.InterruptedPass: what was reported before the pass is serviced by it as long as the class has fewer than 2^32 reports since its last clear, because the news is a 32-bit difference.
- CommandLink.Link.Service: frames that come in space packets go through `CommandSequence.CommandService.Submit` and are not mixed into this stream; a gap that the interrupt source reports is taken between services, as the source does.
- CommandLink.Link.Drain: the interrupt goes on pushing for any finite number of reads, because otherwise the loop need not end.
- FaultClass.CriticalEscalatesOncePerEpoch: exactly once, rather than at most once, only while fewer than 2^32 reports are made in the epoch, because the counter has 32 bits.
- ExecCore.TimeIsAccountedFor: assumes the loop is never 2^32 ticks behind, because the slot provably loses its phase beyond that.
- ExecCore.BoundaryAnnouncedIff: the same assumption; and of the boundaries whose tick the resync itself consumes nothing is announced, by design.
- ExecCore.Executive.WaitForMinorTick: assumes a tick comes at all, because the wait has no other way to end.
- MemoryTest.Memory.Test: up to 2^31 words, because beyond that the 32-bit offset of the address loop wraps to zero and the loop does not end.
- RecordStore.Store.Put: a device of fewer than 2^32 octets, as its 32-bit addresses have it, that reports an error for a write reaching beyond its end.
- RecordStore.Store.TransferService: counts a record handed over when the queue accepts it; what is then sent of it is `StagedOutput.Downlink`. A device read that fails leaves the stage as it was.
- RecordStore.Store.Clear: what had been handed over is told for stores whose headers no one has damaged; with a damaged header only the status, the emptied store and the failed erase are.
- RecordStore.SendsExactlyTheIntactOnes: for damage within four consecutive octets of a payload, which is what the checksum promises.
- ConfigStore.CorruptVerifyVerify: assumes a stored image supplies every parameter, because a short one provably may keep corruption.
- Calibration.CurveNeverFalls: for curves that rise, which the calibration writer is not made to check.
- Mission.RetriesAreBounded: for classes with a limit and fewer than 2^32 reports between clears.
- Mission.Sequencer.Step: an outcome's fault is a class of the table, because a re-entry note for any other indexes outside it.
- Boot.Sequence.RunStep: assumes the reports a step may meet fit 32 bits, because its counter is the retry counter. Durations are not kept.
- Mission.Sequencer.CheckBudget: whether the stage is over its budget is a parameter, because the clock is outside the model.
- SpacePacket.BuildHeader: the shifts and masks are written as the arithmetic they are on fields that fit.
- SpacePacket.PacketLayer.Build: assumes the length with its header fits 32 bits, because the size check wraps beyond that; sequence properties are over packets built, since a count is spent even if the link then refuses the packet.
- StagedOutput.Downlink.Send: the descriptor that leaves may be any that waits, so the result holds for every order, that of `OutputQueue` included; descriptors of other buffers are not in this list.
- OutputQueue.Queue.Submit: assumes the length with header and checksum fits 32 bits, because the size check wraps beyond that; descriptors carry their data, because the order of leaving does not depend on it. What a producer that changes a queued buffer does to it is `StagedOutput.Downlink`, for the one producer that does.
- OutputQueue.Batch: for submissions to an empty queue with none in between, because slots are reused otherwise.
- BufferStore.Store.Append: two regions given the same memory see each other's writes; contents of other regions are claimed only when their memory is another.
- DataPath.HandOverIsExact: for clients that release only regions they have taken, because otherwise it provably fails.
