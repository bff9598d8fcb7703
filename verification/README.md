# Verified model of the radio-unit runtime

The executables `nr-softmodem`, `lte-softmodem`, `nr-uesoftmodem`, `lte-uesoftmodem` and `nr-oru`
run a set of real-time threads that turn an unreliable sample clock into exact frame and slot
counters and pass slots between stages through queues, bit masks and condition variables. This
project models those threads and proves properties of them over all runs. One file holds one
protocol:

| file | models |
|---|---|
| `NrNumerology.dfy` | sample arithmetic of the NR frame with normal prefix, against section 5.3.1 of 3GPP TS 38.211 |
| `OruDownlink.dfy`, `OruStartup.dfy` | O-RU downlink time stamps and synchronisation to the anchor |
| `OruUplinkScheduler.dfy`, `OruWorkQueue.dfy`, `OruUplink.dfy` | O-RU table of pending uplink jobs, the ring that feeds its workers, and the two together |
| `NrSlotPipeline.dfy` | the gNB's RU, L1 TX and L1 RX threads, three queues and the busy flags |
| `NrRxClock.dfy`, `NrTxBurst.dfy` | the gNB's receive clock and look-ahead; burst flags under TDD |
| `LteRxClock.dfy`, `LteSymbolMask.dfy`, `LteRuBarrier.dfy`, `LteLateControl.dfy` | the LTE radio unit: clock and resynchronisation, symbol masks, the barrier of all radio units, late-burst recovery |
| `LteUeBlocks.dfy` | block sizes and time stamps of the LTE UE's sample loop |
| `NrUeRadio.dfy` | which NR UE uses which cell on which radio unit, retuning, lockstep of the sample streams |
| `LteL1Mailbox.dfy` | the one-slot mailbox between the eNB's L1 threads |
| `Arith.dfy`, `Bits.dfy` | division facts and bit masks used by the others |

Code that updates state in place is a class or an array method proved equal to a specification
function; threads are state machines whose steps are the critical sections (or single accesses
of a volatile variable), interleaved arbitrarily. Devices, packets and polled jobs are inputs.

Where a property does not hold of the code for all inputs, the model keeps the code and the
lemma states exactly when it does hold:

- The start-up gap is cast to `int`: a gap of 2^31 samples or more is never closed (`OruStartup.ReadUpTo`).
- The anchor offset is an unsigned 32-bit product and wraps for long frames (`OruDownlink.AnchorIsExactIff`).
- A job for no symbol is dispatched symbol after symbol, and each of its items then fails the
  fronthaul's range check; a job reaching beyond its slot is served up to the last symbol and
  dropped later (`OruUplinkScheduler.StartedJobIsServedIff`, `OruUplinkScheduler.DispatchedRange`).
- Slots exactly half a cycle apart are ambiguous (`OruUplinkScheduler.FoldIsTheTrueDifferenceIff`).
- A first read inside the last slot of frame 1023 leaves the frame counter at 1024, and one a frame
  or more before time zero leaves a logical time that is labelled slot 0 throughout; the next read
  then ends the process (`NrRxClock.ClockFailsIff`). The first read is covered although it leaves
  the derived slot number one behind the loop's.
- A retune between the reads of one round puts radio units out of step unless the retuned UE and
  UE 0 are on the same side of it (`NrUeRadio.MidRoundRetuneIff`).
- Jobs are dropped exactly when a poll returns more of them than there are free entries
  (`OruUplinkScheduler.PollAdmits`, `OruUplinkScheduler.AdmittedArePolled`).
- A job admitted in its own slot after its first symbol is never served (`OruUplinkScheduler.ServedInItsSlotIff`).
- An LTE UE that misses its processing thread in the first subframe of a frame labels all later
  frames one too low (`LteUeBlocks.FrameToldIff`).
- In TDD a recovery can put START in the place of END, and a second START follows
  (`LteLateControl.OpensRightlyIff`).
- A single downlink slot between uplink slots, with no mixed slot, opens bursts and never ends one
  (`NrTxBurst.PlainBurstsIff`).
- The gNB sends one symbol more than the mixed slot's downlink symbols, because a symbol count is
  used as an inclusive symbol number (`NrTxBurst.MixedSlotLength`).
- An LTE frame resynchronisation applied in the first subframe of a frame ends the process
  (`LteRxClock.DriftFreeResync`), since the stored frame number is still the previous one.
- The mask of an LTE subframe is tested numerically, so one packet with too high a symbol number
  completes it (`LteSymbolMask.FullMeans`).
- An RU ten subframes ahead of the slowest loses its report (`LteRuBarrier.AllTicksIffPaced`).
- A receiver fault is overwritten if it falls between the transmitter's reading of `late_control`
  and its replacing it (`LteLateControl.FaultIsKeptIff`).

## Model

| member | source | states |
|---|---|---|
| `NrNumerology.InitFrameParms` | openairinterface5g/executables/nr-oru.c:307-320 | for every numerology 0 to 4, initialisation establishes the relations between the sample counts that all later arithmetic relies on |
| `NrNumerology.EmittedPrefixIsTheStandardOne` | openairinterface5g/executables/nr-oru.c:369-388 | the long-prefix branch is taken exactly at symbols 0 and 7 * 2^mu of a subframe (section 5.3.1 of 3GPP TS 38.211) |
| `NrNumerology.SymbolDurationIsTheSum` | openairinterface5g/openair1/PHY/INIT/nr_parms.c:170-208 | for every slot and symbol range, the closed formula equals the sum of the standard's symbol lengths in it |
| `NrNumerology.SamplesPerSlotIsTheSum` | openairinterface5g/openair1/PHY/INIT/nr_parms.c:158-168 | a slot is as long as its fourteen symbols, and never empty |
| `NrNumerology.SlotTimestampStep` | openairinterface5g/openair1/PHY/INIT/nr_parms.c:248-270 | the slot offset grows by exactly one slot length per slot, across half subframes |
| `NrNumerology.SlotTimestampIsTheSum` | openairinterface5g/openair1/PHY/INIT/nr_parms.c:248-270 | the slot offset is the sum of all symbol lengths before the slot, for any slot number |
| `NrNumerology.SymbolTimestampIsTheSum` | openairinterface5g/openair1/PHY/INIT/nr_parms.c:210-217 | slot offset plus symbol offset is the sum of all symbol lengths before the symbol |
| `NrNumerology.OneFrame` | openairinterface5g/executables/nr-oru.c:318-320 | the symbol pattern repeats after exactly samples_per_frame samples |
| `NrNumerology.SlotFromTimestampIsRight` | openairinterface5g/openair1/PHY/INIT/nr_parms.c:219-246 | the slot computed from a time stamp is the one slot of the frame whose sample range contains it |
| `OruDownlink.TimestampIsTheSum` | openairinterface5g/executables/nr-oru.c:451-453 | a downlink time stamp is the sum of all symbol lengths since the anchor's hyper frame |
| `OruDownlink.EmittedLenIsTheStandardOne` | openairinterface5g/executables/nr-oru.c:369-388 | the samples put out for a symbol are as many as the standard gives it |
| `OruDownlink.ConsecutiveSymbolsAbut` | openairinterface5g/executables/nr-oru.c:436-453 | time stamps of consecutive symbols abut across slot, frame and hyper-frame wrap |
| `OruDownlink.SentIff` | openairinterface5g/executables/nr-oru.c:448-456 | a symbol is sent exactly when it is not of an earlier hyper frame and its sample number is not negative |
| `OruDownlink.SentSymbolsAreDisjoint` | openairinterface5g/executables/nr-oru.c:440-457 | in whatever order symbols arrive, those sent occupy disjoint sample ranges in air order |
| `OruDownlink.AnchorIsExactIff` | openairinterface5g/executables/nr-oru.c:434-437 | the anchor's first symbol goes out at the anchor's sample if and only if the offset product fits in 32 unsigned bits |
| `OruDownlink.AnchorCanWrap` | openairinterface5g/executables/nr-oru.c:436 | a configuration and frame for which it does not fit |
| `OruStartup.NextLabel` | openairinterface5g/executables/nr-oru.c:637-644 | counting slot and frame by hand equals counting the slot number modulo 1024 frames |
| `OruStartup.SkipSlots` | openairinterface5g/executables/nr-oru.c:635-645 | the first loop ends, having skipped the least number of slots that reaches the first read, with the label that many slots later |
| `OruStartup.ReadUpTo` | openairinterface5g/executables/nr-oru.c:646-653 | the second loop reaches the anchor exactly if the gap is below 2^31 samples; otherwise the cast to int stops it |
| `OruStartup.Sync` | openairinterface5g/executables/nr-oru.c:632-656 | synchronisation ends at the anchor, with the right label and sample count, exactly when the anchor is less than 2^31 samples after the first read |
| `OruStartup.ElapsedIsTheSum` | openairinterface5g/openair1/PHY/INIT/nr_parms.c:272-278 | skipping k slots moves the anchor by the true distance of the two slot starts |
| `OruWorkQueue.Ring.PutAppends` | openairinterface5g/executables/nr-oru.c:606-608 | storing into the ring appends to the queue it represents |
| `OruWorkQueue.Ring.TakeRemovesOldest` | openairinterface5g/executables/nr-oru.c:590-592 | removing from the ring takes the oldest item and keeps the rest in order |
| `OruWorkQueue.UlWorkQueue.TryPut` | openairinterface5g/executables/nr-oru.c:601-611 | dispatch under the lock: refused exactly when full, otherwise the queue's contents grow by the item |
| `OruWorkQueue.UlWorkQueue.TryTake` | openairinterface5g/executables/nr-oru.c:583-594 | a worker waits, leaves or takes the oldest item, each exactly when the source says so |
| `OruWorkQueue.UlWorkQueue.Shutdown` | openairinterface5g/executables/nr-oru.c:771-774 | stopping changes the running flag and nothing that is queued |
| `OruWorkQueue.InitHolds` | openairinterface5g/executables/nr-oru.c:661-671 | the pool starts in a state satisfying the monitor invariant |
| `OruWorkQueue.StepKeeps` | openairinterface5g/executables/nr-oru.c:579-611 | every step of producer and workers, spurious wake-ups included, keeps the monitor invariant: FIFO, conservation, enough workers awake, producer asleep only on a full ring |
| `OruWorkQueue.EveryRunIsSafe` | openairinterface5g/executables/nr-oru.c:579-611 | the invariant holds in every reachable state, for any number of workers and any interleaving |
| `OruWorkQueue.CallsAreSent` | openairinterface5g/executables/nr-oru.c:598-611 | in every run each item handed to dispatch_ul_work goes into the ring once, in order and unchanged, unless the producer still waits with it |
| `OruWorkQueue.WakesIff` | openairinterface5g/executables/nr-oru.c:579-611 | a worker falls asleep only by finding nothing to do, and wakes exactly by a put's signal that picked it, the stop, or spuriously |
| `OruWorkQueue.ThreadsGoOn` | openairinterface5g/executables/nr-oru.c:579-611 | a thread that is neither asleep nor gone has exactly one thing to do next |
| `OruWorkQueue.NoDeadlock` | openairinterface5g/executables/nr-oru.c:579-611 | with an item queued, or the producer asleep, or the pool stopping, some worker can go on by itself |
| `OruWorkQueue.ShutdownIsBounded` | openairinterface5g/executables/nr-oru.c:771-776 | after the stop every schedule ends within a bound fixed at that moment |
| `OruWorkQueue.ShutdownDrains` | openairinterface5g/executables/nr-oru.c:771-776 | where it ends all workers have left and every dispatched item has been processed exactly once |
| `OruWorkQueue.SomeRunServesAll` | openairinterface5g/executables/nr-oru.c:579-611 | for any items there are runs in which they are handed over, processed, the pool stopped and all workers gone |
| `OruUplinkScheduler.FoldIsTheTrueDifferenceIff` | openairinterface5g/executables/nr-oru.c:722-729 | the wrapped slot difference equals the true one exactly when the slots are less than half a cycle apart, or exactly half a cycle with no wrap between |
| `OruUplinkScheduler.UlScheduler.DrainJobs` | openairinterface5g/executables/nr-oru.c:697-711 | polled jobs go to the first free entries in order; with none left they are dropped |
| `OruUplinkScheduler.PollAdmits` | openairinterface5g/executables/nr-oru.c:697-711 | of the jobs one poll returns exactly as many as there are free entries are admitted: the first ones, in order and as they are |
| `OruUplinkScheduler.AdmittedArePolled` | openairinterface5g/executables/nr-oru.c:673-711 | over every run the admitted jobs are polled jobs, unchanged and in the order polled, and all of them if and only if no poll finds too few free entries |
| `OruUplinkScheduler.UlScheduler.ScanPending` | openairinterface5g/executables/nr-oru.c:713-756 | the in-place table scan equals the specification: entries updated, items dispatched in table order |
| `OruUplinkScheduler.UlScheduler.RunSlot` | openairinterface5g/executables/nr-oru.c:675-769 | a whole slot of fourteen symbols, then the slot and frame counters |
| `OruUplinkScheduler.NothingOutsideUplink` | openairinterface5g/executables/nr-oru.c:713 | in a slot that is neither uplink nor mixed nothing is dispatched |
| `OruUplinkScheduler.DispatchedInTableOrder` | openairinterface5g/executables/nr-oru.c:716-753 | the items of one symbol go out in table order |
| `OruUplinkScheduler.EveryJobAllOrNothing` | openairinterface5g/executables/nr-oru.c:673-768 | in every run, what was dispatched for an admitted job is nothing or its symbols from the first on, each once, in order, in its own slot; all of them if the job is well formed |
| `OruUplinkScheduler.OneSlotNearer` | openairinterface5g/executables/nr-oru.c:722-729 | slot by slot a future job comes one slot nearer, across the wrap of the frame counter |
| `OruUplinkScheduler.WaitsForItsSlot` | openairinterface5g/executables/nr-oru.c:731-734 | a future job stays in the table, untouched, until its slot has come, whatever arrives meanwhile |
| `OruUplinkScheduler.JobIsServedWhenDue` | openairinterface5g/executables/nr-oru.c:673-768 | every job in the table at most half a cycle before its slot is served when that slot is over, if it is an uplink or mixed one: completely if well formed, otherwise to the end of the slot |
| `OruUplinkScheduler.PolledAheadIsServed` | openairinterface5g/executables/nr-oru.c:673-768 | from the poll on: a job polled, with room for it, in a slot before its own has all its symbols dispatched when its own slot is over, if that is an uplink or mixed one at most half a cycle ahead |
| `OruUplinkScheduler.PolledInItsSlot` | openairinterface5g/executables/nr-oru.c:673-768 | the same for a job polled in its own slot: served if polled no later than at its first symbol, otherwise not at all |
| `OruUplinkScheduler.JobAdmittedInItsSlot` | openairinterface5g/executables/nr-oru.c:697-755 | a job that arrives during its own slot is served if it is admitted no later than at its first symbol, and otherwise never gets anything |
| `OruUplinkScheduler.ServedInItsSlotIff` | openairinterface5g/executables/nr-oru.c:697-755 | such a well-formed job gets all its symbols if and only if it is admitted no later than at its first one |
| `OruUplink.EverySymbolProcessedOnce` | openairinterface5g/executables/nr-oru.c:673-776 | scheduler and workers together: if the scheduler hands its items to the queue and the pool is stopped, every symbol dispatched for a job has been processed exactly once, and nothing else for it |
| `OruUplink.StartedJobIsProcessed` | openairinterface5g/executables/nr-oru.c:673-776 | every well-formed job that was started has exactly the symbols it asks for processed, each once |
| `OruUplink.SomeRunProcessesAll` | openairinterface5g/executables/nr-oru.c:673-776 | for every run of the scheduler there is such a run of the workers |
| `OruUplinkScheduler.StartedJobIsServedIff` | openairinterface5g/executables/nr-oru.c:743-753 | a started job gets exactly the number of symbols it asks for if and only if it asks for at least one and for none beyond the slot |
| `OruUplinkScheduler.EmptyJobIsServed` | openairinterface5g/executables/nr-oru.c:749-753 | over every run, a job for zero symbols is dispatched at every symbol from its first to the end of its slot |
| `OruUplinkScheduler.OwnSlot` | openairinterface5g/executables/nr-oru.c:722-729 | the wrapped difference is zero only in the very slot a job names |
| `OruUplinkScheduler.DispatchedRange` | openairinterface5g/fronthaul/oru/oru_packet_processor.c:949-958 | the range check on handing a symbol to the fronthaul holds for a dispatched item exactly when its job asks for at least one symbol |
| `OruUplinkScheduler.NoPastJobLeft` | openairinterface5g/executables/nr-oru.c:731-755 | after any symbol of an uplink or mixed slot no past job is active, and a job of this slot waits for a later symbol |
| `NrSlotPipeline.WaitFreeRxTti` | openairinterface5g/executables/nr-ru.c:586-609 | in place: which flags end up set, how many completions are pulled, and that it succeeds exactly when the buffer is free or its completion is to come |
| `NrSlotPipeline.ReleasedFlag` | openairinterface5g/executables/nr-ru.c:594-604 | a flag survives the pulled completions exactly if none of them was for its buffer |
| `NrSlotPipeline.InitHolds` | openairinterface5g/executables/nr-ru.c:624 | the pipeline starts in a state satisfying its invariant |
| `NrSlotPipeline.StepKeeps` | openairinterface5g/executables/nr-ru.c:766-808 | every step of the three threads keeps the invariant: each busy flag is set exactly while one receive slot of its residue is in flight |
| `NrSlotPipeline.EveryRunIsSafe` | openairinterface5g/executables/nr-gnb.c:113-205 | the invariant holds after every interleaving, for every slot pattern |
| `NrSlotPipeline.BusyIffInFlight` | openairinterface5g/executables/nr-ru.c:586-609 | a busy flag is set exactly while a receive slot with that residue is in flight |
| `NrSlotPipeline.EverySlotOnce` | openairinterface5g/executables/nr-gnb.c:52-144 | in every run, for uplink and downlink slots alike, tx_func is called for every slot read, and rx_func for every one of those, each once and in order, but for those still on their way |
| `NrSlotPipeline.ClaimedInOrder` | openairinterface5g/executables/nr-ru.c:766-773 | in every run the receive slots claim their buffers in the order read |
| `NrSlotPipeline.RestServesAll` | openairinterface5g/executables/nr-ru.c:766-808 | when the threads come to rest, tx_func and rx_func have been called for exactly the slots read, every receive slot has had its buffer, and any slot may come next |
| `NrSlotPipeline.RestIsNear` | openairinterface5g/executables/nr-gnb.c:113-144 | without new slots the threads come to rest within a number of steps fixed beforehand |
| `NrSlotPipeline.AtMostDepthInFlight` | openairinterface5g/executables/nr-ru.c:586-609 | at most RU_RX_SLOT_DEPTH receive slots are in flight |
| `NrSlotPipeline.BufferIsExclusive` | openairinterface5g/executables/nr-ru.c:767-773 | when a receive buffer is about to be filled no other slot in flight has a slot number of the same residue modulo RU_RX_SLOT_DEPTH |
| `NrSlotPipeline.SomeoneHolds` | openairinterface5g/executables/nr-ru.c:589-593 | a waiting RU thread waits for one slot in flight, the oldest of its residue, among the RU_RX_SLOT_DEPTH oldest |
| `NrSlotPipeline.WaitNeverStalls` | openairinterface5g/executables/nr-gnb.c:113-144 | while the RU thread waits, the other threads can always go on by themselves |
| `NrSlotPipeline.FewerPullsWait` | openairinterface5g/executables/nr-ru.c:594-604 | over every run, as long as fewer completions are pulled than stand before and at the holder's place, the RU thread still waits |
| `NrSlotPipeline.WaitTakes` | openairinterface5g/executables/nr-ru.c:594-604 | over every run the wait ends with exactly the pull that brings the holder's completion |
| `NrSlotPipeline.WaitIsBounded` | openairinterface5g/executables/nr-ru.c:594-604 | over every run the wait ends after at least one and at most RU_RX_SLOT_DEPTH pulls, within a number of steps fixed when it begins |
| `NrRxClock.RuClock.CountSlot` | openairinterface5g/executables/nr-ru.c:713-719 | the loop's counters advance as specified |
| `NrRxClock.RuClock.Read` | openairinterface5g/executables/nr-ru.c:140-243 | the in-place read equals the specification, first read and later ones |
| `NrRxClock.PrevLenIsRight` | openairinterface5g/executables/nr-ru.c:166 | the previous slot's length is right also across the frame boundary, where C's remainder gives slot -1 |
| `NrRxClock.TurnIsExact` | openairinterface5g/executables/nr-ru.c:165-219 | whatever the device reports, one turn advances logical time by exactly the previous slot's length and the counter checks pass |
| `NrRxClock.EveryTurnIsExact` | openairinterface5g/executables/nr-ru.c:712-729 | over any number of turns the checks never fail and turn k is slot n + k |
| `NrRxClock.FirstReadAligns` | openairinterface5g/executables/nr-ru.c:220-243 | for any first time stamp, negative ones included, the first read leaves the clock on a slot boundary, unless it lies inside the last slot of frame 1023 or a frame or more before zero |
| `NrRxClock.FirstReadLabels` | openairinterface5g/executables/nr-ru.c:178-243 | the first read keeps the offset and the labels of the sample it read; after a skip the loop's slot is the next one |
| `NrRxClock.ClockFailsIff` | openairinterface5g/executables/nr-ru.c:140-243 | from power-up, for any device, the checks fail if and only if at least two slots are read and the first logical time is one of those two kinds; otherwise every read is one slot further |
| `NrRxClock.TimestampTx` | openairinterface5g/executables/nr-ru.c:746-748 | the summation loop adds exactly the lengths of the slots looked ahead over |
| `NrRxClock.LookAheadTime` | openairinterface5g/executables/nr-ru.c:746-749 | the transmit time is the start sample, and the transmit slot the number, of the slot looked ahead to |
| `NrRxClock.LookAheadFrameIff` | openairinterface5g/executables/nr-ru.c:749-750 | the transmit frame is right if and only if the look-ahead is shorter than a frame |
| `NrTxBurst.FillTable` | openairinterface5g/executables/nr-oru.c:342-365 | the slot table has the rows the TDD pattern prescribes, for any numbers of symbols that fit the rows |
| `NrTxBurst.MixedIff` | openairinterface5g/openair1/SCHED_NR/phy_frame_config_nr.c:137-171 | the slot between downlink and uplink is classified as mixed exactly if it is not all downlink and not all uplink |
| `NrTxBurst.SlotSelect` | openairinterface5g/openair1/SCHED_NR/phy_frame_config_nr.c:137-171 | the counting loops classify a row as uplink, downlink or mixed as specified |
| `NrTxBurst.TypeIsKind` | openairinterface5g/openair1/SCHED_NR/phy_frame_config_nr.c:137-171 | the table is read back as the pattern it was filled with |
| `NrTxBurst.MixedSlotSymbols` | openairinterface5g/executables/nr-oru.c:352-358 | the slot in between has its downlink symbols first and its uplink symbols last, as many as are asked for and still fit, and all others are flexible |
| `NrTxBurst.RuTx.TxRf` | openairinterface5g/executables/nr-ru.c:298-395 | gate and burst flags of one whole slot, in place, equal the specification |
| `NrTxBurst.BurstsIff` | openairinterface5g/executables/nr-ru.c:313-352 | over runs longer than a period, transmission neither aborts nor leaves the grammar (START MIDDLE* END)* if and only if the pattern has a downlink slot, an uplink slot and a mixed-slot downlink symbol and the run does not start in the mixed slot |
| `NrTxBurst.BurstsAreGapless` | openairinterface5g/executables/nr-ru.c:313-377 | for those patterns, runs of every length keep the grammar and the writes of a burst abut |
| `NrTxBurst.PlainBurstsIff` | openairinterface5g/executables/nr-ru.c:340-352 | without a mixed slot, runs longer than two periods keep the grammar if and only if there are no downlink slots, or no uplink slots, or at least two downlink slots in a row and the run does not start in the last of them |
| `NrTxBurst.PlainBurstsAreGapless` | openairinterface5g/executables/nr-ru.c:340-377 | and then the writes of a burst abut, in runs of every length |
| `NrTxBurst.OneWritePerSlot` | openairinterface5g/executables/nr-gnb.c:94-110 | short of an abort, the i-th write carries the i-th downlink or mixed slot, at its time and length, and there are no others |
| `NrTxBurst.MixedSlotLength` | openairinterface5g/executables/nr-ru.c:316-339 | the last write of a burst covers the mixed slot's downlink symbols and one more |
| `LteRxClock.RuClock.CountSubframe` | openairinterface5g/executables/lte-ru.c:1617-1625 | the loop's counters advance as specified |
| `LteRxClock.RuClock.Read` | openairinterface5g/executables/lte-ru.c:510-616 | the in-place read with resynchronisation and drift absorption equals the specification |
| `LteRxClock.FirstReadStarts` | openairinterface5g/executables/lte-ru.c:553-555 | the first read starts logical time at zero; its time stamp is accounted for exactly if the offset was zero before |
| `LteRxClock.TurnIsExact` | openairinterface5g/executables/lte-ru.c:544-560 | without a command one turn is exactly one subframe, for any device time stamp, and time stamp plus offset is the device's time |
| `LteRxClock.EveryTurnIsExact` | openairinterface5g/executables/lte-ru.c:602-611 | over any number of turns both exits are unreachable |
| `LteRxClock.FromPowerUp` | openairinterface5g/executables/lte-ru.c:510-616 | call k leaves the logical time at exactly k - 1 subframes after the first sample |
| `LteRxClock.ResyncPassesIff` | openairinterface5g/executables/lte-ru.c:533-560 | a resynchronising read passes exactly when the frame is below 1024 and the drift in whole subframes, plus ten right after a frame's end, is a multiple of 10240; the clock then continues with the drift's remainder as phase |
| `LteRxClock.EarlyResyncPassesIff` | openairinterface5g/executables/lte-ru.c:533-560 | the same for a device that reports a time before its stream's start |
| `LteRxClock.DriftFreeResync` | openairinterface5g/executables/lte-ru.c:533-541 | without drift the command sets the frame and keeps the subframe, except right after a frame's last subframe, where it ends the process |
| `LteRxClock.LookAheadIff` | openairinterface5g/executables/lte-ru.c:572-574 | the transmit subframe is always right, the transmit frame exactly when it is this frame or the next |
| `LteRxClock.LookAheadIsRight` | openairinterface5g/executables/lte-ru.c:572-574 | with a look-ahead of at most ten subframes labels and transmit time are those of the subframe looked ahead to |
| `Bits.FullIff` | openairinterface5g/executables/lte-ru.c:181-189 | comparing a mask with 2^n - 1 decides: all bits below n, or some bit at n or above |
| `LteSymbolMask.Gatherer.Gather` | openairinterface5g/executables/lte-ru.c:181-214 | which packets are consumed and recorded, and that the call returns only with the requested subframe's mask full, its last packet being of that subframe |
| `LteSymbolMask.Gatherer.SouthIn` | openairinterface5g/executables/lte-ru.c:171-262 | the loop's counters after the call: the subframe is never changed, the frame only by the first read or a pending resynchronisation |
| `LteSymbolMask.BitIffReceived` | openairinterface5g/executables/lte-ru.c:196-198 | a mask bit is set exactly if that symbol came in since its subframe was last handed on: nothing is lost, whatever the order |
| `LteSymbolMask.FullMeans` | openairinterface5g/executables/lte-ru.c:209 | the numeric test means: all symbols received, or one numbered beyond them |
| `LteSymbolMask.FullMeansComplete` | openairinterface5g/executables/lte-ru.c:209 | with symbol numbers in range it means exactly that the subframe is complete or ticked |
| `LteSymbolMask.StrayEndsSubframe` | openairinterface5g/executables/lte-ru.c:196-209 | a single packet with too high a symbol number ends a subframe |
| `LteSymbolMask.ClearedIsEmpty` | openairinterface5g/executables/lte-ru.c:259 | handing on, also after a stop, forgets all symbols of the last packet's subframe |
| `LteRuBarrier.L1Barrier.WakeupL1s` | openairinterface5g/executables/lte-ru.c:1064-1151 | the in-place loop over the RUs, the full-mask test and the wake-up equal the specification, for any RU states |
| `LteRuBarrier.ActiveReport` | openairinterface5g/executables/lte-ru.c:1079-1090 | with every RU active the loop sets the reporter's bit and no other |
| `LteRuBarrier.StepKeepsIff` | openairinterface5g/executables/lte-ru.c:1064-1151 | a report keeps the mask invariant unless it comes from an RU ten subframes ahead of the slowest; that this is the exact condition for losing nothing is AllTicksIffPaced |
| `LteRuBarrier.LostReport` | openairinterface5g/executables/lte-ru.c:1085-1086 | ten ahead, a report changes nothing |
| `LteRuBarrier.EveryTickOnceInOrder` | openairinterface5g/executables/lte-ru.c:1109-1114 | in paced runs the eNB is woken exactly once, in order, for every tick all RUs have reported, and for no other |
| `LteRuBarrier.ReportsAreConserved` | openairinterface5g/executables/lte-ru.c:1064-1151 | in every run each report is in a completed tick, in a mask, or lost |
| `LteRuBarrier.AllTicksIffPaced` | openairinterface5g/executables/lte-ru.c:1064-1151 | when all RUs have reported the same number of subframes, all of them completed in order if and only if nobody was ever ten ahead |
| `LteRuBarrier.WaitingEnds` | openairinterface5g/executables/lte-ru.c:1079-1080 | over any reports, an RU in its last turn of waiting starts to count with anybody's first report of a subframe other than 9, and no other RU changes |
| `LteRuBarrier.WokenByQuorum` | openairinterface5g/executables/lte-ru.c:1082-1128 | with RUs active, waiting, slave or synchronising in any mixture, the eNB is woken by the report that makes a quorum: every RU is synchronising, or has reported without waiting, or is a waiting slave and somebody else has reported |
| `LteLateControl.StepKeeps` | openairinterface5g/executables/lte-ru.c:685-747 | every step of the transmitter and every receiver fault at any moment keeps the automaton's invariant |
| `LteLateControl.EveryRunIsWellFormed` | openairinterface5g/executables/lte-ru.c:685-747 | over every run END_NO_TIME_SPEC is followed by another one or by START, and a forced START follows nothing else |
| `LteLateControl.FddFlags` | openairinterface5g/executables/lte-ru.c:653-747 | in FDD START stands exactly where a cut ends and MIDDLE exactly outside cuts |
| `LteLateControl.RecoveryTakesFour` | openairinterface5g/executables/lte-ru.c:687-713 | without further faults recovery takes exactly four attempts, two of which write nothing |
| `LteLateControl.FaultIsKeptIff` | openairinterface5g/executables/lte-ru.c:548-551 | a receiver fault is acted on by the next attempt unless it falls between the transmitter's reading of the state and replacing it |
| `LteLateControl.TerminateIff` | openairinterface5g/executables/lte-ru.c:685-747 | over every run late_control asks for a recovery exactly if, since it was last replaced, the receiver has noted a fault or a write other than END_NO_TIME_SPEC has been short |
| `LteLateControl.NextAttemptCutsIff` | openairinterface5g/executables/lte-ru.c:685-747 | over every run the next attempt writes END_NO_TIME_SPEC if and only if such a fault is waiting |
| `LteLateControl.ShortWriteCuts` | openairinterface5g/executables/lte-ru.c:743-747 | from every reachable state with a write just made and no fault waiting: after a short write the next attempt writes END_NO_TIME_SPEC, after a full one its own flag |
| `LteLateControl.NothingForced` | openairinterface5g/executables/lte-ru.c:685-747 | without faults and short writes every attempt writes its own flag |
| `LteLateControl.OpensRightlyIff` | openairinterface5g/executables/lte-ru.c:653-747 | in TDD, over every run with faults anywhere, a write opens a burst exactly when none is open, if and only if the write before it is not a recovery's START that took the place of an END |
| `LteLateControl.RestartHidesEndIff` | openairinterface5g/executables/lte-ru.c:656-713 | over every recovery without further faults from any reachable state, a second START follows the forced one if and only if the restarting attempt had been asked for END |
| `LteUeBlocks.Diff` | openairinterface5g/executables/lte-ue.c:1872-1885 | the correction is -1, 0 or 1 |
| `LteUeBlocks.UeThread.StartStream` | openairinterface5g/executables/lte-ue.c:1795-1827 | the skipping loop ends after exactly rx_offset samples and the first symbol is read |
| `LteUeBlocks.UeThread.OneTurn` | openairinterface5g/executables/lte-ue.c:1831-1926 | block sizes, reads and writes of one subframe, in place, equal the specification |
| `LteUeBlocks.EveryRunTiles` | openairinterface5g/executables/lte-ue.c:1868-1926 | for every sequence of corrections reads and writes tile device time without gap or overlap, and the "can't compensate" branch is never taken |
| `LteUeBlocks.WriteTimes` | openairinterface5g/executables/lte-ue.c:1908-1917 | the n-th write is for exactly two subframes after its block, in closed form |
| `LteUeBlocks.FrameLength` | openairinterface5g/executables/lte-ue.c:1868-1926 | each frame reads and writes ten subframes less its correction |
| `LteUeBlocks.LastCorrection` | openairinterface5g/executables/lte-ue.c:1868-1889 | between frame ends the correction in force is that of the last complete frame |
| `LteUeBlocks.CorrectionComesNearer` | openairinterface5g/executables/lte-ue.c:1872-1926 | over every run, a frame's correction brings the thread's frame one sample nearer to the cell's, as rx_offset gives it, unless they coincide, are half a frame apart, or corrections are switched off |
| `LteUeBlocks.TransmitAlignment` | openairinterface5g/executables/lte-ue.c:1864-1917 | where each transmit subframe lies relative to its own frame: exact for eight of ten, late by the correction for the two written across the boundary |
| `LteUeBlocks.ProcessingLabels` | openairinterface5g/executables/lte-ue.c:1943-1974 | over every run, what each turn tells the processing thread: nothing if it misses the lock, otherwise the subframe four later, four subframes after its own block, with a frame number short by the frames missed so far |
| `LteUeBlocks.FrameToldIff` | openairinterface5g/executables/lte-ue.c:1943-1972 | the frame number told is right if and only if no first subframe of a frame has been missed so far |
| `LteUeBlocks.ProcessingAlignment` | openairinterface5g/executables/lte-ue.c:1972-1974 | the time told is the transmit subframe's start within the same frame, and the frame's correction after it in the next |
| `NrUeRadio.Radios.AssignRus` | openairinterface5g/executables/nr-uesoftmodem.c:305-321 | the cell loop succeeds exactly if every cell names a valid radio unit of its own, and then cells and radio units point at each other |
| `NrUeRadio.Radios.AssignUes` | openairinterface5g/executables/nr-uesoftmodem.c:323-409 | the UE loop succeeds exactly if there are cells enough, and establishes the ownership invariant |
| `NrUeRadio.Radios.Startup` | openairinterface5g/executables/nr-uesoftmodem.c:305-409 | both together: start-up establishes ownership exactly for valid configurations |
| `NrUeRadio.OwnershipIsInjective` | openairinterface5g/executables/nr-uesoftmodem.c:323-409 | ownership means that no two UEs, and no two cells, share a radio unit |
| `NrUeRadio.Radios.SetFreq` | openairinterface5g/executables/nr-ue-ru.c:373-404 | the search loop with its early exit and the re-assignment equal the specification |
| `NrUeRadio.SearchFindsNearest` | openairinterface5g/executables/nr-ue-ru.c:381-400 | the chosen radio unit has minimum uplink plus downlink distance among the current and the free ones; ties stay, otherwise the first nearest is taken |
| `NrUeRadio.RetuneIsNearest` | openairinterface5g/executables/nr-ue-ru.c:373-404 | in frequencies: no radio unit the UE could have had is nearer than the one it ends up on, downlink plus uplink, and it moves only to a nearer one |
| `NrUeRadio.ExactCarriersAreFound` | openairinterface5g/executables/nr-ue-ru.c:373-404 | if its own cell or a free one has exactly the wanted carriers, the UE ends up using such a cell |
| `NrUeRadio.RetuneKeepsOwnership` | openairinterface5g/executables/nr-ue-ru.c:402-404 | a retune keeps the ownership invariant |
| `NrUeRadio.Radios.ReadSamples` | openairinterface5g/executables/nr-ue-ru.c:435-469 | reads reach the UE's own radio unit, and for UE 0 the free ones; the time stamp counts from the stream's first sample |
| `NrUeRadio.Radios.WriteSamples` | openairinterface5g/executables/nr-ue-ru.c:475-503 | the same for writes |
| `NrUeRadio.RoundAdvancesAll` | openairinterface5g/executables/nr-ue-ru.c:435-469 | when every UE has read n samples once, in any order, every radio unit with a cell has advanced by exactly n and no other |
| `NrUeRadio.RoundFeedsAll` | openairinterface5g/executables/nr-ue-ru.c:475-503 | when every UE has written once, every radio unit with a cell has been given exactly one burst at its own time |
| `NrUeRadio.RunsStayInStep` | openairinterface5g/executables/nr-ue-ru.c:373-503 | over any rounds with any retunes between them all radio units with a cell stay at the same logical time |
| `NrUeRadio.TimestampsContinue` | openairinterface5g/executables/nr-ue-ru.c:435-446 | the time stamp a UE sees is the number of samples of the rounds before, across any retunes |
| `NrUeRadio.MidRoundRetuneIff` | openairinterface5g/executables/nr-ue-ru.c:373-469 | a retune inside a round keeps all radio units in step if and only if the UE stays where it is, or it and UE 0 have both read already or both not |
| `NrUeRadio.MidRoundRetune` | openairinterface5g/executables/nr-ue-ru.c:373-469 | an instance in which they fall out of step |
| `LteL1Mailbox.Mailbox.TryPut` | openairinterface5g/executables/lte-enb.c:496-510 | one pass of the waiting loop: refused exactly while the counter is 0, otherwise the slot holds the message |
| `LteL1Mailbox.Mailbox.TakeAndRelease` | openairinterface5g/executables/lte-enb.c:287-290 | the local copies are the slot's contents, and only the counter changes |
| `LteL1Mailbox.EveryRunIsSafe` | openairinterface5g/executables/lte-enb.c:256-305 | over every run the counter is 0 or -1, the threads never sleep together, and messages are processed and handed on once each, in order and unchanged |
| `LteL1Mailbox.CallsArePosted` | openairinterface5g/executables/lte-enb.c:485-521 | over every run each call for a subframe that is not uplink is posted once, in order and unchanged, unless the caller still waits with it, and no other |
| `LteL1Mailbox.WakesIff` | openairinterface5g/executables/lte-enb.c:485-521 | whomever the shared condition variable prefers, every post wakes a sleeping transmit thread and every release a sleeping receive thread |
| `LteL1Mailbox.InternalRunsAreShort` | openairinterface5g/executables/lte-enb.c:485-521 | without new calls and spurious wake-ups at most 17 steps follow one another |
| `LteL1Mailbox.RestIff` | openairinterface5g/openair1/PHY/defs_common.h:1073-1089 | the threads come to rest exactly with the receive thread outside and the transmit thread asleep, everything posted being processed and handed on, and ready for any call |
| `LteL1Mailbox.AtRestAllSent` | openairinterface5g/executables/lte-enb.c:256-305 | from the start until both rest, exactly the messages of the calls that are not uplink have been processed and handed on, in order |

## Left out

- Devices, DPDK, Ethernet and IF4p5 transport: their time stamps, packets and jobs are arbitrary inputs, their writes recorded outputs; a device is taken to deliver the number of samples asked for, except where a short transfer is an input (`LteLateControl`).
- Signal processing (OFDM, rotations, PRACH), GPIO flags and the floating-point GPS time; PRACH packets and PRACH masks are only skipped over.
- Configuration parsing, logging, tracing, statistics, thread priorities and affinity, memory, and process start and exit beyond the flags that end a loop.
- Extended cyclic prefix: all sample arithmetic is for the normal prefix.
- The gNB's own initialisation gives samples_per_slot0 another value for numerology 0; no formula modelled reads it there.
- Integer widths other than those named above (the int cast, the 32-bit anchor product, ten bits of frame number): counters and time stamps are unbounded.
- NrTxBurst.BurstsIff: does not cover symbol-by-symbol transmission, continuous transmission, rfsim or FDD, where flags follow first_tx alone; its writes are in logical time, without the device offset.
- NrSlotPipeline.EveryRunIsSafe: a slot message carries frame and slot only; the aborting of a queue is modelled in WaitFreeRxTti alone.
- LteRuBarrier.EveryTickOnceInOrder: is stated for radio units that are all active; with waiting, slave and synchronising ones WokenByQuorum covers the reports of one subframe until the first quorum.
- LteSymbolMask.Gatherer.Gather: takes packets whose header names one of the ten subframes.
- LteL1Mailbox.EveryRunIsSafe: has one producer and one consumer and no process exit; the unsynchronised reads after release_thread in the receive thread and the time-out of the transmit fronthaul are not part of it.
- NrUeRadio.RunsStayInStep: has one carrier per UE and devices without drift; frequencies are unbounded naturals.
- LteUeBlocks.ProcessingLabels: the processing threads themselves, and errors of the lock other than its time-out, are left out; all their counters advance together, so one frame_rx stands for them.
- NrUeRadio.MidRoundRetuneIff: has one retune in the round; writes are covered for rounds without one.
- OruUplink.EverySymbolProcessedOnce: the queue's calls are the scheduler's dispatches, in that order; the two are not interleaved step by step, and a run is one after which the pool has been stopped.
- LteLateControl.OpensRightlyIff: is for subframes that ask for START exactly after END, as downlink, special and uplink subframes in this order do.
- The gather part of ru_thread_tx and the PRACH wake-ups: the same mask pattern as the barrier, with nothing harder.
- PRE_SCD_THREAD, PHY_TX_THREAD and disabled code, nFAPI message handling, CI scripts and header-only parts.
