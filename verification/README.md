# Verified model of the vehicle control firmware

A Dafny model of the hardware-free logic of the AKS firmware (an ESP32 vehicle
controller) and of the rules by which its ground station accepts telemetry. UART,
SPI, CAN, GPIO, clocks and the scheduler appear as inputs of a step (bytes, frames,
pin levels, ticks, driver answers) and as its recorded outputs. Files that work in
place are classes with the source's fields, each method proved equal to a step of a
specification function; the theorems are about that function, over whole runs.

## Layout

| files | subject |
|---|---|
| `Words.dfy` | fixed-width integers, modular arithmetic, option and result types |
| `TelemetryModel.dfy`, `Decimal.dfy`, `Telemetry.dfy`, `ReceiverContract.dfy` | the shared record, the CSV printer, and the receiver's strict parser |
| `OfflineBuffer.dfy`, `LinkMonitor.dfy`, `LoraTask.dfy`, `UplinkRuns.dfy`, `UplinkDelivery.dfy`, `UplinkTiming.dfy`, `UplinkWire.dfy` | the outage ring and the LoRa loop: conservation, numbering, draining, exact delivery, timing, load, and what the receiver makes of every line |
| `RelayManager.dfy` | the contactor bank behind an active-low port expander |
| `VcuLogic.dfy`, `VcuRuns.dfy`, `VcuDwell.dfy`, `VcuRoad.dfy` | the vehicle state machine: contactor invariant, bounded opening, re-assertion, the way back to DRIVE |
| `CanManager.dfy`, `CanFreshness.dfy`, `CanHistory.dfy` | CAN reception, freshness against true time, fault events, the telemetry in terms of the bytes received |
| `HmiRx.dfy` | the touch panel's receive automaton |
| `BmsAlgo.dfy`, `BmsNextionPacket.dfy`, `BmsScreen.dfy` | the pack computation and the byte-budgeted battery page |
| `VehicleSystem.dfy` | properties across components |

## Where the code decides differently from its comments or its promise

Each point is a theorem below, with the exact condition.

- IDLE is described as "all relays off" (`ESP_AKS/src/VcuLogic.cpp:196-199`). A RESET polled before the
  dwell handler has run reaches IDLE with all ten contactors closed: `VcuRuns.IdleCanBeClosed`, and
  `VcuRuns.IdleOpenIffNoEarlyReset` for when it cannot happen.
- Re-assertion in FAULT comes at timers 1020, 2020, ..., not at 1000: `VcuDwell.ScheduleBeforeWrap`. The
  case in `ESP_AKS/test/test_native_vcu_logic/test_state_machine.cpp:273-297` that expects 1000 is not
  registered in its suite.
- A replayed entry leaves the ring even when its UART write failed (`ESP_AKS/src/main.cpp:693-694`), so
  exactly-once delivery needs successful writes: `UplinkDelivery.FailedReplayIsLost` is a losing input, and
  `UplinkDelivery.DeliveredIffSafe` gives the condition, pass by pass.
- RPM is never clamped, and the receiver rejects frames above 20000 rpm: `Telemetry.UplinkRoundTrip`.
- The BMS system state is never parsed from the bus, so the sanitizer turns it into FAULT on every line:
  `VehicleSystem.ReceiverAlwaysSeesFault`.
- A forced refresh of the battery page that runs out of budget leaves the unsent fields looking clean. With
  the production budget of 90 bytes a restarted display keeps most of the page blank until data change:
  `BmsScreen.RepaintAfterReset`, `BmsScreen.ResetLeavesPageBlank`.
- One scan of the panel's bytes returns one command (`ESP_AKS/lib/DisplayHMI/DisplayHMI.cpp:189-194`): a stop
  frame behind another frame in the same buffer is dropped: `VehicleSystem.StopPostedIffFirst`.

## Model

| member | source | states |
|---|---|---|
| Telemetry.UplinkRoundTrip | ESP_AKS/lib/Telemetry/Telemetry.cpp:18-63 | For every record with speed at most 300.0 km/h and every sequence number, the line printed for the sanitized record is accepted by the receiver if and only if the RPM is at most 20000, and then every field arrives with the value sent; the only other outcome is the RPM rejection |
| Telemetry.VerdictOnStatusLine | ESP_AKS/lib/Telemetry/Telemetry.cpp:26-46 | The receiver's verdict on the line printed for any record at all, sanitized or raw: which records are rejected, with which reason, and that an accepted one yields every field |
| Telemetry.StatusLineIsBuiltLine | ESP_AKS/lib/Telemetry/Telemetry.cpp:26-46 | The firmware's format string and the receiver side's reference printer write the same text for every record and sequence number |
| Telemetry.TokenCarriesField | ESP_AKS/lib/Telemetry/Telemetry.cpp:26-46 | Each of the 18 positions of the line prints exactly the value that the receiver's field of that position names |
| Telemetry.SafeIffInRange | ESP_AKS/tools/e2e/contract.py:58-82 | A record satisfies the sender's safety conditions exactly when all 18 printed fields lie in the receiver's ranges |
| Telemetry.SanitizeIsMinimal | ESP_AKS/lib/Telemetry/TelemetrySanitize.h:27-56 | Sanitizing always yields an acceptable record, is idempotent, and changes a record exactly when the receiver's ranges would have rejected it |
| Telemetry.LineCarries | ESP_AKS/lib/Telemetry/TelemetrySanitize.h:27-56 | The line of any record with a clamped speed is accepted if and only if its RPM is at most 20000, and then each of the 18 fields is the record's value, with an unknown system state reported as 4, state of charge cut at 10000 and the lowest 32-bit current replaced by its neighbour |
| Telemetry.StatusLineFits | ESP_AKS/lib/Telemetry/Telemetry.cpp:25-54 | Any record prints to at most 108 bytes, so the 192-byte buffer is never cut short |
| Telemetry.CanStatusLineFits | ESP_AKS/lib/Telemetry/Telemetry.cpp:25-54 | A sanitized record that the CAN side can publish prints to at most 88 bytes |
| Telemetry.Format | ESP_AKS/lib/Telemetry/Telemetry.cpp:25-28 | The buffer semantics of snprintf: full length returned; text and terminator stored, or the text cut at the buffer size and terminated |
| Telemetry.TelemetrySender.Begin | ESP_AKS/lib/Telemetry/Telemetry.cpp:12-16 | Starting a sender enables it and restarts its numbering at zero |
| Telemetry.TelemetrySender.SendStatus | ESP_AKS/lib/Telemetry/Telemetry.cpp:18-63 | An initialised sender hands the driver the whole line with its counter value; the counter advances modulo 2^32 exactly when the driver reports success; an uninitialised one does nothing |
| ReceiverContract.ParseUksFrame | ESP_AKS/tools/e2e/contract.py:218-250 | The early-exit scan returns exactly the verdict that is stated without order: token count, tag, all tokens strict and in range, version, RPM limit; an accepted frame binds every field to its token's value |
| ReceiverContract.ScanFields | ESP_AKS/tools/e2e/contract.py:235-242 | The loop over the tokens succeeds if and only if every token is a strict integer in its field's range, and then returns the frame of all of them |
| ReceiverContract.VerdictOnBuiltLine | ESP_AKS/tools/e2e/contract.py:160-250 | The verdict on any line the reference printer can build, for all integers: ranges, then version, then RPM limit; an accepted line gives back every value printed |
| ReceiverContract.AcceptedFramesRebuild | ESP_AKS/tools/e2e/contract.py:160-250 | Printing an accepted frame again gives a line that is accepted with the same values |
| ReceiverContract.AcceptedIffDenotes | ESP_AKS/tools/e2e/contract.py:218-266 | For every line: it is accepted with a frame if and only if, up to line ends, it is the tag and 18 decimal numerals of that frame's values, a sign only on the four signed fields, every value within the written-out limits |
| ReceiverContract.BadTagIff | ESP_AKS/tools/e2e/contract.py:229-230 | A wrong tag is reported exactly for 19 tokens of which the first is not the tag |
| ReceiverContract.StripsLineEnds | ESP_AKS/tools/e2e/contract.py:225 | Any run of carriage returns and line feeds at the end is ignored, and nothing else |
| ReceiverContract.SplitJoin | ESP_AKS/tools/e2e/contract.py:225-226 | Splitting at commas undoes joining, for non-empty lists of comma-free tokens |
| ReceiverContract.JoinSplit | ESP_AKS/tools/e2e/contract.py:225-226 | Joining undoes splitting, for every string |
| Decimal.UnsignedRoundTrip | ESP_AKS/lib/Telemetry/Telemetry.cpp:26-46 | The decimal text of a natural number denotes that number |
| Decimal.SignedRoundTrip | ESP_AKS/tools/e2e/contract.py:253-266 | A printed integer is a strict token exactly where its sign is allowed, and reads back as itself |
| Decimal.UnsignedLength | ESP_AKS/lib/Telemetry/Telemetry.cpp:26-46 | A number prints in at most k digits if and only if it is below 10^k |
| OfflineBuffer.Ring.Push | ESP_AKS/lib/OfflineBuffer/OfflineBuffer.cpp:14-24 | A push into the head/tail/count array is a push into a bounded queue: appended, the oldest entry dropped when 75 are held; it never fails |
| OfflineBuffer.Ring.Pop | ESP_AKS/lib/OfflineBuffer/OfflineBuffer.cpp:26-32 | Takes and removes the oldest entry, or reports an empty queue and changes nothing |
| OfflineBuffer.Ring.Peek | ESP_AKS/lib/OfflineBuffer/OfflineBuffer.cpp:34-38 | Shows the oldest entry and changes nothing |
| OfflineBuffer.Ring.DropFront | ESP_AKS/lib/OfflineBuffer/OfflineBuffer.cpp:40-45 | Removes the oldest entry; fails exactly on an empty queue |
| OfflineBuffer.Ring.Reset | ESP_AKS/lib/OfflineBuffer/OfflineBuffer.cpp:8-12 | Leaves the empty queue |
| OfflineBuffer.Ring.Count | ESP_AKS/lib/OfflineBuffer/OfflineBuffer.cpp:47-49 | The length of the queue |
| OfflineBuffer.Ring.IsEmpty | ESP_AKS/lib/OfflineBuffer/OfflineBuffer.cpp:51-53 | True exactly for the empty queue |
| OfflineBuffer.NewestSurvive | ESP_AKS/lib/OfflineBuffer/OfflineBuffer.cpp:14-24 | However many records are pushed, exactly the newest 75 remain, in order |
| LoraTask.Task.Pass | ESP_AKS/src/main.cpp:611-739 | One pass of the loop over the real ring and sender hands the UART exactly the lines of the specified pass and leaves exactly its state |
| LoraTask.Task.HandleRx | ESP_AKS/src/main.cpp:614-638 | Every heartbeat byte stamps the clock at which it is handled; no other byte changes anything |
| LoraTask.Task.UpdateLink | ESP_AKS/src/main.cpp:641-666 | The link flag and the sampling state after one check |
| LoraTask.Task.SendReplays | ESP_AKS/src/main.cpp:681-697 | The replay loop: at most one entry a tick, none while AUX is busy, the entry dropped after the write whatever the write returned |
| LoraTask.Task.SendReplaysAndLive | ESP_AKS/src/main.cpp:674-709 | A tick with the link up: the replays, then the live record |
| LoraTask.Task.TakeSample | ESP_AKS/src/main.cpp:716-731 | A tick with the link down: at most one sample a period goes into the ring |
| UplinkWire.PassSends | ESP_AKS/src/main.cpp:668-709 | A pass sends, on a tick with the link up, the oldest waiting sample and then the present snapshot, each only if AUX is ready at its turn, with consecutive numbers, and nothing else |
| UplinkWire.WireIsUnderstood | ESP_AKS/src/main.cpp:681-709 | Over any run, every line handed to the UART, replayed or live, is accepted by the receiver if and only if its record's RPM is at most 20000, and then carries the frame's sequence number and the record, field by field |
| UplinkWire.TickIffPeriod | ESP_AKS/src/main.cpp:668-671 | A transmission tick comes with the first pass 20 ticks (200 ms) or more after the last one |
| UplinkWire.RateIsBounded | ESP_AKS/src/main.cpp:668-671 | Whatever the tick counter does, a run sends at most two lines for every 20 true ticks since the last transmission before it |
| UplinkRuns.Conservation | ESP_AKS/src/main.cpp:681-731 | Over any run, whatever link, AUX, UART and queue do: the ring's initial contents followed by the samples taken equal the entries removed, in order, followed by the final contents; nothing is duplicated, lost silently or reordered |
| UplinkDelivery.LosslessIffSafe | ESP_AKS/src/main.cpp:674-731 | Over any run no sample is lost if and only if no pass meets either of two guards on its state and inputs (a sample due on a full ring with the link down, a replay into a failing UART with the link up), and none is evicted if and only if no pass meets the first |
| UplinkDelivery.HandedOverIffNoOverflow | ESP_AKS/src/main.cpp:681-731 | Over any run, with any outages, busy AUX and failing writes: initial contents and samples, in order, equal those handed to sendStatus followed by those still waiting, if and only if no sample fell due on a full ring |
| UplinkDelivery.DeliveredIffSafe | ESP_AKS/src/main.cpp:681-731 | Over any run: initial contents and samples, in order, equal those that reached the wire followed by those still waiting, if and only if no pass overflowed the ring or replayed into a failing write |
| UplinkDelivery.FailedReplayIsLost | ESP_AKS/src/main.cpp:693-694 | The losing input, from boot: one sampled outage and one failing replay write end with an empty ring and nothing of the outage on the wire |
| UplinkDelivery.WithinCapacity | ESP_AKS/lib/OfflineBuffer/OfflineBuffer.cpp:14-24 | Any run that holds and takes no more than 75 entries in all never overflows, whatever link, AUX and UART do |
| UplinkRuns.WireNumbersCount | ESP_AKS/lib/Telemetry/Telemetry.cpp:56-63 | Frames on the wire, live and replayed together, carry consecutive sequence numbers modulo 2^32 in wire order, over any run |
| UplinkRuns.Drain | ESP_AKS/src/main.cpp:681-709 | In a recovery with k good ticks a backlog loses exactly its k oldest entries, in order and all on the wire, and each tick also sends one live record; so n ticks empty a backlog of n |
| UplinkRuns.GoodTickDrainsOne | ESP_AKS/src/main.cpp:681-709 | A tick with link up, AUX ready and writes succeeding sends and removes exactly the oldest entry, then sends the live record |
| UplinkRuns.BlackoutSampleCount | ESP_AKS/lib/OfflineBuffer/OfflineBuffer.h:27-33 | The samples of an outage are at least a period apart, so its duration bounds their number |
| UplinkRuns.BlackoutWithinCapacity | ESP_AKS/src/main.cpp:710-731 | The detail for a pure outage with room in the ring: its samples are appended in order and nothing is delivered |
| UplinkDelivery.BlackoutLosesNothing | ESP_AKS/src/main.cpp:668-731 | After an outage shorter than 75 s that found the ring empty, any later run, AUX busy and writes failing as they like, hands every sample to sendStatus once and in order or still holds it, if and only if the ring does not overflow in that later run; with the link up it cannot |
| UplinkDelivery.RecoveryDeliversOldest | ESP_AKS/src/main.cpp:668-731 | With AUX ready and writes succeeding after such an outage, k good ticks put exactly its k oldest samples on the wire, in order, the others wait, and each tick carried a live record; with k at least the number of samples all have arrived and the ring is empty |
| UplinkTiming.LinkFlagIsStateless | ESP_AKS/src/main.cpp:640-666 | After every check the link flag equals a function of the clock, the boot time and the last heartbeat alone; the extra guard on the upward transition never blocks it |
| UplinkTiming.LinkFlagOverRuns | ESP_AKS/include/LinkMonitor.h:8-32 | The same over runs of any length, from the last heartbeat of the whole history |
| UplinkTiming.LinkFlagFromStart | ESP_AKS/src/main.cpp:602-666 | The same from boot, with nothing assumed of the state |
| UplinkTiming.CoverageHasNoLongGap | ESP_AKS/src/main.cpp:640-731 | With telemetry available, AUX ready, writes succeeding and ticks at most delta ms apart, live transmissions and samples together never leave a gap of 1000 + delta ms, across any number of link transitions |
| UplinkTiming.ReplayNeverAheadOfLive | ESP_AKS/src/main.cpp:681-709 | One pass keeps the waiting samples in time order, and what it replays is never newer than what it sends live |
| UplinkTiming.RemovedInTimeOrder | ESP_AKS/src/main.cpp:681-731 | Over any run with nondecreasing snapshot times, everything taken out of the ring leaves in time order |
| UplinkTiming.PassLoad | ESP_AKS/src/main.cpp:668-709 | A pass hands the UART at most two lines and 176 bytes, and keeps the ring free of records the CAN side could not publish |
| RelayManager.RelayBank.Begin | ESP_AKS/lib/RelayManager/RelayManager.cpp:13-57 | Succeeds exactly if bus and device are set up; then all latches are high, all pins are outputs, every contactor is open; no write on the way turned a low-latched pin into an output |
| RelayManager.RelayBank.Set | ESP_AKS/lib/RelayManager/RelayManager.cpp:59-78 | Changes the one channel of the shadow and rewrites both latches; does nothing before begin or for a channel out of range |
| RelayManager.RelayBank.CloseAll | ESP_AKS/lib/RelayManager/RelayManager.cpp:80-91 | The bank closed on the shadow and on both latches; nothing before begin |
| RelayManager.RelayBank.OpenAll | ESP_AKS/lib/RelayManager/RelayManager.cpp:93-101 | The bank open on the shadow and on both latches, initialised or not |
| RelayManager.RelayBank.StateOf | ESP_AKS/lib/RelayManager/RelayManager.cpp:103-108 | The shadow bit of a channel, false out of range |
| RelayManager.RelayBank.AreAllClosed | ESP_AKS/src/main.cpp:76-84 | True exactly if all ten shadow bits are set |
| RelayManager.WriteShadowDrives | ESP_AKS/lib/RelayManager/RelayManager.cpp:71-74 | Writing the complement of a shadow energizes exactly the relays of that shadow and keeps the six unused pins high |
| RelayManager.BankOperations | ESP_AKS/lib/RelayManager/RelayManager.cpp:80-101 | In operation allOn energizes exactly the ten contactors and allOff nothing at all |
| RelayManager.SetRelayIsLocal | ESP_AKS/lib/RelayManager/RelayManager.cpp:59-78 | Setting one relay changes that pin and no other |
| RelayManager.AllOffDeEnergizes | ESP_AKS/lib/RelayManager/RelayManager.cpp:93-101 | allOff de-energizes every pin whatever the chip held |
| RelayManager.GuardsRefuse | ESP_AKS/lib/RelayManager/RelayManager.cpp:59-131 | Nothing is closed before begin, no channel out of range is touched or reported closed, and without a device nothing reaches the chip |
| RelayManager.DirectionFirstIsUnsafe | ESP_AKS/lib/RelayManager/RelayManager.cpp:42-51 | On a freshly reset chip, writing the directions before the latches would energize relays |
| RelayManager.BegunIsConsistent | ESP_AKS/lib/RelayManager/RelayManager.cpp:42-55 | After begin shadow and pins agree and nothing is energized |
| VcuLogic.VcuMachine.Step | ESP_AKS/src/VcuLogic.cpp:72-163 | One run, in place: the whole new state equals the specified run of the old one |
| VcuLogic.VcuMachine.Initialize | ESP_AKS/src/VcuLogic.cpp:53-70 | init with either allocation failing or both succeeding; IDLE with the bank open only when both did |
| VcuLogic.VcuMachine.Post | ESP_AKS/src/VcuLogic.cpp:165-178 | A stop sets the flag and leaves the queue; any other event is appended unless eight are queued; nothing before the queue exists |
| VcuLogic.VcuMachine.Publish | ESP_AKS/src/VcuLogic.cpp:184-191 | Replaces the snapshot once the mutex exists |
| VcuLogic.VcuMachine.MoveTo | ESP_AKS/src/VcuLogic.cpp:265-279 | Entering a state restarts the timer, and entering a stop clears its latch and log stamp |
| VcuLogic.VcuMachine.Poll | ESP_AKS/src/VcuLogic.cpp:281-285 | Takes the oldest event, if any |
| VcuLogic.VcuMachine.OnEvent | ESP_AKS/src/VcuLogic.cpp:103-141 | What one polled event does, early returns included |
| VcuLogic.VcuMachine.OnReady | ESP_AKS/src/VcuLogic.cpp:201-209 | Closes the bank on the first run in READY only |
| VcuLogic.VcuMachine.OnEmergencyStop | ESP_AKS/src/VcuLogic.cpp:217-240 | Opens the bank after 20 ms and again with every periodic log |
| VcuLogic.VcuMachine.OnFault | ESP_AKS/src/VcuLogic.cpp:242-260 | The same for FAULT, with its own latch and stamp |
| VcuLogic.VcuMachine.RunPeriodic | ESP_AKS/src/VcuLogic.cpp:143-162 | The handler of the present state |
| VcuRuns.ContactorInvariant | ESP_AKS/src/VcuLogic.cpp:201-279 | For every start and every interleaving of posts, telemetry and runs: READY and DRIVE have exactly the ten contactors energized, a latched FAULT or EMERGENCY_STOP has none, the bank is never partly closed, the queue never holds a stop nor more than eight events |
| VcuRuns.ExecAllKeepsInv | ESP_AKS/src/VcuLogic.cpp:72-279 | The invariant behind it is kept by every sequence of steps |
| VcuRuns.InitOutcome | ESP_AKS/src/VcuLogic.cpp:53-70 | IDLE with the bank open only if both allocations succeed, otherwise INIT with what had been allocated |
| VcuRuns.IdleOpenIffNoEarlyReset | ESP_AKS/src/VcuLogic.cpp:115-123 | Along a run every IDLE state has its contactors open if and only if no RESET is accepted while contactors are live and the dwell has not latched |
| VcuRuns.IdleOpenFromStart | ESP_AKS/src/VcuLogic.cpp:53-123 | The same from start-up: IDLE means open contactors if every RESET waits for the latch |
| VcuRuns.IdleCanBeClosed | ESP_AKS/src/VcuLogic.cpp:102-124 | The failing input: START_REQUEST, FAULT_DETECTED and RESET on consecutive runs end in IDLE with all ten contactors closed |
| VcuDwell.OpensInTime | ESP_AKS/src/VcuLogic.cpp:72-163 | From a dwell with q queued events, no stop pending and nothing further posted, q + 1 runs (q + 2 if the timer wraps) suffice to open the bank or accept a RESET, whatever telemetry does in between |
| VcuDwell.OpensInTimeFromStart | ESP_AKS/src/VcuLogic.cpp:72-163 | The same for every state reachable from start-up |
| VcuDwell.DwellProgress | ESP_AKS/src/VcuLogic.cpp:102-163 | Each run of a dwelling machine opens the bank, accepts a RESET, or shrinks the bound |
| VcuDwell.CommandsAreTicks | ESP_AKS/src/VcuLogic.cpp:217-260 | In a dwell the bank commands depend on the tick count alone, not on posts, telemetry or pending stops |
| VcuDwell.EntryClock | ESP_AKS/src/VcuLogic.cpp:265-279 | Every entry into FAULT or EMERGENCY_STOP starts the dwell clock afresh, re-entry included |
| VcuDwell.ScheduleBeforeWrap | ESP_AKS/src/VcuLogic.cpp:217-260 | Before the timer wraps the bank is commanded open exactly at timers 20, 1020, 2020, ... |
| VcuDwell.ReassertedWithin100 | ESP_AKS/src/VcuLogic.cpp:217-260 | Over a dwell of any length, the 32-bit timer wrapping without limit, any 100 consecutive ticks command the bank open at least once |
| VcuDwell.DwellReasserts | ESP_AKS/src/VcuLogic.cpp:217-279 | Schedule and bound for the machine itself, from the entry of the dwell and with any posts that do not end it |
| VcuRoad.EmergencyStopAlwaysActs | ESP_AKS/src/VcuLogic.cpp:75-79 | A stop posted anywhere among other posts, the queue full or not, ends the next run in EMERGENCY_STOP from any other state, with the queue untouched and the flag consumed |
| VcuRoad.StopWhileStopped | ESP_AKS/src/VcuLogic.cpp:75-82 | A stop pending while already stopped is consumed and the run goes on exactly as without it |
| VcuRoad.RunTable | ESP_AKS/src/VcuLogic.cpp:72-163 | The transition table of a whole run, with the limits written out: which of stop, critical condition and polled event decides, the next state, queue and timer, when the bank is commanded closed, and that it is commanded open only in a stop that persists |
| VcuRoad.ResetIffAllClear | ESP_AKS/src/VcuLogic.h:93-102 | A RESET taken in FAULT or EMERGENCY_STOP leads to IDLE if and only if the snapshot shows no motor error, no timeout, no reported BMS fault and no pack voltage at or beyond 600 or 876 deciV; the bank is left alone either way |
| VcuRoad.QueueIsFifo | ESP_AKS/src/VcuLogic.cpp:165-178 | Between two runs the queue takes the events other than stops in the order posted, up to eight; later ones are dropped |
| VcuRoad.TakesIn | ESP_AKS/src/VcuLogic.cpp:184-191 | The machine decides on the last published snapshot; before its mutex or its queue exists it takes no snapshot or no event |
| VcuRoad.RunAdvancesByMilestone | ESP_AKS/src/VcuLogic.cpp:102-141 | A run moves along the road to DRIVE by exactly the milestone it shows, or not at all |
| VcuRoad.RoadToDrive | ESP_AKS/src/VcuLogic.cpp:102-141 | A machine that ends in DRIVE shows, since any earlier moment and in order, every step then missing: interlock-satisfied RESET, START_REQUEST, DRIVE_ENABLE |
| VcuRoad.StopToDrive | ESP_AKS/src/VcuLogic.h:93-102 | From FAULT or EMERGENCY_STOP all three are needed, in this order |
| CanManager.Manager.OnMotorStatus | ESP_AKS/lib/CanManager/CanManager.cpp:182-221 | Handling of a motor frame in place: fields, freshness, and whether a fault event is raised |
| CanManager.Manager.OnLbBmsE000 | ESP_AKS/lib/CanManager/CanManager.cpp:223-292 | Handling of a pack frame in place: voltage, current, state of charge, fault flags, freshness, and the event |
| CanManager.Manager.OnLbBmsE001 | ESP_AKS/lib/CanManager/CanManager.cpp:294-317 | Handling of a temperature frame: highest and lowest of two signed bytes |
| CanManager.Manager.OnFrame | ESP_AKS/lib/CanManager/CanManager.cpp:100-151 | Dispatch by frame format and identifier; unknown frames change nothing |
| CanManager.Manager.CheckMotor | ESP_AKS/lib/CanManager/CanManager.cpp:362-388 | The motor freshness check in place |
| CanManager.Manager.CheckBms | ESP_AKS/lib/CanManager/CanManager.cpp:390-431 | The pack freshness check in place |
| CanManager.Manager.Process | ESP_AKS/lib/CanManager/CanManager.cpp:72-157 | One cycle: at most five waiting frames, then both checks, with the number of events raised |
| CanFreshness.FreshnessIsTrue | ESP_AKS/lib/CanManager/CanManager.cpp:362-431 | With unbounded true time against 32-bit ticks: after any history ending in a poll, data are shown valid if and only if a well-formed frame came less than the timeout ago, and timed out if and only if one came but not that recently; silences longer than the counter included |
| CanFreshness.FreshnessFromPowerUp | ESP_AKS/lib/CanParse/CanParse.cpp:142-160 | The same from power-up |
| CanFreshness.RarePollsAreFooled | ESP_AKS/lib/CanParse/CanParse.cpp:142-160 | The bound on the distance of polls is sharp: at every distance beyond 2^32 minus the timeout, up to a full turn of the counter, a source last seen just before the earlier poll passes for fresh at the later one |
| CanFreshness.WatchMoves | ESP_AKS/lib/CanManager/CanManager.cpp:196-270 | A source's freshness memory moves only with its own well-formed frames and polls |
| CanFreshness.TimedOutIff | ESP_AKS/lib/CanParse/CanParse.cpp:142-160 | The timeout predicate in true time: seen, not yet marked, and silent for 50 ticks |
| CanFreshness.EventIffFlagsChange | ESP_AKS/lib/CanManager/CanManager.cpp:475-485 | Over any history a frame raises a fault event if and only if it is well formed and its flags are nonzero and differ from those of the previous well-formed frame of its source; timeouts in between forget nothing |
| CanFreshness.ExecAllRemembers | ESP_AKS/lib/CanManager/CanManager.cpp:212-285 | The flags compared against are those of the last well-formed frame of the source, after any history |
| CanHistory.TelemetryIsHistory | ESP_AKS/lib/CanParse/CanParse.cpp:5-89 | After any history from power-up the telemetry is, byte by byte, what the last well-formed frame of each kind says: RPM and error byte, signed current times ten, pack voltage, state of charge, the higher and the lower of two signed temperatures; all else is zero |
| CanHistory.MotorStatusSays | ESP_AKS/lib/CanParse/CanParse.cpp:5-16 | The controller's own copy of a motor frame, byte by byte, torque feedback included |
| CanHistory.CycleIsSteps | ESP_AKS/lib/CanManager/CanManager.cpp:72-157 | One cycle of the CAN task after any history is the reception of its first five frames and then both polls, and raises one event for each of these frames whose flags are nonzero and new |
| CanHistory.CyclesAreHistory | ESP_AKS/lib/CanManager/CanManager.cpp:72-157 | Any number of cycles is the history of their receptions and polls, so the freshness, fault and telemetry theorems are theorems about cycles |
| VehicleSystem.VoltagePathsAgree | ESP_AKS/lib/CanManager/CanManager.cpp:235-287 | A well-formed pack frame sets fault flags if and only if the resulting telemetry's pack-voltage test is critical |
| VehicleSystem.PackFaultNotLost | ESP_AKS/src/VcuLogic.cpp:84-91 | A pack frame whose voltage bytes say at most 600 or at least 876 deciV, any CAN steps while it stays fresh, then publication and any posts: the next run from IDLE, READY or DRIVE ends in FAULT, or in EMERGENCY_STOP if a stop is pending, even if the event was dropped |
| VehicleSystem.CriticalIffTrueHistory | ESP_AKS/src/VcuLogic.h:67-91 | After any bus history ending with the two polls of a CAN cycle, the published snapshot is critical if and only if the last motor frame reported an error, or outside IDLE a source that has spoken is silent for the timeout in true time, or the last pack frame is fresh and its voltage is at or beyond a limit |
| VehicleSystem.FaultIffCritical | ESP_AKS/src/VcuLogic.cpp:84-91 | With nothing queued or pending, a machine in IDLE, READY or DRIVE goes to FAULT if the snapshot it was told is critical and otherwise stays |
| VehicleSystem.CriticalIffGrounds | ESP_AKS/src/main.cpp:149-155 | After any number of cycles of the CAN task the published snapshot is critical if and only if the bus gives grounds: a motor error, a silence outside IDLE, or a fresh pack voltage at or beyond a limit |
| VehicleSystem.ResetIffNoGrounds | ESP_AKS/src/VcuLogic.cpp:115-124 | So a RESET taken in a stop is accepted if and only if the bus since power-up gives no grounds for the stop |
| VehicleSystem.MotorErrorSticks | ESP_AKS/src/VcuLogic.h:67-102 | Motor error flags stay critical and block RESET until a well-formed motor frame replaces them |
| VehicleSystem.BusToReceiver | ESP_AKS/src/main.cpp:149-155 | Whatever the bus carries, a published snapshot prints to at most 88 bytes and is accepted with every sanitized field unchanged unless the motor reports more than 20000 rpm |
| VehicleSystem.BytesReachReceiver | ESP_AKS/src/main.cpp:149-155 | End to end from bytes to fields: after any number of CAN cycles the published line is accepted if and only if the last motor frame's RPM bytes say at most 20000, and then RPM, errors, voltage, current, state of charge, temperatures, validity, timeout, stamps and sequence number are what the last frames' bytes, their true ages and the stamps say |
| VehicleSystem.ReceiverAlwaysSeesFault | ESP_AKS/lib/Telemetry/TelemetrySanitize.h:27-30 | No parser writes the system state, so whatever the bus carries every line the receiver accepts reports state 4 |
| VehicleSystem.StopPostedIffFirst | ESP_AKS/src/main.cpp:353-375 | After any bytes and for any buffer, a scan posts a stop if and only if the first frame that the buffer completes is a stop frame |
| VehicleSystem.ScanResult | ESP_AKS/lib/DisplayHMI/DisplayHMI.cpp:173-197 | A scan of any buffer after any bytes returns the first command that the frame reader finds beyond those of the bytes before |
| VehicleSystem.StopReachesController | ESP_AKS/lib/DisplayHMI/DisplayHMI.cpp:157-198 | A stop frame read from rest, or two of them in two cycles after any bytes at all, set the stop flag |
| VehicleSystem.PanelFrames | ESP_AKS/src/main.cpp:353-375 | What each frame read from rest posts: 1 START_REQUEST, 2 RESET, 3 EMERGENCY_STOP, 4 DRIVE_ENABLE, any other decodable command nothing |
| VehicleSystem.StopButtonStops | ESP_AKS/src/VcuLogic.cpp:75-79 | After any garbage on the line, two stop frames in two cycles end the next run in EMERGENCY_STOP |
| HmiRx.ResetIsSuffixMatch | ESP_AKS/lib/HMIHelpers/HMIHelpers.h:189-226 | After any byte history the next byte reports a reset if and only if it is 0x88 or the last six bytes are 00 00 00 FF FF FF |
| HmiRx.ResetSeenIffAnnounced | ESP_AKS/lib/HMIHelpers/HMIHelpers.h:189-226 | A stretch of bytes reports a reset somewhere if and only if some point within it completes an announcement, however the bytes are cut into reads |
| HmiRx.FeedTracks | ESP_AKS/lib/HMIHelpers/HMIHelpers.h:202-224 | After any history the two counters are those of the trailing FFs and the zeros before them |
| HmiRx.TouchesAreFrames | ESP_AKS/lib/HMIHelpers/HMIHelpers.h:228-250 | From rest the commands reported for any bytes are exactly those of a recursive left-to-right frame reader |
| HmiRx.TouchMeansFrame | ESP_AKS/lib/HMIHelpers/HMIHelpers.h:228-250 | After any history, a byte that reports a touch c means that the last three bytes were 5A, c and its complement; and a byte reports one exactly when the frame reader finds one more command |
| HmiRx.StreamFromRest | ESP_AKS/lib/HMIHelpers/HMIHelpers.h:228-250 | What every possible frame produces inside a stream, including those whose bytes are reset bytes |
| HmiRx.FramingRoundTrip | ESP_AKS/lib/HMIHelpers/HMIHelpers.h:163-171 | From rest a stream of frames decodes to exactly its commands with no reset if and only if none of them is 00, FF, 88 or 77 |
| HmiRx.SelfSynchronises | ESP_AKS/lib/HMIHelpers/HMIHelpers.h:228-250 | After any garbage a stream decodes to exactly its commands except that the first frame may be lost; no reset is reported |
| HmiRx.NeverResynchronises | ESP_AKS/lib/HMIHelpers/HMIHelpers.h:228-250 | The two decodable commands that do not synchronise, with the garbage that shows it: after 5A a stream of A5 is misread as touches 5A for ever, after 5A A5 a stream of 5A as touches A5 |
| HmiRx.RecoversIffSynchronises | ESP_AKS/lib/HMIHelpers/HMIHelpers.h:228-250 | A command's stream is read to its end, the first frame perhaps excepted, after every garbage and at every length if and only if the command synchronises |
| HmiRx.DecodableBytes | ESP_AKS/lib/HMIHelpers/HMIHelpers.h:163-171 | Which commands are decodable and which resynchronise, byte by byte; the four commands of the vehicle do both |
| HmiRx.Receiver.Begin | ESP_AKS/lib/DisplayHMI/DisplayHMI.cpp:19-54 | The first successful start empties the automaton and the flags; later ones change nothing |
| HmiRx.Receiver.ClassifyByte | ESP_AKS/lib/HMIHelpers/HMIHelpers.h:189-250 | The classifier in place: new state and event equal the specification's |
| HmiRx.Receiver.ReadTouchCommand | ESP_AKS/lib/DisplayHMI/DisplayHMI.cpp:157-198 | One scan of a buffer: returns its first command, sets the reset flag and drops the screen cache if and only if a reset is reported, and leaves the automaton after all bytes |
| HmiRx.Receiver.TakeResetFlag | ESP_AKS/lib/DisplayHMI/DisplayHMI.cpp:200-204 | Returns the reset flag and clears it |
| HmiRx.ScanTakesFirst | ESP_AKS/lib/DisplayHMI/DisplayHMI.cpp:173-197 | A scan of a stream of frames returns its first command and drops the others |
| BmsAlgo.ComputePack | ESP_AKS/lib/BmsAlgo/BmsAlgo.cpp:30-113 | An invalid pack is critical, empty and discharges no cell; a valid one gets its sum, extremes with their first positions, delta, temperatures, flags, state of charge and warning level |
| BmsAlgo.ScanCells | ESP_AKS/lib/BmsAlgo/BmsAlgo.cpp:38-56 | The single pass finds sum, first maximum, first minimum and the temperature extremes |
| BmsAlgo.BalanceFlags | ESP_AKS/lib/BmsAlgo/BmsAlgo.cpp:74-89 | A flag is set if and only if the pack is unbalanced and the cell lies within the margin of the maximum |
| BmsAlgo.DescribesDetermines | ESP_AKS/lib/BmsAlgo/BmsAlgo.cpp:30-113 | The description of a result leaves no freedom: two results of one pack are equal |
| BmsAlgo.PackLimitIsCritical | ESP_AKS/lib/BmsAlgo/BmsAlgo.cpp:97-110 | A pack sum below 60000 or above 87600 mV forces warning CRITICAL |
| BmsAlgo.CriticalIffSomeCell | ESP_AKS/lib/BmsAlgo/BmsAlgo.cpp:97-110 | CRITICAL if and only if some cell or some temperature is beyond its limit |
| BmsAlgo.NominalIffEveryCell | ESP_AKS/lib/BmsAlgo/BmsAlgo.cpp:97-110 | No warning if and only if every cell lies within 2800 to 3550 mV and every temperature is at most 50, which with the critical limits fixes all three levels |
| BmsAlgo.SocIsLinear | ESP_AKS/lib/BmsAlgo/BmsAlgo.cpp:19-26 | The scale: 0 up to 2500 mV, 100 exactly from 3650 mV on, and in between the last whole per cent reached |
| BmsAlgo.BarIsSoc | ESP_AKS/lib/BmsAlgo/BmsNextionPacket.cpp:14-21 | The bar of a cell uses the same scale, and is empty for the no-data value |
| BmsAlgo.BalancingIsSafe | ESP_AKS/lib/BmsAlgo/BmsAlgo.cpp:74-89 | Balancing starts exactly above 50 mV of difference, then marks exactly the cells within 5 mV of the maximum, the first maximum included, spares every minimum cell, and drains only cells more than 45 mV above it |
| BmsAlgo.SocBetweenBars | ESP_AKS/lib/BmsAlgo/BmsNextionPacket.cpp:14-21 | State of charge lies between the bars of the extreme cells if and only if no cell holds the no-data value 65535 |
| BmsNextionPacket.Page.constructor | ESP_AKS/lib/BmsAlgo/BmsNextionPacket.h:68-85 | The initial cache, field by field |
| BmsNextionPacket.Page.Build | ESP_AKS/lib/BmsAlgo/BmsNextionPacket.cpp:25-146 | One call over the real cache arrays emits exactly the texts of the specified pass, leaves exactly its cache, and warms the page when nothing was left undone; without a callback it does nothing |
| BmsNextionPacket.Emitter.EmitAndCheck | ESP_AKS/lib/BmsAlgo/BmsNextionPacket.cpp:35-56 | Emits and charges a command exactly if no earlier one was refused and it fits; otherwise refuses all that follow |
| BmsNextionPacket.CostBounds | ESP_AKS/lib/BmsAlgo/BmsNextionPacket.cpp:37-48 | Every command costs 11 to 20 bytes with its end bytes |
| BmsScreen.CallSendsLongestPrefix | ESP_AKS/lib/BmsAlgo/BmsNextionPacket.cpp:31-146 | A call sends the longest prefix of the differing fields that fits its budget, in visiting order, caches exactly what it sent, and is complete if and only if it sent all |
| BmsScreen.SentCount | ESP_AKS/lib/BmsAlgo/BmsNextionPacket.cpp:47-51 | A call sends at most budget/11 fields, and fewer than budget/20 only if it sends all |
| BmsScreen.CacheMatchesScreen | ESP_AKS/lib/BmsAlgo/BmsNextionPacket.cpp:61-146 | Over any run of calls and display restarts, every field sent since the last restart shows what the cache holds |
| BmsScreen.CallMakesProgress | ESP_AKS/lib/BmsAlgo/BmsNextionPacket.cpp:61-146 | An unforced call that looks at the cells sets at least budget/20 differing fields right, or all of them, and is complete if and only if none differs afterwards |
| BmsScreen.RunConverges | ESP_AKS/lib/BmsAlgo/BmsNextionPacket.cpp:61-146 | With unchanged inputs the number of differing fields falls by budget/20 with every such call of a run |
| BmsScreen.NineteenCallsSuffice | ESP_AKS/lib/BmsAlgo/BmsNextionPacket.cpp:61-146 | At 90 bytes 19 calls that look at the cells make all 76 fields right |
| BmsScreen.WarmPageFollows | ESP_AKS/lib/BmsAlgo/BmsNextionPacket.cpp:59-146 | A warm page follows its data too: 19 calls for which the cell timer is due make all 76 fields right |
| BmsScreen.ColdPageConverges | ESP_AKS/lib/BmsAlgo/BmsNextionPacket.cpp:59-146 | A cold page needs no cell timer: 19 calls at 90 bytes make all 76 fields right and warm it |
| BmsScreen.ForcedCall | ESP_AKS/lib/BmsAlgo/BmsNextionPacket.cpp:64-69 | A forced call sends the first fields of the page and no others; it sends all of them if and only if the budget covers their total cost |
| BmsScreen.RepaintAfterReset | ESP_AKS/lib/BmsAlgo/BmsNextionPacket.cpp:64-145 | After a display restart with any cache, the forced call repaints its first n fields; no later call repaints another one that the cache already held right, and 19 calls that look at the cells bring exactly the rest; with unchanged data the page comes back completely if and only if the forced budget covers all 76 commands |
| BmsScreen.ResetLeavesPageBlank | ESP_AKS/src/main.cpp:337-350 | At the production budget, beyond the first eight fields everything that had not changed stays blank after a restart, whatever is called later with the same data |
| BmsScreen.PowerUpPaints | ESP_AKS/src/main.cpp:329-350 | After power-up, a forced call and 19 more paint exactly the fields that the first call reached or whose value differs from the initial cache |
| BmsScreen.CommandsAreDistinct | ESP_AKS/lib/BmsAlgo/BmsNextionPacket.cpp:39-43 | No two pairs of field and value share a command text |
| BmsScreen.CommandsOfPage | ESP_AKS/lib/BmsAlgo/BmsNextionPacket.cpp:61-141 | The text of every field: the component name the display knows it by and the value of that cell, bar, flag or summary |

## Left out

- Pin setup, driver installation, watchdog, stack logging, task creation and mutex timing: every driver answer is an input.
- Preemption inside one mutex-protected copy or one queue operation: these are single steps; an emergency stop posted while a run is in progress counts as posted after it.
- SPI transfer failures of the relay driver: a write is taken to reach the expander once the device exists.
- Wrap of the 64-bit microsecond clock: link and sampling theorems assume clock readings that fit 64-bit milliseconds and do not run backwards.
- Log throttling and log text, and the fields that only feed them (`warningLogged`, `auxNotReadyLogged`, the timestamps of the first and last outage sample); the log stamps that gate re-assertion are modelled.
- RPM to speed conversion in floating point: speed is any value its clamp can return.
- The receiver is the one described by `ESP_AKS/tools/e2e/contract.py`; the ground station's own firmware and the monitor are not part of this model. Digits are ASCII digits; Python's `isdigit` also accepts other scripts.
- Current and temperature thresholds, derating and warning predicates of the vehicle controller: no decision uses them.
- The CAN driver's own start-up, bus-off recovery and receive errors: a cycle is one after a successful start, and a receive error ends it like an empty queue.
- Charger frames and the frames whose parsers are stubs: no decision uses them.
- E22 radio configuration, its diagnostic build and the LoRa noise counter: fixed 12-byte blocks and a counter.
- The panel's main page, text tables and no-data display values: sent without a budget and settled by reading one branch.
- The one-second timer that decides when a warm battery page looks at its cells: the flag it computes is an input of a call, and runs count the calls that look.
- `size_t` overflow of the byte counter of the battery page: a call costs at most 1520 bytes.
- CAN replay tools, drift guards and build configuration; only the tick rate of 100 Hz and the constants named in the modules are taken from them.
