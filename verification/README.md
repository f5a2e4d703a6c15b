# The real-time control path, verified

A humanoid robot's motors are commanded at 200 Hz through three processors: the host, a master
microcontroller on a USB serial link, and one slave per motor chain. This project models the whole
path and proves what it keeps, over every input, every interleaving and every run.

The modules follow the path from the bytes up.

**Byte stream.** `Crc16` proves the table-driven checksum equal to polynomial division (section 2 of
ITU-T V.41) and to detect any corruption confined to 16 consecutive bits, and `Crc16Check` its standard check
value. `Framing` has both frame
builders and both sides' judgement of a buffer. `Stream` is one left-to-right scan as a pure
function, its own inverse on built frames; `FrameScanner` is the compacting 2048-byte buffer that
refines it however the stream is cut. `Telemetry` is the record inside.

**Hand-off.** `LatestValueBuffer` is the three-slot lock-free buffer between the reader thread and the
control loop, word by word, in every interleaving. `MasterLink` orders frames by counters that wrap.

**Motors.** `DriveSm` is the per-motor state machine; `Master` and `FakeMaster` are the master's cycle,
once as functions and once in place; `DeadMan` is when the host counts as silent and what that sets off;
`Requests` is what a command does to the motors it covers; `Latching` is what the whole robot keeps.

**Host transport.** `JointWiring`, `FixedPoint` and `JointPolicy` say where each joint lives, how its
tuple is encoded and what is asked of it. `Channel` puts a FIFO command channel and emitted telemetry
between host and robot, with every move the robot or the link can make on its own; `Rearming` follows
one motor from the report that showed it armed; `CommandFrames` says what a frame asks of each motor;
`Traffic` says what one kind of traffic keeps; `Stm32Transport` is the transport itself: activation in
three steps, exchange, release. `Sessions` puts activations one after another, and `ArmingRuns` holds
three runs that arm against expectation.

**Command gate.** `SafetyKernel` passes or damps each batch, `TupleOwnership` says whose batch it is,
`CommandTrace` is the history of what was claimed and sent, and `ActuatorSystem` is the hardware
component whose `write` does the single exchange and whose `read` judges it. `EndToEnd` joins the cores.

Main results, and what is false of the code:

- *Arming.* Suppose no ENABLE of an earlier session is in flight for a joint, and none took effect after
  the oldest report not yet delivered; with the host lost, only an ENABLE behind a RESET counts. Then a
  successful activation leaves no RESET in flight or in the mailbox; each joint's target was its own motor's
  position while DISABLED and freshly heard from; and at every cycle from that very report on, each joint's
  motor, whenever armed, aims at exactly that.
- *No automatic re-arm.* From then on, through any calls until the next activation and whatever robot and
  link do, a joint once reported unarmed, DISABLED or FAULT or anything else, is reported unarmed ever
  after, and a motor in FAULT stays there. That is what the transport's header comment promises
  (`src/humanoid_transport_stm32/include/humanoid_transport_stm32/stm32_serial_transport.hpp:11-13`), and it
  is proved for every motor whose slave has not started again and of which no fault without a cause was
  reported. Both exceptions are real: each brings a motor to DISABLED in the middle of a session, with
  nothing latched, and the session's own running frames arm it (`SlaveResetRearms`,
  `SessionRearmsAfterSlaveReset`, `SpuriousFaultRearms`).
- *Sessions.* The arming hypothesis is needed: an older ENABLE can bring the motor up before the
  activation's RESET has been taken (`OldEnableLooksLikeThisOne`). And it renews itself (`Sessions.Run`):
  after a dead-man trip; when release is confirmed; with joints in FAULT that never confirm, once any one
  joint never isolated is reported DISABLED; and when an activation fails, at once if it had captured
  nothing, otherwise once a joint it armed has been reported DISABLED and every report delivered.
- *Exchange.* Every outcome is tied to its cause, both ways: no error exactly when the frame was written, a newer
  report came of a master that was up, with no restart, no joint in error, some motor present, and every tuple
  one the wire can carry (`Exchange`). Activation and release likewise say exactly when they succeed, and
  otherwise why not. A command that gets through is seen to: it reaches the motor and reads back (`CommandIsSeen`).
- *Dead-man.* A host is lost exactly at the limit, with a motor armed, and a RESET recovers it (`LostExactly`).
  The ramp it starts needs a cycle of at least one millisecond (`SubMillisecondRampNeverEnds`).
- *Drive latch.* Only FAULT and STOPPING hold a fault, and FAULT always does, at every moment of a run
  exactly when every input of it is harmless: no fault is reported to a drive that cannot detect one
  unless it is in FAULT, and no report without a cause sends a drive to FAULT (`RunKeepsLatchExactly`,
  `RobotStaysLatched`). A harmful report is latched without a state change and survives into DISABLED
  (`UndetectableFaultBreaksLatch`).
- *Two scanners.* They agree except that the firmware truncates the type to a byte
  (`TypeHighByteDiffers`).
- *Wiring check.* It accepts a limit exactly at the wire's maximum, which the encoder flags as saturated
  (`AcceptedLimitNotRepresentable`), and a NaN upper position limit (`NanUpperLimitPasses`).
- *Safety kernel.* It does not bound stiffness or damping (`UncheckedGainIsNotRepresentable`), never trips on
  a NaN limit (`RespectsIsInside`), and bounds no slew when its clock has not moved (`NoTimeNoBound`).
- *Motion.* Over any calls to the component, in every activation, a batch that was not damping came from a
  controller, was finite and within every limit, and found every joint covered by whole-tuple claims of
  accepted switches at that write and the one before; after the first protective batch only damping
  follows; and under one configuration effort moves no faster than the slew limit, by the writes' own clocks
  and stamps (`Live`).
- *Bad cycles.* The counter is one byte and forgives at 256 (`WrappedCountForgives`). The protective branch
  resends one sequence number, so there a failed exchange can pass for the answer before it
  (`FailureShowsOnlyInANewSequence`).

Conventions: deadlines and timeouts are a number of attempts, given as an argument; everything a clock,
a port or a plug-in decides is an argument or an arbitrary choice. Floating point is exact arithmetic
over reals with NaN and the infinities (`Numbers`). `docs/transport-stm32.md` describes protocol version
8; the code is version 10, and the model follows the code. A comment in the fake master says a command
takes effect in the cycle after the one that received it; the code reads the port and swaps the mailbox
in one cycle, and so does the model.

## Model

| member | source | states |
|---|---|---|
| Crc16.MakeTable | src/humanoid_transport_stm32/src/wire_protocol.cpp:25-37 | entry i is the register left by shifting i, alone in the high byte, through eight division steps |
| Crc16.ComputeCrc | src/humanoid_transport_stm32/src/wire_protocol.cpp:47-54 | the byte loop returns the remainder of the message, preset added to its leading bits, on division by the generator |
| Crc16.CrcIsLongDivision | src/humanoid_transport_stm32/src/wire_protocol.cpp:47-54 | table form equals schoolbook division over GF(2) for every message and every starting register |
| Crc16.CrcAppend | src/humanoid_transport_stm32/src/wire_protocol.cpp:343-350 | the checksum of a concatenation continues from the first part's checksum, wherever the split |
| Crc16.SerialInjective | src/humanoid_transport_stm32/src/wire_protocol.cpp:47-54 | for any fixed message, different registers stay different: each byte step permutes the register |
| Crc16.BurstChangesCrc | src/humanoid_transport_stm32/src/wire_protocol.cpp:47-54 | any change confined to 16 consecutive bits, at any bit offset of a message of any length, changes the checksum |
| Crc16.AdjacentBytesChangeCrc | src/humanoid_transport_stm32/src/wire_protocol.cpp:47-54 | in particular any change confined to two adjacent bytes |
| Crc16Check.CheckValue | src/humanoid_transport_stm32/test/wire_protocol_test.cpp:159-164 | the checksum of the ASCII digits 1 to 9 is 0x29B1, which fixes generator, preset and bit order |
| Framing.HeaderRoundTrip | src/humanoid_transport_stm32/src/wire_protocol.cpp:133-143 | a 16-byte little-endian header decodes to itself, whatever follows |
| Framing.FrameLayout | src/humanoid_transport_stm32/generated/robot_wire_gen.hpp:292-300 | a frame's header fields at their byte offsets, little-endian, of version 10, then the payload |
| Framing.FrameCarriesItsCrc | src/humanoid_transport_stm32/src/wire_protocol.cpp:343-350 | its checksum is that of the whole frame with the checksum's own two bytes zero |
| Framing.BuildFrame | src/humanoid_transport_stm32/src/wire_protocol.cpp:124-148 | refuses exactly an oversized payload or a short output, touching nothing; otherwise writes exactly the message's bytes and nothing past them |
| Framing.ProtoBuild | src/humanoid_transport_stm32/generated/firmware_sm/protocol.h:179-204 | the firmware's builder, whose total is a 16-bit number: refuses exactly when that exceeds the capacity, and otherwise writes its own frame, the host's very bytes whenever the total fits |
| Framing.ProtoBytesAreTheFrame | src/humanoid_transport_stm32/generated/firmware_sm/protocol.h:179-204 | unless the total wraps, the firmware's frame, checksum taken in one pass over the buffer, is the host's, taken in two |
| Framing.JudgeStable | src/humanoid_transport_stm32/src/wire_protocol.cpp:168-205 | a decision at an offset, once made, does not change when more bytes arrive |
| Framing.HostAcceptsBuilt | src/humanoid_transport_stm32/src/wire_protocol.cpp:168-205 | a built frame is taken whole by the host exactly when its type is known and its payload within the maximum |
| Framing.FirmwareAcceptsBuilt | src/humanoid_transport_stm32/generated/firmware_sm/protocol.h:146-176 | and by the firmware, type byte and payload intact, under the same condition on the truncated type |
| Framing.FirmwareAgreesWithHost | src/humanoid_transport_stm32/generated/firmware_sm/protocol.h:146-176 | on any buffer that holds a header, the host takes a frame of this version exactly when the firmware does and its type fits a byte; and then both take the same length |
| Framing.TypeHighByteDiffers | src/humanoid_transport_stm32/generated/firmware_sm/protocol.h:146-176 | a type above 255 that the firmware takes as a frame and the host refuses |
| Framing.CorruptPayloadRejected | src/humanoid_transport_stm32/src/wire_protocol.cpp:187-191 | a built frame whose payload is corrupted within 16 consecutive bits is always rejected at its own offset, whatever its length and whatever follows |
| Stream.ParseAppend | src/humanoid_transport_stm32/src/wire_protocol.cpp:168-215 | scanning a stream is scanning its first part and then what was left of it followed by the second |
| Stream.ParseConserves | src/humanoid_transport_stm32/src/wire_protocol.cpp:168-215 | every byte is in a returned frame, a foreign-version frame, the discarded bytes or the remainder, in order |
| Stream.ParseInvertsBuild | src/humanoid_transport_stm32/src/wire_protocol.cpp:124-215 | any concatenation of built frames scans back to exactly those types, sequence numbers, timestamps and payloads, with nothing discarded or left |
| Stream.Resynchronises | src/humanoid_transport_stm32/src/wire_protocol.cpp:168-215 | garbage at whose offsets no valid candidate starts, followed by a frame with at least 511 bytes from it on, is discarded byte for byte and the frame returned next |
| Stream.JunkIsOneRun | src/humanoid_transport_stm32/src/wire_protocol.cpp:207-215 | such a run of discarded bytes adds exactly one resync event to those of whatever follows the next event |
| Stream.ResynchronisesOnce | src/humanoid_transport_stm32/src/wire_protocol.cpp:168-215 | garbage, a frame and a tail: every counter of the whole is that of the tail, plus one run of exactly the garbage, plus the frame |
| FrameScanning.FrameScanner.Compact | src/humanoid_transport_stm32/src/wire_protocol.cpp:155-159 | moves the unread bytes to the front without changing them |
| FrameScanning.FrameScanner.Push | src/humanoid_transport_stm32/src/wire_protocol.cpp:150-166 | takes as many bytes as fit once compacted, appends exactly those, and stays the scan of everything accepted so far |
| FrameScanning.FrameScanner.Drop | src/humanoid_transport_stm32/src/wire_protocol.cpp:207-215 | discards one byte at which no frame starts, keeping every counter equal to that of the log |
| FrameScanning.FrameScanner.TakeFrame | src/humanoid_transport_stm32/src/wire_protocol.cpp:193-202 | takes exactly the frame at the front; one of another version is counted and not returned |
| FrameScanning.FrameScanner.Next | src/humanoid_transport_stm32/src/wire_protocol.cpp:168-205 | returns the next frame of the stream's scan, or nothing only when more bytes are needed; terminates |
| FrameScanning.Feed | src/humanoid_transport_stm32/src/master_link.cpp:197-207 | a drained scanner takes any chunk of at most 1537 bytes whole, so the loop's exit on a refused push is never reached |
| FrameScanning.ScanStream | src/humanoid_transport_stm32/src/wire_protocol.cpp:150-215 | however the stream is cut, frames and all four counters equal those of one pure scan, and fewer than 512 bytes are left waiting |
| Telemetry.ParseRobotTele | src/humanoid_transport_stm32/src/wire_protocol.cpp:221-246 | accepts exactly the payloads long enough for the chains they announce, with chain and motor counts within the arrays |
| Telemetry.SerialiseParses | src/humanoid_transport_stm32/src/wire_protocol.cpp:221-246 | a serialised record parses back to itself with every unsent chain zero, whatever follows it |
| Telemetry.ParsedSerialises | src/humanoid_transport_stm32/src/wire_protocol.cpp:221-246 | whatever is accepted serialises back to the bytes it was read from |
| Telemetry.LayoutOfHead | src/humanoid_transport_stm32/generated/robot_wire_gen.hpp:344-355 | the head's fields at their byte offsets, little-endian |
| Telemetry.LayoutOfChain | src/humanoid_transport_stm32/generated/robot_wire_gen.hpp:319-343 | chain c and its motor k at theirs in an accepted payload, each field of the motor at its own |
| LatestValue.StepKeepsInv | src/humanoid_transport/include/humanoid_transport/latest_value_buffer.hpp:53-110 | every step of either thread, from any reachable state, keeps the three slots partitioned and their contents accounted for |
| LatestValue.NoTornReads | src/humanoid_transport/include/humanoid_transport/latest_value_buffer.hpp:53-80 | in every interleaving back, front and middle are distinct, counting an index still in a local, and every frame a read returned is one frame published whole |
| LatestValue.ReadsAreCurrent | src/humanoid_transport/include/humanoid_transport/latest_value_buffer.hpp:73-80 | a read is at least as new as the last hand-off before its fresh check, and empty only if that frame is invalid or was discarded |
| LatestValue.ReadsAreMonotone | src/humanoid_transport/include/humanoid_transport/latest_value_buffer.hpp:73-110 | frames never go backwards, and reads with nothing between them agree |
| LatestValue.ResetDiscards | src/humanoid_transport/include/humanoid_transport/latest_value_buffer.hpp:85-92 | after a reset only frames handed over after its fresh check are ever returned |
| LatestValue.LatestValueBuffer.Publish | src/humanoid_transport/include/humanoid_transport/latest_value_buffer.hpp:53-61 | a run of the producer's own steps, after which the frame is the latest value |
| LatestValue.LatestValueBuffer.Read | src/humanoid_transport/include/humanoid_transport/latest_value_buffer.hpp:73-80 | a run of the consumer's own steps that returns the latest value if it is valid |
| LatestValue.LatestValueBuffer.Reset | src/humanoid_transport/include/humanoid_transport/latest_value_buffer.hpp:85-92 | a run of the consumer's own steps, after which there is no value |
| DriveSm.StepKeepsLatchExactly | src/humanoid_transport_stm32/generated/firmware_sm/drive_sm.h:82-265 | from a latched drive, a request, report or tick keeps the latch exactly when it is harmless there |
| DriveSm.RunKeepsLatchExactly | src/humanoid_transport_stm32/generated/firmware_sm/drive_sm.h:82-265 | over any run: FAULT has a cause and only FAULT and STOPPING may have one, at every moment, exactly when every input is harmless where it comes |
| DriveSm.LatchInvariant | src/humanoid_transport_stm32/generated/firmware_sm/drive_sm.h:82-265 | in particular whenever faults are reported only where they can be detected |
| DriveSm.FirstFaultSurvives | src/humanoid_transport_stm32/generated/firmware_sm/drive_sm.h:82-265 | until CLEARING is entered the first fault is unchanged; FAULT stays, and a faulted STOPPING ends only in FAULT, even cut short by DISABLE |
| DriveSm.OnlyResetLeavesFault | src/humanoid_transport_stm32/generated/firmware_sm/drive_sm.h:153-164 | a run without RESET leaves a faulted drive exactly as it was |
| DriveSm.OnlyEnableArms | src/humanoid_transport_stm32/generated/firmware_sm/drive_sm.h:120-138 | the only way to become armed is ENABLE from DISABLED with the shaft not wound |
| DriveSm.DisableDisarms | src/humanoid_transport_stm32/generated/firmware_sm/drive_sm.h:101-118 | DISABLE leaves no drive armed, whatever it was doing, and loses no fault: a clean one ends DISABLED, a ramp cut short with a fault latched in FAULT; an unarmed one does not move |
| DriveSm.StopRamps | src/humanoid_transport_stm32/generated/firmware_sm/drive_sm.h:139-151 | STOP leaves at most a ramp, exactly from ENABLED or STOPPING; ENABLING is aborted |
| DriveSm.EnableStarts | src/humanoid_transport_stm32/generated/firmware_sm/drive_sm.h:120-137 | ENABLE moves a DISABLED drive alone: up, or with a wound shaft into FAULT, with that as its cause unless it had one |
| DriveSm.ResetClears | src/humanoid_transport_stm32/generated/firmware_sm/drive_sm.h:153-167 | RESET moves a faulted drive alone and forgets its fault; an undefined request moves none |
| DriveSm.RequestTells | src/humanoid_transport_stm32/generated/firmware_sm/drive_sm.h:82-170 | what a request tells the drive follows from how its state moves: to stop exactly on leaving the armed states, to clear exactly on the way to CLEARING, and so on |
| DriveSm.RejectedExactly | src/humanoid_transport_stm32/generated/firmware_sm/drive_sm.h:82-170 | a request is rejected exactly when it is unknown, comes before the drive is up, or is an ENABLE or RESET its state does not allow |
| DriveSm.FaultLeads | src/humanoid_transport_stm32/generated/firmware_sm/drive_sm.h:173-208 | a detected fault: the first is kept; only a driven motor that can still be talked to ramps, any other live one is in FAULT at once |
| DriveSm.FaultTells | src/humanoid_transport_stm32/generated/firmware_sm/drive_sm.h:173-208 | and the drive is told to stop exactly when it enters FAULT so |
| DriveSm.TickLeads | src/humanoid_transport_stm32/generated/firmware_sm/drive_sm.h:211-265 | where each state can be reached from by a tick, and on what |
| DriveSm.TickTells | src/humanoid_transport_stm32/generated/firmware_sm/drive_sm.h:211-265 | a tick latches a fault only on the way to FAULT, naming an enable that failed or a drive still dirty |
| DriveSm.UndetectableFaultBreaksLatch | src/humanoid_transport_stm32/generated/firmware_sm/drive_sm.h:173-184 | a fault reported to a CLEARING drive ends latched in DISABLED |
| FakeMasters.HostWatchdog.Step | src/humanoid_transport_stm32/generated/firmware_sm/host_watchdog.h:39-51 | the latch in place is the one `LostExactly` speaks of |
| FakeMasters.FakeMaster.RunCycle | src/humanoid_transport_stm32/test/fake_master.cpp:369-403 | the in-place cycle makes exactly the step the run theorems reason about |
| FakeMasters.FakeMaster.Receive | src/humanoid_transport_stm32/test/fake_master.cpp:405-436 | the mailbox keeps the last command read |
| FakeMasters.FakeMaster.SwapMailbox | src/humanoid_transport_stm32/test/fake_master.cpp:374-394 | a pending command becomes the active one and the count since fresh restarts; otherwise it grows; then the watchdog steps |
| FakeMasters.FakeMaster.ApplyRequests | src/humanoid_transport_stm32/test/fake_master.cpp:438-474 | every motor a command names gets its request, forced to STOP when the host is lost, gated while a slave mismatches |
| FakeMasters.FakeMaster.PollDrives | src/humanoid_transport_stm32/test/fake_master.cpp:522-601 | every motor takes exactly one tick |
| DeadMan.NothingRearms | src/humanoid_transport_stm32/test/fake_master.cpp:438-518 | with the host lost, no motor is armed by any run in which no RESET arrives |
| DeadMan.RampEnds | src/humanoid_transport_stm32/test/fake_master.cpp:520-601 | a motor some way into its ramp is off once the cycles left in it have run, for good |
| DeadMan.DeadManStops | src/humanoid_transport_stm32/test/fake_master.cpp:369-403 | after the given silence with a motor armed, the host is lost in that very cycle, and every covered motor is off within ceil(ramp / cycle) more cycles and stays off until a RESET |
| DeadMan.FirmwareStopsInSixtyCycles | src/humanoid_transport_stm32/generated/firmware_sm/motor_config.h:50-62 | at the firmware's own timing and a 5 ms cycle the ramp's bound is met exactly from 60 cycles on |
| DeadMan.LostExactly | src/humanoid_transport_stm32/generated/firmware_sm/host_watchdog.h:39-51 | one cycle exactly: taking a command that asks RESET it ends with the host heard; otherwise a lost host stays lost, and one heard is lost exactly when a motor was armed, no command was taken, and the last one taken is now as old as the limit |
| DeadMan.FedIsHeard | src/humanoid_transport_stm32/test/fake_master.cpp:374-394 | a host heard from in every cycle is never lost |
| DeadMan.LostAfterSilenceExactly | src/humanoid_transport_stm32/test/fake_master.cpp:374-394 | through any silence after a command, the cycle that loses the host is exactly the one at the limit with some motor armed |
| Latching.RequestIsStep | src/humanoid_transport_stm32/test/fake_master.cpp:477-518 | the fake master's request handling moves a drive exactly by the state machine, whose requests `DisableDisarms` to `RejectedExactly` pin one by one |
| Latching.PollIsStep | src/humanoid_transport_stm32/test/fake_master.cpp:522-601 | so does its poll, and it reports faults only where they can be detected |
| Latching.RobotStaysLatched | src/humanoid_transport_stm32/test/fake_master.cpp:369-403 | over every run of the whole robot, every motor keeps the latch at every moment exactly when every forced fault is harmless and no slave starts again with a fault latched |
| Latching.FaultStays | src/humanoid_transport_stm32/test/fake_master.cpp:369-403 | with no RESET in the mailbox and none arriving, a motor in FAULT stays there through any run, until its slave starts again |
| Latching.SubMillisecondRampNeverEnds | src/humanoid_transport_stm32/test/fake_master.cpp:524-525 | with a cycle below a millisecond the host trips, the covered motor starts its ramp, and is still ramping however many cycles follow |
| Requests.DisableCycleDisarms | src/humanoid_transport_stm32/test/fake_master.cpp:438-518 | with the host heard, a motor the acted-on command covers with DISABLE is not armed after the cycle |
| Requests.StopCycleRamps | src/humanoid_transport_stm32/test/fake_master.cpp:438-518 | one covered with STOP, or covered at all with the host lost, is at most ramping |
| Requests.MismatchedCycleArmsNothing | src/humanoid_transport_stm32/test/fake_master.cpp:464-469 | while any slave mismatches no motor that was off is armed, whatever is asked |
| Requests.GatePassesArmed | src/humanoid_transport_stm32/test/fake_master.cpp:464-469 | and an armed motor is still obeyed |
| Requests.ResetRecovers | src/humanoid_transport_stm32/test/fake_master.cpp:438-601 | a faulted motor whose drive answers and is clean is back in DISABLED, its fault forgotten, after two cycles that ask RESET of it |
| Requests.ClearingEnds | src/humanoid_transport_stm32/test/fake_master.cpp:567-594 | a drive that answers while clearing ends in DISABLED exactly when it is clean, otherwise in FAULT with that as its cause |
| Requests.SilenceFaults | src/humanoid_transport_stm32/test/fake_master.cpp:542-555 | an armed motor whose drive has been silent for the timeout is in FAULT after the poll that finds it so |
| Requests.SilentDriveIsOff | src/humanoid_transport_stm32/test/fake_master.cpp:438-601 | whatever the host asks cycle after cycle, a motor whose drive has not answered for the timeout is not armed |
| Requests.TupleReachesMotor | src/humanoid_transport_stm32/test/fake_master.cpp:504-518 | with the host heard, an ENABLED motor whose drive answers runs at exactly the tuple it is covered with, and says which command it was |
| Requests.TupleIsKept | src/humanoid_transport_stm32/test/fake_master.cpp:504-510 | a motor still coming up keeps the position of the tuple |
| Requests.ComesUpAtTuple | src/humanoid_transport_stm32/test/fake_master.cpp:585-590 | and comes up at it |
| Requests.PollMoves | src/humanoid_transport_stm32/test/fake_master.cpp:528-594 | a poll turns a shaft only to the tuple it holds, and only of a motor ENABLED or coming up; the position reported is the one the drive answered |
| Requests.OffStands | src/humanoid_transport_stm32/test/fake_master.cpp:438-601 | no command moves a motor that is off in the cycle that acts on it |
| Requests.PassingStatesEnd | src/humanoid_transport_stm32/generated/firmware_sm/motor_config.h:50-62 | ENABLING at the firmware's timing: up from 10 ms on if the drive runs, in FAULT from 100 ms on if it does not |
| Requests.LeavingStatesEnd | src/humanoid_transport_stm32/generated/firmware_sm/motor_config.h:50-62 | a ramp lasts to 300 ms, an unanswered clear to 100 ms, an unanswered DISABLED to 100 ms of silence; ABSENT ends when the drive answers |
| Requests.ReportedFaultsStay | src/humanoid_transport_stm32/test/fake_master.cpp:277-299 | a fault the drive itself reported keeps it from being cleared, and no other does |
| FixedPoint.EncodeI16Saturation | src/humanoid_transport_stm32/src/wire_protocol.cpp:56-70 | unsaturated exactly when finite and half an LSB inside the type's limits |
| FixedPoint.EncodeU16Saturation | src/humanoid_transport_stm32/src/wire_protocol.cpp:72-85 | the same for the unsigned encoder |
| FixedPoint.EncodeI16Clamps | src/humanoid_transport_stm32/src/wire_protocol.cpp:56-70 | a saturated value goes out as the end of the range it is beyond, and one that is no number as zero |
| FixedPoint.EncodeU16Clamps | src/humanoid_transport_stm32/src/wire_protocol.cpp:72-85 | the same for the unsigned encoder |
| FixedPoint.EncodeI16Rounds | src/humanoid_transport_stm32/src/wire_protocol.cpp:56-70 | rounds to nearest, ties away from zero |
| FixedPoint.EncodeU16Rounds | src/humanoid_transport_stm32/src/wire_protocol.cpp:72-85 | rounds to within half an LSB |
| FixedPoint.EncodeInvertsDecode | src/humanoid_transport_stm32/src/wire_protocol.cpp:56-90 | every raw value decodes and encodes back to itself; only the two extremes are flagged |
| FixedPoint.DecodeWithinHalfLsb | src/humanoid_transport_stm32/src/wire_protocol.cpp:56-90 | decoding an unsaturated encoding is within half an LSB |
| JointWiring.MakeLayout | src/humanoid_transport_stm32/src/joint_wiring.cpp:40-93 | accepts exactly the wirings with all joints in range and in distinct slots; announces exactly the wired chains, ascending, each with one more slot than its highest motor; a refusal names the first joint in error and why |
| JointWiring.CheckEnvelopeExact | src/humanoid_transport_stm32/src/joint_wiring.cpp:95-118 | with a position maximum that is a number, accepts exactly the envelopes that fit the wire |
| JointWiring.NanUpperLimitPasses | src/humanoid_transport_stm32/src/joint_wiring.cpp:100-102 | a NaN position maximum is accepted |
| JointWiring.RepresentableExactly | src/humanoid_transport_stm32/src/wire_protocol.cpp:92-118 | inside an accepted envelope a command is representable exactly when it has half an LSB of headroom; position always has |
| JointWiring.AcceptedLimitNotRepresentable | src/humanoid_transport_stm32/src/joint_wiring.cpp:143-150 | the command at a limit accepted at the wire's maximum is not representable |
| JointWiring.EchoReadsBack | src/humanoid_transport_stm32/include/humanoid_transport_stm32/joint_wiring.hpp:84-98 | encoded, decoded and mapped back, position, velocity and effort return within half an LSB for either sign and any offset |
| JointWiring.EncodedFields | src/humanoid_transport_stm32/src/wire_protocol.cpp:92-118 | of a representable command each of the five fields carries its own quantity within half a unit: 10000 counts a radian in the wire's frame, 100 a rad/s, 100 an Nm, 10 an Nm/rad, 100 an Nms/rad |
| JointWiring.RepresentableIs | src/humanoid_transport_stm32/src/wire_protocol.cpp:92-118 | representable exactly when the angle is within pi of home and the other four are inside literal bounds of their fields |
| JointWiring.HomeFrameIsPi | src/humanoid_transport_stm32/src/wire_protocol.cpp:101-104 | that bound is pi, to the thirteenth decimal |
| JointPolicy.OnlyClearingResets | src/humanoid_transport_stm32/include/humanoid_transport_stm32/joint_policy.hpp:62-83 | RESET is asked for while clearing only; ENABLE while arming or running an unisolated joint only, and always with a tuple |
| JointPolicy.FindMotor | src/humanoid_transport_stm32/src/joint_policy.cpp:37-51 | reads the motor of the first announced chain with the id, if that chain announces it |
| JointPolicy.ChainMotorCount | src/humanoid_transport_stm32/src/joint_policy.cpp:53-69 | a chain announcing no motors is not reporting |
| JointPolicy.FoundIffCounted | src/humanoid_transport_stm32/src/joint_policy.cpp:37-69 | a motor is found exactly when its chain's count is above its index |
| JointPolicy.JudgeClearing | src/humanoid_transport_stm32/src/joint_policy.cpp:71-93 | reached exactly when every joint is freshly DISABLED with no fault outliving the grace; fails at the first such fault, else waits on the first joint not there |
| JointPolicy.JudgeArming | src/humanoid_transport_stm32/src/joint_policy.cpp:95-114 | the same towards ENABLED, any fault failing it |
| JointPolicy.JudgedOnce | src/humanoid_transport_stm32/src/joint_policy.cpp:71-114 | what the judgements promise leaves exactly one verdict |
| JointPolicy.FaultBitsUnpack | src/humanoid_transport_stm32/src/joint_policy.cpp:23-29 | the packed word gives back the drive's six bits, the firmware fault and the cause |
| JointPolicy.EchoedJointReadsBack | src/humanoid_transport_stm32/src/joint_policy.cpp:8-35 | a joint whose motor reports what it was sent reads within half an LSB of its command |
| JointPolicy.ReadingIs | src/humanoid_transport_stm32/src/joint_policy.cpp:8-35 | what a joint reads of any motor report, in its own units, direction and offset, with literal scales; a missing motor reads as nothing |
| JointPolicy.ReachedExactly | src/humanoid_transport_stm32/src/joint_policy.cpp:71-114 | a judgement is Reached exactly when every joint is freshly in the state, and fails only on a reported fault |
| MasterReports.ViewSurvivesWire | src/humanoid_transport_stm32/test/fake_master.cpp:620-688 | the report of any state parses back whole |
| MasterReports.FoundIsTheMotor | src/humanoid_transport_stm32/test/fake_master.cpp:625-667 | reading a report by chain id and index finds exactly that motor, and nothing when its chain is not alive |
| MasterReports.ReportOfMotor | src/humanoid_transport_stm32/test/fake_master.cpp:647-662 | the report of a motor gives its position, velocity, torque, state, fault, age and the command it last acted on |
| MasterReports.ReportOfRobot | src/humanoid_transport_stm32/test/fake_master.cpp:669-684 | the report of the robot gives its cycle, the commands received and acted on, each chain's id, link and motor count, and its state: host lost exactly when it is, mismatch exactly when some slave is and the host is not lost |
| MasterReports.CutOffIsUnreported | src/humanoid_transport_stm32/test/fake_master.cpp:625-646 | a chain cut off or mismatched is reported without its motors, and with them once it is neither |
| MasterReports.EnabledIsArmed | src/humanoid_transport_stm32/test/fake_master.cpp:647-662 | a joint reported ENABLED is an armed motor of the robot |
| MasterLinks.Step16IsTrueStep | src/humanoid_transport_stm32/src/master_link.cpp:262-262 | the signed 16-bit difference of wrapped counters is the true step whenever that is within half the range |
| MasterLinks.Step32IsTrueStep | src/humanoid_transport_stm32/src/master_link.cpp:263-263 | the same for the 32-bit clock |
| MasterLinks.NewerIsAhead | src/humanoid_transport_stm32/src/master_link.cpp:126 | so a cycle counts as newer exactly when it truly is, within half the range |
| MasterLinks.MasterLink.HandleTelemetry | src/humanoid_transport_stm32/src/master_link.cpp:253-288 | a step back flags a restart and is published, an exact repeat is counted and dropped, anything else is published |
| MasterLinks.MasterLink.AcknowledgeMasterReset | src/humanoid_transport_stm32/src/stm32_serial_transport.cpp:80-82 | forgets the restart and nothing else |
| MasterLinks.OnwardRunIsClean | src/humanoid_transport_stm32/src/master_link.cpp:253-288 | over any run without restart or half-range gap, however the counters wrap, no restart is seen, exactly the repeats are dropped and the rest published in order |
| MasterLinks.StepBackIsFlagged | src/humanoid_transport_stm32/src/master_link.cpp:262-265 | a step back of either counter by up to half its range is always flagged |
| MasterLinks.HalfWrapLooksLikeAReset | src/humanoid_transport_stm32/src/master_link.cpp:262-265 | a step on of exactly half the range looks the same |
| MasterLinks.WaitForNewer | src/humanoid_transport_stm32/src/master_link.cpp:120-148 | returns the first look at the buffer that is ahead of the last cycle, and nothing only when none was |
| MasterLinks.NoCycleAnswersTwice | src/humanoid_transport_stm32/src/stm32_serial_transport.cpp:200-206 | over any sequence of waits, answering cycles strictly increase, and no cycle seen ahead goes without answering |
| MasterLinks.HalfWrapNeverAnswers | src/humanoid_transport_stm32/src/master_link.cpp:120-148 | a frame exactly half the range ahead is never taken |
| CommandFrames.IndexChains | src/humanoid_transport_stm32/src/stm32_serial_transport.cpp:465-472 | the index finds each wired chain's place in the frame |
| CommandFrames.AddressedApart | src/humanoid_transport_stm32/src/stm32_serial_transport.cpp:888-892 | distinct joints write distinct slots of the frame |
| CommandFrames.BlankCommand | src/humanoid_transport_stm32/src/stm32_serial_transport.cpp:875-886 | heads exactly the wired chains and asks nothing of any motor |
| CommandFrames.FillNext | src/humanoid_transport_stm32/src/stm32_serial_transport.cpp:888-892 | writing one joint's slot disturbs no other |
| CommandFrames.OnlyItsRequest | src/humanoid_transport_stm32/src/stm32_serial_transport.cpp:888-892 | in a full frame whatever is addressed to a joint's motor is that joint's own request |
| CommandFrames.FilledEnables | src/humanoid_transport_stm32/src/stm32_serial_transport.cpp:172-191 | a full frame enables exactly the joints whose request is ENABLE and leaves the others quiet |
| CommandFrames.FilledCovers | src/humanoid_transport_stm32/test/fake_master.cpp:444-458 | a full frame reaches every wired motor the robot has |
| CommandFrames.FilledAsks | src/humanoid_transport_stm32/test/fake_master.cpp:444-458 | acted on, a full frame asks of each joint's motor what that joint's request asks |
| Channel.CycleTakesMail | src/humanoid_transport_stm32/test/fake_master.cpp:372-394 | a master cycle takes commands from the front of the channel, never reorders them, and acts on the first of those left |
| Channel.CycleTakesLive | src/humanoid_transport_stm32/test/fake_master.cpp:438-442 | of the commands that can still be acted on, those behind the first RESET if the host is lost, a cycle takes from the front, and what is left begins with the one acted on |
| Channel.FreshIsSettled | src/humanoid_transport_stm32/test/fake_master.cpp:438-442 | a robot and link that have just come up meet the hypothesis of arming |
| Channel.QuietMailExactly | src/humanoid_transport_stm32/test/fake_master.cpp:374-394 | nothing is left to arm a motor exactly when no command for it is an ENABLE, or with the host lost none behind a RESET is |
| Channel.QuietMailIsSettled | src/humanoid_transport_stm32/src/stm32_serial_transport.cpp:642-648 | with every report delivered, it is enough that nothing in the mail asks for the motor |
| Channel.MoveKeepsSettled | src/humanoid_transport_stm32/test/fake_master.cpp:369-403 | with nothing left to arm a motor, no move of robot or link arms it, not even a RESET that ends a dead-man trip |
| Channel.UnarmedAfter | src/humanoid_transport_stm32/test/fake_master.cpp:369-403 | nor does any sequence of moves |
| Channel.MoveKeepsAimedSlot | src/humanoid_transport_stm32/test/fake_master.cpp:504-518 | a motor all of whose commands aim at one target is never armed with another |
| Channel.FaultsAfter | src/humanoid_transport_stm32/test/fake_master.cpp:369-403 | with no RESET anywhere, every fault there was or is reported on the way is there at the end, unless its slave started again |
| Rearming.MoveKeepsReadying | src/humanoid_transport_stm32/test/fake_master.cpp:369-403 | while an activation arms, wherever the motor is armed, or was reported armed, nothing but ENABLE is left for it and no RESET, whatever moves next |
| Rearming.SettledIsReadying | src/humanoid_transport_stm32/src/stm32_serial_transport.cpp:642-648 | a report that shows a settled motor unarmed begins that |
| Rearming.MoveKeepsLaunched | src/humanoid_transport_stm32/test/fake_master.cpp:369-403 | from the report that showed it armed: the motor, undisturbed, is up; or off for good, and unless in FAULT with the host lost or nothing left that enables it |
| Rearming.LaunchedSent | src/humanoid_transport_stm32/src/stm32_serial_transport.cpp:172-191 | and so it stays while its joint is sent ENABLE, and once it is no longer |
| Rearming.LaunchedNeverRearms | src/humanoid_transport_stm32/include/humanoid_transport_stm32/stm32_serial_transport.hpp:11-13 | an undisturbed motor once reported unarmed is unarmed in every later report and now |
| Rearming.OffAndHeardIsQuiet | src/humanoid_transport_stm32/src/stm32_serial_transport.cpp:239-247 | one launched motor reported DISABLED shows that nothing which can still be acted on would arm it |
| ArmingRuns.SlaveResetRearms | src/humanoid_transport_stm32/test/fake_master.cpp:329-337 | a slave that starts again under running frames is reported DISCOVERING, and its motor is armed by the first of them to find it DISABLED |
| ArmingRuns.SpuriousFaultRearms | src/humanoid_transport_stm32/test/fake_master.cpp:277-299 | a fault without a cause reported of an ENABLED motor: under running frames it ramps to DISABLED with nothing latched, and the next frame arms it |
| ArmingRuns.OldEnableLooksLikeThisOne | src/humanoid_transport_stm32/src/stm32_serial_transport.cpp:711-719 | an ENABLE from before the activation brings the motor up and is reported, with the activation's RESET still in flight |
| Traffics.TimePasses | src/humanoid_transport_stm32/test/fake_master.cpp:356-403 | any sequence of moves keeps all of these at once |
| Traffics.CommandGoes | src/humanoid_transport_stm32/src/stm32_serial_transport.cpp:850-866 | sending a command keeps what its kind of traffic promises |
| Traffics.HoldsAreTrue | src/humanoid_transport_stm32/src/stm32_serial_transport.cpp:656-671 | captured targets are where the wired motors themselves stood, DISABLED and freshly heard from |
| Traffics.SettledAreReadying | src/humanoid_transport_stm32/src/stm32_serial_transport.cpp:642-648 | from a report that showed every settled joint standing DISABLED, each is ready to be armed and its target contradicted by nothing |
| Traffics.ReportedEnabledIsLaunched | src/humanoid_transport_stm32/src/stm32_serial_transport.cpp:711-719 | a joint so readied and reported ENABLED was armed by this activation, and no RESET is left |
| Traffics.OneOffQuiets | src/humanoid_transport_stm32/src/stm32_serial_transport.cpp:239-247 | at the end of a session, one joint reported DISABLED shows that nothing is left to arm any other that was asked for with it, in whatever state that is |
| Traffics.LostQuiets | src/humanoid_transport_stm32/test/fake_master.cpp:438-442 | with the host lost and one joint launched since the last RESET, no command is left that can be acted on |
| Stm32Transports.NextCmdSeq | src/humanoid_transport_stm32/src/stm32_serial_transport.cpp:868-873 | a command sequence number is never zero |
| Stm32Transports.PhaseFrame | src/humanoid_transport_stm32/src/stm32_serial_transport.cpp:813-839 | each joint's phase request in its own slot and nothing anywhere else |
| Stm32Transports.PhaseSlots | src/humanoid_transport_stm32/src/stm32_serial_transport.cpp:813-839 | while arming a slot holds the captured position at the motor's own gains; otherwise it is a bare request |
| Stm32Transports.RunFrame | src/humanoid_transport_stm32/src/stm32_serial_transport.cpp:172-191 | each joint's running request, as `RunSlotCarries` and `RunSlotOff` spell it out, in its own slot, and whether the wire can carry every tuple that counts |
| Stm32Transports.RunSlotCarries | src/humanoid_transport_stm32/src/stm32_serial_transport.cpp:172-191 | a running slot enables its motor with the controller's own five quantities, each in its own field at a literal scale |
| Stm32Transports.RunSlotOff | src/humanoid_transport_stm32/src/stm32_serial_transport.cpp:172-191 | an isolated joint's slot, and every one in a read-only session, is a bare DISABLE |
| Stm32Transports.Interpret | src/humanoid_transport_stm32/src/stm32_serial_transport.cpp:220-261 | the first joint in error decides; otherwise every joint's reading and exactly the commandable unisolated joints |
| Stm32Transports.JointErrorIs | src/humanoid_transport_stm32/src/stm32_serial_transport.cpp:224-247 | one joint's error in terms of its report: a mismatch exactly when its chain announces too few motors, a fault exactly when, unisolated, it is missing, FAULT or ABSENT |
| Stm32Transports.DownIsNotUp | src/humanoid_transport_stm32/src/stm32_serial_transport.cpp:210-218 | a report is read as a robot that is down exactly when its master had lost the host or a slave mismatched |
| Stm32Transports.NoErrorMeansAlive | src/humanoid_transport_stm32/src/stm32_serial_transport.cpp:239-247 | with no error, every joint not isolated has a motor that is neither FAULT nor ABSENT |
| Stm32Transports.CaptureFrom | src/humanoid_transport_stm32/src/stm32_serial_transport.cpp:656-669 | captures exactly when every joint is freshly DISABLED, and then each joint's own position |
| Stm32Transports.Stm32Transport.SendPhaseFrame | src/humanoid_transport_stm32/src/stm32_serial_transport.cpp:813-839 | hands one phase frame with a fresh sequence number to the link, keeping what the phase promises |
| Stm32Transports.Stm32Transport.RunActivationStep | src/humanoid_transport_stm32/src/stm32_serial_transport.cpp:679-737 | sends that phase's requests only, and succeeds exactly when a report it looked at, all of them delivered since it began, showed every joint freshly at its target; otherwise the link is down, a request was not confirmed, the last report showed a fault, or patience ran out |
| Stm32Transports.Stm32Transport.CaptureHold | src/humanoid_transport_stm32/src/stm32_serial_transport.cpp:642-677 | sends nothing, and succeeds exactly when it looked at a report since it began with every joint freshly DISABLED, whose positions are then the targets; otherwise the link is down or patience ran out |
| Stm32Transports.Stm32Transport.ArmMotors | src/humanoid_transport_stm32/src/stm32_serial_transport.cpp:623-640 | clearing requests alone, then hold requests alone; succeeds exactly when three reports in turn showed every joint DISABLED, DISABLED and ENABLED; from settled joints, success leaves no RESET, every motor held at its captured position from the capturing report on, and every one known to have been armed by this |
| Stm32Transports.Stm32Transport.Activate | src/humanoid_transport_stm32/src/stm32_serial_transport.cpp:71-107 | that result for a whole activation, exactly when it succeeds and why not, its refusals, and that read-only activation sends nothing; a failed one sends, last of all, DISABLE frames alone, and names no joint exactly when a report showed them all DISABLED; and it leaves the joints settled, or each captured and armed by nothing but itself |
| Stm32Transports.Stm32Transport.ReleaseMotors | src/humanoid_transport_stm32/src/stm32_serial_transport.cpp:775-811 | sends STOP or DISABLE only; confirms exactly when it looked at a report since it began with every joint DISABLED; otherwise names the first joint the last report did not show so, and why it stopped |
| Stm32Transports.Stm32Transport.Deactivate | src/humanoid_transport_stm32/src/stm32_serial_transport.cpp:109-124 | inactive afterwards, having sent STOP frames and then DISABLE frames alone, the first at once; confirmed exactly by a report since it began with every joint DISABLED; otherwise why not |
| Stm32Transports.Stm32Transport.Exchange | src/humanoid_transport_stm32/src/stm32_serial_transport.cpp:150-290 | exactly one frame when active and untroubled, each joint's own request and never RESET; no error exactly when it was written, a newer report came, no restart was noticed, its master was up, no joint is in error, some motor is present and the wire could carry every tuple; each other error exactly for its own cause; feedback untouched on every error, the sequence echoed on success |
| Stm32Transports.Stm32Transport.AwaitNewer | src/humanoid_transport_stm32/src/master_link.cpp:120-148 | waits for a delivered report ahead of the last one read |
| Stm32Transports.Stm32Transport.RequestJointDisable | src/humanoid_transport_stm32/src/stm32_serial_transport.cpp:292-299 | isolates exactly that joint |
| Stm32Transports.Stm32Transport.RequestAllDisable | src/humanoid_transport_stm32/src/stm32_serial_transport.cpp:301-307 | isolates every joint and no more |
| Stm32Transports.Stm32Transport.Serve | src/humanoid_transport_stm32/src/stm32_serial_transport.cpp:109-307 | over any sequence of calls but activation: from a world without RESET every fault that is or is reported stays; every joint launched stays launched, so is never armed again; a read-only session with no ENABLE in flight arms nothing |
| Sessions.Session | src/humanoid_transport_stm32/src/stm32_serial_transport.cpp:71-124 | one session from settled joints: it arms what it captured, arms nothing twice, and if it ends calmly, or its activation fails calmly, leaves every joint settled |
| Sessions.Run | src/humanoid_transport_stm32/src/stm32_serial_transport.cpp:71-124 | any number of sessions, through dead-man trips and failed activations: each is so as long as those before it ended calmly |
| Sessions.HeardOffQuiets | src/humanoid_transport_stm32/src/stm32_serial_transport.cpp:239-247 | any one joint never isolated, armed and then reported DISABLED is enough, even with others in FAULT |
| Sessions.CalmSettles | src/humanoid_transport_stm32/src/stm32_serial_transport.cpp:239-247 | however the session ended, in failure, by the dead-man or by release, a calm end settles every joint for the next |
| SafetyKernels.SafetyKernel.Configure | src/humanoid_safety/src/safety_kernel.cpp:10-27 | succeeds exactly with one envelope per joint within the batch's capacity, and forgets the last command |
| SafetyKernels.SafetyKernel.Project | src/humanoid_safety/src/safety_kernel.cpp:29-91 | accepts unchanged exactly the finite batches within every limit and the slew of the last accepted one; otherwise damps every joint and names the first joint in error and the first limit it breaks |
| SafetyKernels.ApplyDamping | src/humanoid_safety/src/safety_kernel.cpp:93-105 | all five fields of every joint zero, the rest of the batch kept |
| SafetyKernels.SafetyKernel.EnterProtective | src/humanoid_safety/src/safety_kernel.cpp:107-111 | damping with the trigger recorded |
| SafetyKernels.RespectsIsInside | src/humanoid_safety/src/safety_kernel.cpp:51-69 | breaking no limit is being inside them all exactly when no limit is NaN |
| SafetyKernels.TriggerIsFirstBroken | src/humanoid_safety/src/safety_kernel.cpp:46-83 | a joint's trigger names the first limit it breaks, in the order position, velocity, torque, slew, and none exactly when none is broken |
| SafetyKernels.BreaksIs | src/humanoid_safety/src/safety_kernel.cpp:51-82 | breaking each limit, in plain arithmetic on command, envelope and previous command |
| SafetyKernels.SlewBound | src/humanoid_safety/src/safety_kernel.cpp:71-90 | between any two accepted batches torque moves at most the slew limit times the sum of the checked intervals, if all were positive |
| SafetyKernels.NoTimeNoBound | src/humanoid_safety/src/safety_kernel.cpp:75-81 | a check that saw no time pass bounds nothing |
| SafetyKernels.GainsAreNotBounded | src/humanoid_safety/src/safety_kernel.cpp:46-83 | stiffness and damping never change a joint's verdict |
| TupleOwnership.EveryFieldHasAName | src/humanoid_actuator_system/include/humanoid_actuator_system/tuple_ownership.hpp:53-69 | every field of every joint can be named, even with slashes in the joint's name |
| TupleOwnership.CompleteTuples | src/humanoid_actuator_system/include/humanoid_actuator_system/tuple_ownership.hpp:49-86 | succeeds exactly when every name is a field of a joint and every joint named is named with all five, and then gives exactly those joints |
| TupleOwnership.ClaimTuples | src/humanoid_actuator_system/include/humanoid_actuator_system/tuple_ownership.hpp:89-100 | a switch is accepted exactly when both lists are whole tuples |
| TupleOwnership.OwnedAfter | src/humanoid_actuator_system/include/humanoid_actuator_system/tuple_ownership.hpp:104-107 | a hand-over leaves the joint owned, a bare release does not, nothing else moves |
| TupleOwnership.NoClaimIsLost | src/humanoid_actuator_system/src/humanoid_actuator_system.cpp:312-316 | however the threads' loads and exchanges interleave, the mask is the completed switches one after another |
| TupleOwnership.ControllerNeedsTwoOwnedWrites | src/humanoid_actuator_system/include/humanoid_actuator_system/tuple_ownership.hpp:129-143 | over any run of writes: a controller commands exactly when the last two saw every joint owned and none was released after commanding; released is for good |
| CommandTraces.OwnedSinceWithdrawal | src/humanoid_actuator_system/src/humanoid_actuator_system.cpp:151-153 | what is owned is what the switches accepted since the last configuration make of nothing |
| CommandTraces.SequencesIncrease | src/humanoid_actuator_system/src/humanoid_actuator_system.cpp:424-431 | outside protective, sequences sent strictly increase |
| CommandTraces.EveryBatchIsEarned | src/humanoid_actuator_system/src/humanoid_actuator_system.cpp:372-432 | a batch that is not damping was a controller's, finite and within every limit the kernel was then configured with, with claims of accepted switches covering every joint at that write and the one before, and nothing protective up to it in its activation |
| CommandTraces.ProtectiveMeansDamping | src/humanoid_actuator_system/src/humanoid_actuator_system.cpp:389-394 | once a protective batch is sent, only damping is for the rest of the activation |
| CommandTraces.EffortMovesWithin | src/humanoid_safety/src/safety_kernel.cpp:71-90 | between any two of a sequence of commands each checked against the one before, a joint's effort moves by at most its slew limit times the sum of each write's clock less the stamp argument of the write before it, all positive |
| CommandTraces.SameConfigSameLimits | src/humanoid_actuator_system/src/humanoid_actuator_system.cpp:101-158 | limits change only by a configuration |
| ActuatorSystems.ReadTuples | src/humanoid_actuator_system/src/humanoid_actuator_system.cpp:438-450 | each joint's five fields from its own five interfaces, in order |
| ActuatorSystems.StateOf | src/humanoid_actuator_system/src/humanoid_actuator_system.cpp:353-359 | position, velocity and effort of every joint in interface order |
| ActuatorSystems.FailureShowsOnlyInANewSequence | src/humanoid_actuator_system/include/humanoid_actuator_system/feedback_validation.hpp:24-34 | after an answered exchange a failed one is mistaken for an answer exactly when it repeats the sequence |
| ActuatorSystems.FirstStopAtTheLimit | src/humanoid_actuator_system/src/humanoid_actuator_system.cpp:341-347 | the first read to stop the robot is exactly the one that brings the unanswered run to the limit |
| ActuatorSystems.WrappedCountForgives | src/humanoid_actuator_system/src/humanoid_actuator_system.cpp:341-342 | at 256 unanswered reads the count is zero again |
| ActuatorSystems.SendCoherent | src/humanoid_actuator_system/src/humanoid_actuator_system.cpp:424-431 | a write outside protective keeps the log lawful and in order and feedback no newer than its exchange |
| ActuatorSystems.ResendCoherent | src/humanoid_actuator_system/src/humanoid_actuator_system.cpp:389-394 | a protective write sends damping again and keeps the same |
| ActuatorSystems.LawfulIsSlewSafe | src/humanoid_actuator_system/src/humanoid_actuator_system.cpp:396-432 | in every lawful history that bound holds between any two controller batches under one configuration, across activations, with each write's own stamp and clock |
| ActuatorSystems.HumanoidActuatorSystem.PerformModeSwitch | src/humanoid_actuator_system/src/humanoid_actuator_system.cpp:302-318 | accepted exactly for whole tuples, and then exactly those claims applied and recorded |
| ActuatorSystems.HumanoidActuatorSystem.OnConfigure | src/humanoid_actuator_system/src/humanoid_actuator_system.cpp:73-158 | succeeds exactly when manifest, kernel, plug-in, transport and capabilities all do; then no claim survives and the kernel starts afresh with the manifest just read; a failure leaves what it had changed: the limits, and once the plug-in loads the transport |
| ActuatorSystems.HumanoidActuatorSystem.OnActivate | src/humanoid_actuator_system/src/humanoid_actuator_system.cpp:161-182 | leaves protective, begins a run at sequence zero with nothing fresh to accept, and keeps claims |
| ActuatorSystems.HumanoidActuatorSystem.OnDeactivate | src/humanoid_actuator_system/src/humanoid_actuator_system.cpp:184-193 | latches protective with damping, and the transport is deactivated |
| ActuatorSystems.HumanoidActuatorSystem.OnError | src/humanoid_actuator_system/src/humanoid_actuator_system.cpp:203-221 | the same after a failed cycle, with its own trigger |
| ActuatorSystems.HumanoidActuatorSystem.OnShutdown | src/humanoid_actuator_system/src/humanoid_actuator_system.cpp:223-240 | the same, and the transport is dropped |
| ActuatorSystems.HumanoidActuatorSystem.OnCleanup | src/humanoid_actuator_system/src/humanoid_actuator_system.cpp:195-201 | drops the transport and changes nothing else |
| ActuatorSystems.HumanoidActuatorSystem.Read | src/humanoid_actuator_system/src/humanoid_actuator_system.cpp:324-370 | accepts, outside protective, only what the last write's own exchange answered; ERROR exactly at the limit of the unanswered run, which latches protective |
| ActuatorSystems.HumanoidActuatorSystem.ExchangeOnce | src/humanoid_actuator_system/src/humanoid_actuator_system.cpp:465-477 | the snapshot goes out once, and feedback changes only on success |
| ActuatorSystems.HumanoidActuatorSystem.Write | src/humanoid_actuator_system/src/humanoid_actuator_system.cpp:372-432 | ERROR exactly when a controller's batch is refused, which sends nothing, latches and names what was broken; otherwise one batch goes out, the controllers' tuples stamped with this write's stamp, or damping, with a new sequence unless protective |
| ActuatorSystems.HumanoidActuatorSystem.Live | src/humanoid_actuator_system/src/humanoid_actuator_system.cpp:101-432 | over any sequence of calls, with any transport that echoes the sequence on success and leaves feedback alone on failure: in every activation, every batch sent is damping or earned by two fully claimed writes and within limits, and after a protective one only damping follows; and between any two controller batches under one configuration no effort moves faster than its slew limit allows for the time between the writes |
| ActuatorSystems.HumanoidActuatorSystem.EnterProtectiveState | src/humanoid_actuator_system/src/humanoid_actuator_system.cpp:479-484 | zeroes the batch in place and latches |
| EndToEnd.ReportsArrive | src/humanoid_transport_stm32/src/master_link.cpp:227-251 | any number of reports sent back to back are read back by the host as exactly those views, in order |
| EndToEnd.SilenceStopsEveryJoint | src/humanoid_transport_stm32/test/fake_master.cpp:369-403 | the dead-man in terms of the wiring: every wired joint whose chain passes the gate is off within the ramp and stays off until a RESET |
| EndToEnd.ReleaseFrameDisarms | src/humanoid_transport_stm32/src/stm32_serial_transport.cpp:775-839 | one release frame, acted on with the host heard, leaves every wired motor on a matching chain unarmed |
| EndToEnd.IsolationDisarms | src/humanoid_transport_stm32/src/stm32_serial_transport.cpp:172-191 | so does one running frame the motor of every isolated joint, and in a read-only session every motor |
| EndToEnd.StopFrameRamps | src/humanoid_transport_stm32/src/stm32_serial_transport.cpp:775-839 | one stop frame leaves every wired motor at most ramping |
| EndToEnd.ClearFramesRecover | src/humanoid_transport_stm32/src/stm32_serial_transport.cpp:679-709 | two clearing frames end a dead-man trip and bring every wired motor that was in FAULT, with a drive that answers and is clean, back to DISABLED |
| EndToEnd.CommandIsSeen | src/humanoid_transport_stm32/test/fake_master.cpp:438-688 | a controller's command for a running joint, acted on, comes back in the report: ENABLED, the command's own number, and position, velocity and effort within half a unit of what was asked |
| EndToEnd.SessionRearmsAfterSlaveReset | src/humanoid_transport_stm32/src/stm32_serial_transport.cpp:172-191 | running frames as exchanges fill them arm an unisolated joint again when its slave has started again |
| EndToEnd.ExchangeAsOutcome | src/humanoid_transport_stm32/src/stm32_serial_transport.cpp:150-290 | the transport's exchange is what the component supposes of any transport, the sequence echoed on success and the feedback left alone on failure; and it answers exactly when `Exchange` says |
| EndToEnd.PassedIsRepresentable | src/humanoid_safety/src/safety_kernel.cpp:46-83 | behind an accepted envelope a command the kernel passes, with gains within limits, can be sent exactly when it has half an LSB of headroom |
| EndToEnd.UncheckedGainIsNotRepresentable | src/humanoid_safety/src/safety_kernel.cpp:46-83 | a command the kernel passes and the wire cannot carry |

## Left out

- The serial port, event descriptors, polling, threads and condition variables: only their effect, a FIFO channel that may fail or time out and telemetry that may be skipped, is modelled.
- Bytes inside the command payload: the command crosses the channel as a value; telemetry is modelled down to the byte.
- Corruption of a command on the wire: the command is lost whole; a corruption the checksum misses is not modelled.
- A robot with two chains of one id, or more chains or motors than a frame holds: excluded wherever a report is read.
- The firmware's literal checksum table: taken to be the table `MakeTable` builds.
- ProtoBuild: the memory behind the buffer must hold what is copied even when the 16-bit total has wrapped; a smaller buffer is not modelled.
- Parameters, plug-in loading, YAML, launch files, logging and text: plumbing; the conditions the manifest checks establish are preconditions of the transport's constructor and of `OnConfigure`.
- The handshake and discovery checks of `configure` and `parse_master_status`: they gate the start and change no later state.
- The simulation transport, the IMU, placement and the Python nodes: physics and numeric code outside this path.
- Master restart and per-chain silent cycles of the fake master: restart appears only as counters going back. A slave that starts again is an event of its own.
- IEEE rounding and the single-precision narrowing: arithmetic is exact, with the non-finite cases kept.
- Weak memory orders: steps are atomic and sequentially consistent.
- Wall-clock deadlines: a number of attempts, given as an argument.
- JointMask: a set of joint indices instead of 32 bits; exchange statistics and health snapshots are not kept.
- Activate: its arming result supposes that no ENABLE of an earlier session is in flight or took effect after the oldest undelivered report; without that it is false (`OldEnableLooksLikeThisOne`).
- LaunchedNeverRearms: says nothing of a motor whose slave has started again, or of which a fault without a cause was reported: there it is false (`SlaveResetRearms`, `SpuriousFaultRearms`).
- Session: promises nothing for the activation after one that failed while arming with no joint ever reported armed: its ENABLE may still be in flight, and then `OldEnableLooksLikeThisOne` applies.
- Judge: one loop shared by the two arming judgements, which differ in the target state and in whether a fault waits for the grace.
