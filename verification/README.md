# A model of the W5500 MACRAW driver

The driver moves Ethernet frames between an ESP32 network stack and a WIZnet W5500 in MACRAW
mode, over SPI and one interrupt line. Its correctness lies in how sequences of transactions meet
a chip that changes on its own. This project models both, and proves what the driver is for:
every frame reaches the stack exactly once and in order, no wake-up is lost, and every send puts
exactly its own frame on the wire.

## How it is built

The modules follow the source.

- `Words`, `Flags`, `Ring`: machine words, the interrupt flag registers, and the two 16 KB rings
  with their 16-bit pointers. Behind the pointers stand unbounded positions, so that every wrap is
  accounted for.
- `W5500`: the registers of socket 0 and the events by which the chip moves: a frame arrives, a
  segment leaves, other flags are raised, a pending command is accepted. Any number of events
  happen before a transaction takes effect, and between the two bytes of a 16-bit read.
- `Spi`, `Regs`, `Mac`, `Drain`, `Driver`, `Transmission`, `BringUp`, `Phy`, `Lifecycle`, `RxTask`:
  the driver's functions as methods over the chip, each proved against what it promises while the
  chip interferes.
- `Machine`: the RX task, a sending task, the link poll, the pin with its handler and the chip as
  one machine taking one transaction, pin sample or notification at a time. `LinkUp`, `Wakeup`,
  `Interleaving`, `Sending`, `Delivery`, `OutOfStep`, `Serial` and `Overlap` are about all its runs,
  and `Progress` is about what its parts get done.
- `Tasks`: starts and stops of the RX task, one GPIO call or field access at a time.

The chip's behaviour is the one of the WIZnet W5500 datasheet: SPI frames (section 2.2) and
registers (section 4). Socket 0 owns both 16 KB rings. A record is a big-endian length that counts
its own two bytes, then the frame, and becomes visible in Sn_RX_RSR as a whole. Sn_IR flags are
cleared by writing ones. INTn follows SIR and SIMR at some later time. Sn_CR reads 0 once a command
has been accepted. A 16-bit read takes its high byte and its low byte at different instants.
The comment at `components/w5500_driver/w5500_mac.c:598-602` says that the length field is the
length of the frame behind it; the code treats it as counting itself, and the model follows the
code.

Outside the model, and therefore arbitrary in it: when and how often transactions fail, whether
`malloc` and the GPIO and notification calls succeed, what the pin is sampled as, what the PHY
reports, what the mediator answers, when another task clears `started`. Events, failures,
refusals and stops are drawn from budgets of any size, one for each, so that a contract can say what
a call does when none of them happens, and what uses them up. Whether a command is carried out by
the next transaction is a property of the chip (`prompt`); on one that need not be, it may take any
time. The clock advances by any amount up to a bound, and may stand still finitely often.

A command written to Sn_CR replaces one that is still pending there; this, too, is an assumption,
the datasheet leaving it open.

## The main results

- `Delivery.EveryFrameIsDelivered` composes the parts, from power-up on. It rests on
  `Wakeup.NoLostWakeup`, `LinkUp.LinkUpIsReady`, `Interleaving.SessionInOrder`, and on the RX
  task's run by itself. `Progress.LinkComesUp`, `Progress.FramesGetThrough` and
  `Progress.SendComesToItsEnd` say that the link, frames and sends get where they are to get.
- `Sending.BothSidesExact`, `Serial.SerialEquivalent` and `Overlap.SerialWithoutClashes` are about
  the RX task and a sending task sharing the chip.
- `Transmission.RunIsExact` says when a run of sends puts exactly its frames into the chip.
- `Drain.DrainRx`, `RxTask.Task`, `Driver.ServiceInterrupts`, `Transmission.SendRawFrame`,
  `Regs.ReadStable`, `Regs.WaitForCommand` and `Phy.EthPhy.GetLink` are the driver's functions
  under interference; each fails only for a cause that its contract names.

## What does not hold, and exactly when

- Wake-ups. A sleeping RX task has an edge due exactly if RECV is set and the pin is high
  (`Wakeup.NoLostWakeup`). A pass that fails with RECV set and the pin low leaves it deaf: frames
  may arrive, but no edge can come (`Wakeup.FailureExact`, `Wakeup.FirstFailureDeafens`); only a
  send that finds RECV set notifies it (`Wakeup.DeafExactly`), and the next send does
  (`Progress.SendWakesDeaf`). A pass that fails after clearing RECV leaves what is in the ring until
  the next arrival, or until a send that had seen RECV before notifies the RX task
  (`Wakeup.StrandedExactly`). A link-up before the RX task has registered leaves it to the state of
  RECV and the pin at registration (`Wakeup.UnregisteredExact`).
- Receiving. A failure of the RX task between the write of Sn_RX_RD and the end of RECV loses a
  frame, and no other failure does (`Interleaving.FaultExact`). That frame is never offered; what
  follows it is, in order, if RECV was issued (`Interleaving.WaitFaultLoses`) or another record was
  in the ring (`Interleaving.CommandFaultLoses`). Otherwise the next pass goes by a register that is
  ahead of the ring: it fails, or offers stale bytes (`OutOfStep.PassOffers`, `OutOfStep.PassFails`,
  `OutOfStep.OneRecordIsStale`).
- Sending. A send that fails between the write of Sn_TX_WR and the end of SEND is reported as
  failed, yet its bytes leave: in a segment of their own if the chip has taken them or takes them
  later, otherwise together with the next frame. Exactly then the segments are not the frames of
  the successful sends (`Transmission.RunIsExact`, `Sending.FaultExact`).
- Sharing. A command written while the other task's is pending replaces it. A RECV is lost that way,
  and so is a SEND, whose caller is told ESP_OK (`Serial.SendOverPending`, `Serial.RecvOverPending`,
  `Serial.LateSendIsLost`). Without such a write the interleaving does no harm, however long the
  chip takes (`Overlap.SerialWithoutClashes`). The driver takes no lock around a command and its
  wait.
- Re-opening. An OPEN does the RX task no harm, whatever happens next, if it does not catch it from
  the last byte of the count read for a record to the write of Sn_RX_RD
  (`Interleaving.SessionInOrder`; an old frame in hand is still offered). If it does, the RX task, left alone, writes an old pointer
  into Sn_RX_RD, or happens not to: it is in place for the new session exactly if it leaves 0 there
  (`OutOfStep.OpenExactly`). A send that OPEN catches with a write pointer of the old session, or
  behind its commit, is not accounted for (`Sending.OpenSends`); behind its commit it returns ESP_OK
  with its frame lost (`Sending.OpenMisreports`).
- The service loop spins for as long as a reserved flag or another socket's bit is set and RECV is
  not (`Driver.ServiceHalts`).
- A stable read of Sn_RX_RSR can be wrong exactly while RECV or OPEN is pending; one of Sn_TX_FSR
  never is (`Regs.ReadsTrueExactly`, with `Regs.RecvMisleads` and `Regs.OpenMisleads`).
- A link sample in a forced mode overwrites the stored speed and duplex that the chip was told
  (`Phy.KeepsIsExact`, `Phy.ForcedModeIsForgotten`).
- A stop and a start in quick succession leave the RX task without its pin interrupt exactly if they
  find it in its loops, and leave no task at all exactly if they find it past them
  (`Tasks.RestartIsDeaf`, `Tasks.RestartIsLost`); two failing GPIO calls leave a handle to a deleted
  task (`Tasks.HandleExact`).
- The command wait needs its polling gaps to stay below 2^32 ticks less the timeout
  (`Regs.PollsForever`).
- A record of a frame that is not 60 to 1600 bytes long is never passed, and nothing behind it is
  delivered (`Mac.MalformedStays`, `Drain.DrainRx`, `Interleaving.DeliversInOrder`).

## Model

| member | source | states |
|---|---|---|
| `Spi.ControlRoundTrip` | components/w5500_driver/w5500_spi.c:15-17 | decoding a control byte gives back the direction and the variable-length mode always, and the block exactly if it has five bits |
| `Spi.BlocksDistinct` | components/w5500_driver/w5500_driver_priv.h:32-36 | for all eight sockets the register, TX and RX blocks are pairwise different, none is the common block, and all fit the control byte |
| `Spi.BurstReadIsRing` | components/w5500_driver/w5500_spi.c:148-162 | a byte-by-byte read burst of any length from any 16-bit address equals the index-mod-16384 ring read, across both wraps |
| `Spi.BurstWriteIsRing` | components/w5500_driver/w5500_spi.c:198-212 | the same for a write burst; one longer than the ring leaves its last 16384 bytes |
| `Spi.Device.Transmit` | components/w5500_driver/w5500_spi.c:206-212 | what the addressed chip does with one frame, going by the three header bytes alone |
| `Spi.SpiWrite` | components/w5500_driver/w5500_spi.c:171-218 | success, which is had exactly if nothing fails, writes the ring bytes meant, in the block named and in no other; any failure leaves every block alone |
| `Spi.SpiRead` | components/w5500_driver/w5500_spi.c:118-169 | success, had exactly if nothing fails, fills the requested prefix of the buffer with the ring bytes; failure leaves the buffer alone; the chip is never changed |
| `Spi.WriteThenRead16` | components/w5500_driver/w5500_regs.c:13-43 | a 16-bit register value written and read back is the same value, from any address of any block |
| `Flags.ByteLayout` | components/w5500_driver/w5500_driver_priv.h:66-78 | the flag records are the register bytes: clearing is `x & ~mask`, each named flag is its bit, and no flag set is the byte 0 |
| `Ring.RecordsOfFrames` | components/w5500_driver/w5500_mac.c:598-623 | the records the parser accepts are exactly those of frames of 60 to 1600 bytes, the length field counting its own two bytes |
| `Ring.RsrIsPointerDistance` | components/w5500_driver/w5500_mac.c:637-639 | Sn_RX_RSR is the 16-bit distance of the chip's pointers; the register Sn_RX_RD plus Sn_RX_RSR, mod 65536, is the chip's write pointer exactly while the register is where the chip reads |
| `Ring.CommitKeeps` | components/w5500_driver/w5500_mac.c:637-656 | RECV removes exactly the bytes Sn_RX_RD was moved over, across the mod-65536 wrap |
| `Ring.ReadLive` | components/w5500_driver/w5500_regs.c:45-48 | bytes behind the read pointer are read from a 16-bit offset that may wrap at 65536 and at 16384 |
| `Ring.FsrIsPointerDistance` | components/w5500_driver/w5500_driver.c:426-433 | Sn_TX_FSR is the ring size less the 16-bit pointer distance |
| `Ring.FillKeeps` | components/w5500_driver/w5500_driver.c:440-443 | a write of at most the free size at Sn_TX_WR overlaps nothing accepted or staged |
| `Ring.SetTxWrKeeps` | components/w5500_driver/w5500_driver.c:445-450 | moving Sn_TX_WR over free bytes stages exactly those bytes |
| `Ring.AcceptSendKeeps` | components/w5500_driver/w5500_driver.c:452-457 | SEND takes the staged bytes as one segment and keeps every earlier one intact |
| `Ring.WireIsOutbox` | components/w5500_driver/w5500_driver.c:426-460 | what the chip has sent, read from its memory at the time of sending, is a prefix of what it accepted |
| `W5500.AcceptedValid` | components/w5500_driver/w5500_driver_priv.h:61-64 | accepting any command keeps both ring halves valid |
| `W5500.Chip.Poll` | components/w5500_driver/w5500_spi.c:118-169 | one transaction: any chip activity first, a pending command being carried out by then if the chip is prompt; it fails with one of the bus errors exactly if it uses up one of the failures to come |
| `Regs.TornReadExact` | components/w5500_driver/w5500_regs.c:199-227 | two equal torn reads of a register that does not decrease give its true value at the first low byte |
| `Regs.SingleReadTears` | components/w5500_driver/w5500_regs.c:13-28 | one torn read can return 0 for a count that never was 0 |
| `Regs.ReadsTrueExactly` | components/w5500_driver/w5500_regs.c:199-227 | two agreeing reads show the true value over everything the chip can do exactly if no command is pending that lowers the count: RECV and OPEN for Sn_RX_RSR, none for Sn_TX_FSR |
| `Regs.RecvMisleads` | components/w5500_driver/w5500_regs.c:199-227 | a chip with a RECV pending, and a course of events on it, for which two agreeing reads are wrong |
| `Regs.OpenMisleads` | components/w5500_driver/w5500_regs.c:199-227 | the same for a pending OPEN |
| `Regs.ReadStable` | components/w5500_driver/w5500_regs.c:199-256 | a returned value is the register's true value at an instant of the call, unless the register is Sn_RX_RSR and a RECV or OPEN is pending; the loop gives up only for a failed transaction or after the chip has moved eight times |
| `Regs.ValueGrows` | components/w5500_driver/w5500_regs.c:199-256 | Sn_TX_FSR never goes down by itself, and Sn_RX_RSR does not unless RECV or OPEN is pending |
| `Regs.WaitForCommand` | components/w5500_driver/w5500_regs.c:166-187 | OK means Sn_CR was 0; without a failed transaction it gives up only on a command that is still pending after at least the given real ticks, across the tick wrap, and never on a prompt chip; the loop ends on every clock with bounded gaps |
| `Regs.ElapsedIsReal` | components/w5500_driver/w5500_regs.c:181-183 | the wrapped tick difference never exceeds the real one and equals it below one wrap |
| `Regs.PollsForever` | components/w5500_driver/w5500_regs.c:181-183 | the gap bound is exact: one tick more and a clock that always advances can hide the timeout for ever |
| `Mac.ParseWellFormed` | components/w5500_driver/w5500_mac.c:576-628 | a well-formed record is recognised whatever follows it; without room for it the reported length makes the retry return that frame |
| `Mac.ParseStable` | components/w5500_driver/w5500_mac.c:576-628 | later arrivals do not change the outcome of a parse that found a record |
| `Mac.ParseAccepts` | components/w5500_driver/w5500_mac.c:603-628 | what is accepted is exactly a well-formed record at the front with room for its frame |
| `Mac.MalformedStays` | components/w5500_driver/w5500_mac.c:603-623 | a front record stays an error, whatever arrives behind it, exactly if its length field is one that no frame has |
| `Mac.ReceiveTwice` | components/w5500_driver/w5500_mac.c:548-662 | a call that fails with INVALID_SIZE takes nothing; a second one with the reported length, whatever has arrived before and during it, returns exactly the frame the first one found and takes that; either fails for a failed transaction, a RECV not carried out in time or eight disturbances, and for nothing else |
| `Mac.RecvConsumes` | components/w5500_driver/w5500_mac.c:637-656 | moving Sn_RX_RD and RECV together take exactly the front record, whatever arrives between the writes and the acceptance |
| `Mac.ReadRxBuffer` | components/w5500_driver/w5500_regs.c:45-48 | the bytes read are those the ring held at an earlier instant, since nothing overwrites them |
| `Mac.FinishRecord` | components/w5500_driver/w5500_mac.c:637-658 | success releases exactly the record; a failure before the pointer write is that of a transaction and releases nothing; one behind it is that of a transaction too, or RECV is still pending after its time, and leaves the register moved over exactly that record |
| `Mac.Receive` | components/w5500_driver/w5500_mac.c:548-662 | all or nothing up to the Sn_RX_RD write; success copies the frame the ring held at one instant of the call and removes that record; a frame at the front that fits is returned, whatever arrives, unless a transaction fails, RECV is not carried out in time or the chip moves eight times; every other verdict is the parser's, or a closed socket; what a later failure leaves is stated; set-up and masks are untouched |
| `Drain.FrontRecord` | components/w5500_driver/w5500_mac.c:128-137 | at a record boundary the ring is empty exactly if all stored records were taken, and otherwise begins with the next one, whatever its size |
| `Drain.ParseFront` | components/w5500_driver/w5500_mac.c:139-147 | at a record boundary the parser finds the next frame, an empty ring, or a record of a frame that is not 60 to 1600 bytes long, and nothing else |
| `Drain.ConsumedAligned` | components/w5500_driver/w5500_mac.c:637-656 | releasing the front record ends at the next boundary and lowers the bytes still to come by at least 62 |
| `Drain.DrainOne` | components/w5500_driver/w5500_mac.c:139-167 | one frame handed over, byte for byte, or an error with nothing handed over; an error has an excuse in the socket, a transaction, the allocator, a late RECV or eight disturbances, or is InvalidResponse, which comes exactly from a record that is too short or too long |
| `Drain.DrainRx` | components/w5500_driver/w5500_mac.c:122-170 | exactly-once FIFO delivery under concurrent arrivals of frames of any size, accepted or not; at OK with `started` still set, every frame stored before the call and every one present at the instant the ring was seen empty has been handed over; an error has an excuse, or the drain stands at a record that is not accepted, all before it handed over; a frame is lost only to a failed transaction or a RECV that stays pending; `started` changes only by a stop |
| `Driver.UpdateTxCompletion` | components/w5500_driver/w5500_driver.c:528-557 | clears no flag but SEND_OK and TIMEOUT, and on a quiet chip exactly those; a TIMEOUT that was set is not overlooked; RECV read as set means one look at the pin and a notification if it is low |
| `Driver.HandleSocket0Ir` | components/w5500_driver/w5500_driver.c:302-338 | clears no flag but those of completion and, of the others, those it was called for; on a quiet chip exactly the defined ones except RECV; an error is that of a transaction |
| `Driver.HandlingClears` | components/w5500_driver/w5500_driver.c:302-338 | what is cleared on a quiet chip is the mask 0x1F less RECV |
| `Driver.PassDrops` | components/w5500_driver/w5500_driver.c:340-398 | a pass that does not return has removed at least one flag |
| `Driver.ServicePass` | components/w5500_driver/w5500_driver.c:342-397 | one pass of the loop: undisturbed, it is the quiet pass on the flags; disturbed, it used up an event or a failure; RECV survives |
| `Driver.ServiceInterrupts` | components/w5500_driver/w5500_driver.c:340-398 | the loop ends under interfering chip events and failures; OK means RECV was read set, or Sn_IR was read 0, or IR and SIR were both read 0, and an error is that of a transaction; on a quiet chip the flags are left as the passes of the specification leave them |
| `Driver.ServiceHalts` | components/w5500_driver/w5500_driver.c:340-398 | on a quiet chip the loop returns, within three passes, exactly if no reserved flag and no other socket keeps it spinning |
| `Driver.Context.NotifyIfPending` | components/w5500_driver/w5500_driver.c:559-576 | with a pin and a registered task the level is sampled once, and a notification is given exactly if it is low |
| `Transmission.WriteTxBuffer` | components/w5500_driver/w5500_regs.c:50-57 | a burst into free space, even one that breaks off, leaves everything accepted and staged as it was |
| `Transmission.CommitFrame` | components/w5500_driver/w5500_driver.c:445-460 | after the Sn_TX_WR write the frame is staged behind what was staged, and OK means the chip has taken it; it fails for a failed transaction, or because SEND, issued, is still pending after its time |
| `Transmission.SendRawFrame` | components/w5500_driver/w5500_driver.c:400-463 | OK: one segment, the staged bytes and the frame, was taken, and the room check held at an instant of the call; on an open socket with room it is OK unless a transaction fails, SEND is not carried out in time or the chip moves eight times; every other failure is a closed socket or no room, and leaves the unsent region unchanged; RECV is never cleared |
| `Transmission.SendIsACall` | components/w5500_driver/w5500_driver.c:400-463 | every call ends in one of four ways: refused before the commit, taken, or failed behind the commit with the frame taken or staged |
| `Transmission.RunIsExact` | components/w5500_driver/w5500_driver.c:400-463 | over any run of sends, with receiving and other chip activity between them: the segments are exactly the frames of the calls that returned ESP_OK, one each and in order, with nothing under way, if and only if no call failed after its commit |
| `Transmission.WireIsSent` | components/w5500_driver/w5500_driver.c:400-463 | and then the bytes on the wire are a prefix of those frames |
| `BringUp.OpenMacraw` | components/w5500_driver/w5500_driver.c:465-526 | success leaves socket 0 open in MACRAW mode with 16 KB of both rings, 0 KB elsewhere, both rings restarted at zero and empty at an instant of the call, with the next session's records to come; it fails exactly for a failed transaction or a command waited for in full, so never on a prompt chip without failures |
| `BringUp.SizeBuffers` | components/w5500_driver/w5500_driver.c:485-497 | the loop over the sockets gives socket 0 sixteen KB and the others none |
| `BringUp.EnableInterrupts` | components/w5500_driver/w5500_driver.c:253-290 | succeeds exactly if no transaction fails; success leaves exactly RECV unmasked; all flags were clear at one instant, a frame after it has RECV set, and on a quiet chip all flags are clear afterwards |
| `BringUp.SetupStays` | components/w5500_driver/w5500_driver.c:253-290 | open and unmasked stay so whatever the chip does by itself and whatever is sent and received |
| `Phy.AppliedAgrees` | components/w5500_driver/w5500_phy.c:102-144 | the three writes leave PHYCFGR out of reset, OPMD set, with an OPMDC that decodes to the stored mode |
| `Phy.ReportRead` | components/w5500_driver/w5500_phy.c:487-503 | the link, speed and duplex bits are found in PHYCFGR whatever its writable bits are |
| `Phy.ModesAskedFor` | components/w5500_driver/w5500_phy.c:190-275 | initialisation and enabled auto-negotiation ask for auto-negotiation, disabling it for the stored mode, no power for power-down |
| `Phy.KeepsIsExact` | components/w5500_driver/w5500_phy.c:190-462 | a successful call keeps chip and driver in agreement exactly if it is not a forced-mode link sample reading another speed or duplex |
| `Phy.AgreementRun` | components/w5500_driver/w5500_phy.c:190-462 | agreement over every sequence of calls that keep it |
| `Phy.ForcedModeIsForgotten` | components/w5500_driver/w5500_phy.c:360-361 | the exception happens: forced 100 Mbit/s full duplex, a pulled cable, and a power cycle give 10 Mbit/s half duplex |
| `Phy.EthPhy.ApplyMode` | components/w5500_driver/w5500_phy.c:96-147 | succeeds exactly if no write fails; success is the applied mode after one reset pulse; no stored field changes either way |
| `Phy.EthPhy.Initialize` | components/w5500_driver/w5500_phy.c:190-205 | the initial stored state, applied to the chip on success |
| `Phy.EthPhy.AutonegoCtrl` | components/w5500_driver/w5500_phy.c:217-275 | the four commands, the flag reported and the mode applied |
| `Phy.EthPhy.Pwrctl` | components/w5500_driver/w5500_phy.c:380-389 | power stored, and applied on success |
| `Phy.EthPhy.ChooseSpeed` | components/w5500_driver/w5500_phy.c:432-446 | speed stored, and applied only in a forced, powered mode |
| `Phy.EthPhy.ChooseDuplex` | components/w5500_driver/w5500_phy.c:448-462 | duplex stored, and applied only in a forced, powered mode |
| `Phy.EthPhy.BringLinkUp` | components/w5500_driver/w5500_phy.c:322-348 | the link counts as up and is announced only after socket and interrupt are set up and a registered task was notified; it stays down only for a failed transaction or a late command, and an error with it up is the mediator's |
| `Phy.EthPhy.GetLink` | components/w5500_driver/w5500_phy.c:277-365 | for every report, failure and callback result: link announcements alternate starting with UP, stored UP implies open socket and unmasked RECV; an OK call has stored exactly what the PHY reports and announced exactly its changes; a failed read changes nothing; any other error is the mediator's, or the set-up failed and the link is down |
| `Phy.EthPhy.TrafficKeepsLinkSafe` | components/w5500_driver/w5500_phy.c:301-362 | the safety that GetLink keeps is kept by the traffic between two samples |
| `LinkUp.LinkUpIsReady` | components/w5500_driver/w5500_phy.c:301-362 | over every run of link polls with failures, losses and traffic between them: link up implies socket 0 open in MACRAW mode with 16 KB and 0 KB buffers and exactly RECV unmasked |
| `Lifecycle.RegisterInterruptTask` | components/w5500_driver/w5500_driver.c:152-211 | succeeds if no GPIO call fails; what each exit leaves of handle, handler and pin interrupt; the one exit that leaves a dangling handle; one look at the pin after success |
| `Lifecycle.UnregisterInterruptTask` | components/w5500_driver/w5500_driver.c:213-231 | all or nothing, and everything exactly if the GPIO call succeeds |
| `Lifecycle.StartRxTask` | components/w5500_driver/w5500_mac.c:188-217 | a task is created only if there is none; afterwards `started` and the handle agree with the result |
| `Lifecycle.Stop` | components/w5500_driver/w5500_mac.c:264-284 | clears `started`, disables the pin interrupt unless that call fails, and notifies a task that exists |
| `RxTask.ClearRecvEventIfSet` | components/w5500_driver/w5500_mac.c:172-186 | success means RECV was clear at an instant of the call and only chip events followed; on a quiet chip exactly RECV is cleared |
| `RxTask.Pass` | components/w5500_driver/w5500_mac.c:520-539 | a pass that reaches the level check has handed over every record stored before it, and every other one, or RECV is set again; on a quiet chip RECV is clear; it breaks off only with an excuse or at a record that is not accepted |
| `RxTask.Wake` | components/w5500_driver/w5500_mac.c:520-539 | with the MAC still started at least one pass was made, and the last one went through or broke off for a cause; after one that went through, the loop is left only with the pin seen high |
| `RxTask.Task` | components/w5500_driver/w5500_mac.c:496-545 | over the life of the RX task the stack gets exactly the next records in order; a task that was woken and blocks again has taken every record there was when it began, and every other one, or RECV is set, or its last pass broke off for a cause; it fails to register only for a GPIO failure; registered while it lives, and unregistered after a stop unless a GPIO call failed |
| `Tasks.OneConsumer` | components/w5500_driver/w5500_mac.c:188-217 | over all starts and stops, in every interleaving with the tasks' exits, at most one RX task can touch the ring |
| `Tasks.OneOwnerKept` | components/w5500_driver/w5500_mac.c:496-545 | every live task is the one rx_task_handle names, at every step |
| `Tasks.HandleExact` | components/w5500_driver/w5500_driver.c:152-231 | a step keeps the interrupt handle NULL or naming the live task exactly if it is not one of two GPIO failures |
| `Tasks.HandleRun` | components/w5500_driver/w5500_driver.c:152-231 | so it holds over every run without those two |
| `Tasks.HandleDangles` | components/w5500_driver/w5500_driver.c:192-222 | each of the two ends with a deleted task still named by the handle |
| `Tasks.StartExactly` | components/w5500_driver/w5500_mac.c:188-217 | a start that finds no task creates one, and left alone it gets into its loops with handle, handler and pin interrupt set up exactly if none of the GPIO calls that count fails |
| `Tasks.StopExactly` | components/w5500_driver/w5500_mac.c:264-284 | a stop ends the task and clears its handle; handler, pin interrupt and interrupt handle go with it exactly if the task's own GPIO call succeeds |
| `Tasks.RestartIsDeaf` | components/w5500_driver/w5500_mac.c:264-284 | a stop and a start leave the RX task running with its pin interrupt disabled exactly if they find it in its loops and the stop's GPIO call succeeds or the interrupt was disabled before; it then stays so |
| `Tasks.RestartIsLost` | components/w5500_driver/w5500_mac.c:188-202 | a start ends with `started` set and no task exactly if it finds the old one anywhere past its loops, whatever the remaining GPIO calls return |
| `Tasks.RestartIsUndone` | components/w5500_driver/w5500_mac.c:501-506 | a start that finds a task whose registration has failed is taken back by that task |
| `Wakeup.StepKeeps` | components/w5500_driver/w5500_mac.c:509-540 | every step of every task, of the chip and of the pin keeps the wake-up invariant |
| `Wakeup.NoLostWakeup` | components/w5500_driver/w5500_mac.c:509-540 | in every interleaving, with the link up and the RX task asleep: an edge that wakes it is due exactly if RECV is set and the pin is high; with the RX task registered at link-up and its last pass without error, that is so whenever frames are in the ring |
| `Wakeup.WokenExactly` | components/w5500_driver/w5500_driver.c:17-30 | a sleeping RX task is notified by the falling edge, by a send that finds RECV set and the pin low, and by a link-up, and by nothing else |
| `Wakeup.GiveKeeps` | components/w5500_driver/w5500_phy.c:337-341 | the unconditional notification covers what was in the ring when RECV was wiped |
| `Wakeup.RecvIsConserved` | components/w5500_driver/w5500_driver.c:302-338 | RECV is cleared only by the RX task in its last step before a drain, and by a link-up |
| `Wakeup.FailureStrands` | components/w5500_driver/w5500_mac.c:531-534 | a failure inside a drain strands what is in the ring if nothing arrived since the clear |
| `Wakeup.FailureExact` | components/w5500_driver/w5500_mac.c:520-534 | a pass that breaks off anywhere leaves an edge due exactly if RECV is set and the pin is high; else the RX task is deaf (RECV set, pin low) or stranded (RECV clear, frames in the ring) |
| `Wakeup.FirstFailureDeafens` | components/w5500_driver/w5500_mac.c:520-524 | a frame arrives for a sleeping RX task, the pin falls, and the pass fails at its first transaction: it is deaf, with the frame in the ring |
| `Wakeup.DeafExactly` | components/w5500_driver/w5500_driver.c:17-30 | arrivals, other flags, the pin and the RX task leave a deaf task deaf; it hears again exactly when a send notifies it |
| `Wakeup.StrandedExactly` | components/w5500_driver/w5500_driver.c:537-539 | a stranded task stays so under every step but the chip's, unless a send that had read RECV before notifies it |
| `Wakeup.UnregisteredExact` | components/w5500_driver/w5500_driver.c:152-211 | in every run, a registration that ends after a link-up: with the pin low the RX task is notified; with the pin high an edge is due exactly if RECV is set |
| `Interleaving.StableAdvances` | components/w5500_driver/w5500_regs.c:199-256 | each byte of a stable read keeps what has been read consistent with the register's growth |
| `Interleaving.StepFollows` | components/w5500_driver/w5500_mac.c:576-656 | whatever acts next, the RX task is where it is for exactly the records offered so far; all of the link poll but OPEN is among it |
| `Interleaving.FaultExact` | components/w5500_driver/w5500_mac.c:639-658 | a failure of the RX task keeps that exactly if it does not come between the Sn_RX_RD write and the end of RECV |
| `Interleaving.WaitFaultLoses` | components/w5500_driver/w5500_mac.c:652-658 | a failure in the wait for RECV: the record is never offered, and in every interleaving all that follows is, once each and in order |
| `Interleaving.CommandFaultLoses` | components/w5500_driver/w5500_mac.c:646-658 | a failure before RECV with another record in the ring: in every interleaving the record is never offered, and the next one and all that follow are, once each and in order |
| `Interleaving.OpenFollows` | components/w5500_driver/w5500_driver.c:504-512 | after OPEN the RX task is in place for the new session, or has only an old frame to hand over first, exactly if OPEN finds it without a count, pointer or length that it still goes by |
| `Interleaving.SessionInOrder` | components/w5500_driver/w5500_driver.c:504-512 | in every interleaving after such an OPEN the stack is given the old frame in hand, if any, and then the records of the new session, once each and in order |
| `OutOfStep.OpenExactly` | components/w5500_driver/w5500_driver.c:504-512 | an RX task that is left alone after an OPEN, wherever it is: what it offers and where it leaves Sn_RX_RD, and it is in place for the new session exactly if it leaves 0 there |
| `Interleaving.DeliversInOrder` | components/w5500_driver/w5500_mac.c:122-170 | exactly-once FIFO delivery, and of no frame that is not 60 to 1600 bytes long, over every interleaving with a sending task, arrivals, the pin, the link poll between two OPENs, and all failures but those of FaultExact |
| `Sending.BothSidesExact` | components/w5500_driver/w5500_driver.c:400-463 | in every interleaving both sides stay exact at once: records delivered, segments accepted, wire a prefix of them, and no write overruns free space |
| `Sending.FaultExact` | components/w5500_driver/w5500_driver.c:447-460 | a failing send stays accounted for exactly if it does not fail between the Sn_TX_WR write and the end of SEND |
| `Sending.OpenSends` | components/w5500_driver/w5500_driver.c:504-512 | OPEN starts the account of segments again, with a send that is under way accounted for, exactly if that send is not behind its commit and holds no write pointer but 0 |
| `Sending.OpenMisreports` | components/w5500_driver/w5500_driver.c:452-462 | behind its commit the send returns ESP_OK with its frame lost |
| `Delivery.ServeSolo` | components/w5500_driver/w5500_driver.c:340-398 | left alone, the interrupt service ends, with RECV set, or no flag in Sn_IR, or nothing in IR and SIR; RECV is kept |
| `Delivery.DrainSolo` | components/w5500_driver/w5500_mac.c:122-170 | left alone, the drain ends at the level check with the ring empty and everything in it offered, or with an error at a record that is not accepted |
| `Delivery.PassEnds` | components/w5500_driver/w5500_mac.c:520-539 | a woken RX task that is left alone, the pin being high, ends up waiting again with RECV clear, the ring empty and everything offered, or with an error at a record that is not accepted |
| `Delivery.EveryFrameIsDelivered` | components/w5500_driver/w5500_mac.c:509-540 | the parts composed, from power-up through link-up and traffic: a frame wiped of its RECV flag by the link-up is delivered by its notification; a waiting RX task with a notification or an edge due brings every record stored since OPEN to the stack, once each and in order, up to one that is not accepted; and an edge is due whenever frames are in the ring, unless the RX task was unregistered at link-up or failed |
| `Progress.LinkComesUp` | components/w5500_driver/w5500_phy.c:321-348 | a link poll left alone on a prompt chip brings the link up, with the socket open, RECV unmasked, both rings restarted and a registered RX task notified |
| `Progress.RxRegisters` | components/w5500_driver/w5500_mac.c:501-506 | an RX task left alone registers and waits, with a notification if the pin is low |
| `Progress.FramesGetThrough` | components/w5500_driver/w5500_mac.c:509-540 | from power-up there is a run in which the link comes up and any number of frames that the ring holds arrive, and the notification of the link-up brings all of them to the stack |
| `Progress.SendComesToItsEnd` | components/w5500_driver/w5500_driver.c:400-463 | a send left alone on a prompt chip returns ESP_OK exactly if the frame is not empty, the socket is open and the frame fits, and then the chip has accepted exactly the frame; otherwise the error that belongs to the cause, with nothing accepted |
| `Progress.SendWakesDeaf` | components/w5500_driver/w5500_driver.c:528-557 | a send that is called while the RX task is deaf notifies it |
| `OutOfStep.PassOffers` | components/w5500_driver/w5500_mac.c:586-656 | with Sn_RX_RD out of step a pass takes whatever looks like a header there for one and offers what is behind it |
| `OutOfStep.PassFails` | components/w5500_driver/w5500_mac.c:603-623 | and finding none it ends with an error and has changed nothing |
| `OutOfStep.OneRecordIsStale` | components/w5500_driver/w5500_mac.c:586-623 | after a failure before RECV with a single record in the ring those bytes lie behind the chip's write pointer |
| `Serial.RxProjection` | components/w5500_driver/w5500_mac.c:520-539 | the receive side of an interleaving is a run of the drain among arrivals only |
| `Serial.TxProjection` | components/w5500_driver/w5500_driver.c:411-460 | the transmit side is a run of the send among departures only |
| `Serial.SerialEquivalent` | components/w5500_driver/w5500_mac.c:520-539 | one pass and one send, interleaved at will on a prompt chip, equal a serial run: same frames, segments, pointers, memories and outcomes |
| `Overlap.SerialWithoutClashes` | components/w5500_driver/w5500_driver.c:452-457 | the same on a chip that accepts commands at any later time, as long as no task writes Sn_CR while a command is pending |
| `Serial.SendOverPending` | components/w5500_driver/w5500_driver.c:452-455 | a SEND has its effect exactly if no command is pending when it is written; a pending RECV is lost by it |
| `Serial.RecvOverPending` | components/w5500_driver/w5500_mac.c:646-651 | a RECV has its effect exactly if no command is pending when it is written; a pending SEND is lost by it |
| `Serial.LateSendIsLost` | components/w5500_driver/w5500_driver.c:457-462 | and that send returns ESP_OK for a frame the chip has not accepted |

## Left out

- Mac.Receive: requires that earlier RECV commands were carried out; what a call leaves that failed
  between the Sn_RX_RD write and the end of RECV is stated, and what the RX task does then is shown
  on the machine (Interleaving.CommandFaultLoses, OutOfStep.PassOffers); the methods do not follow
  it.
- Drain.DrainRx: likewise; the chip's records are taken to have a right length field, whatever the
  length of their frames.
- Drain.EthMac.Input: the buffer's ownership (`free` on a refused frame) is not modelled, and the
  stack's answer is ignored as the code ignores it for everything else.
- Interleaving.DeliversInOrder: commands are accepted before the next transaction; OPEN, and a
  failure between Sn_RX_RD and the end of RECV, are the subject of the lemmas named above.
- Sending.BothSidesExact: likewise.
- OutOfStep.OpenExactly: the RX task is left alone; what it finds at an old pointer if enough frames
  arrive meanwhile to be written over it is not followed.
- Serial.SerialEquivalent: one pass of the RX task up to its level check and one send, neither
  failing.
- Transmission.SendRawFrame: begins with no command pending; so does every call of a run.
- Wakeup.NoLostWakeup: `started` stays set; stopping is the subject of `Tasks`.
- RxTask.Task: woken at most a given number of times and sampling the pin low at most a given number
  of times, both arbitrary, so that the method ends; it does not follow a task whose RECV went wrong.
- Machine.WriteCommand: a RECV that would move the read pointer past the write pointer is dropped,
  the datasheet leaving it open; Machine.FillTx and Machine.MoveTxWr leave out writes that are not into
  free space at Sn_TX_WR, which occur only after an OPEN that does not spare a send.
- Machine.OpenStep: the writes of the buffer sizes and of Sn_MR are one step.
- W5500.Chip.Poll: a failed transaction takes no effect on the chip, except for the transmit burst,
  of which any prefix may have been written.
- W5500.Happen: a frame that does not fit waits outside the ring; frames the chip drops are not part
  of its traffic.
- Regs.WaitForCommand: at 100 ticks a second, the kernel's default; `vTaskDelay` is part of the gaps
  between clock readings.
- Phy.EthPhy.GetLink: what the PHY reports does not change during a call; PHYCFGR is read once in it.
- Lifecycle.RegisterInterruptTask: `gpio_isr_handler_remove` succeeds, as the code insists on with
  ESP_ERROR_CHECK.
- Machine.Step: the machine and the methods are two models of the same code, at two granularities; that
  a method is the sequence of its machine steps is not proved. Nor is Spi.Device connected to
  W5500.Chip: the transactions of the latter act on registers by name.
- The mediator's view of speed and duplex: down samples are stored without an announcement.
- `set_link` from outside and re-initialisation of the PHY.
- The HTTP demo, logging, pin configuration, SPI bus set-up and teardown, hard and soft reset,
  version and MAC address registers.
- Stub callbacks (filters, promiscuous mode, flow control, ioctl, loopback, PHY register access),
  the callback tables and the destructors.
- ESP-IDF and FreeRTOS themselves: a notification is a counter, the interrupt handler one step, an
  SPI transfer one transaction that may fail.
