# Garage door bridge

A Dafny model of the bridge between two Hoermann buses and a door, and proofs of
what it promises at the door: how often a press can reach the drive, when an
impulse may go out, what a stop and a pause put an end to, what crosses the wire
and what never does, and what the tasks can do to each other.

The parts, from the wire upwards:

- **Checksums and frames.** `ShiftRegister` holds the theory of a cyclic checksum
  once, for any register that obeys five laws; `Crc16` and `Crc8` show that the two
  shift loops obey them. `Hcp2Frame` and `Hcp1Frame` are the two frame layers. The
  newer bus follows MODBUS over Serial Line V1.02, section 2.5.1.2.
- **The newer bus.** `Lifecycle` is the command lifecycle as functions of the
  codec's state, `Hcp2Model` adds frames, registers and the identity exchange
  (function 0x17 and 0x10, sections 6.17 and 6.12 of the MODBUS Application
  Protocol Specification V1.1b3), and the class in `Hcp2Codec`, which updates its
  fields in place, is proved against both. `Hcp2Transport` announces a pause.
- **Runs of the newer bus.** `Runs` and `StopRuns` are about any frames and any
  calls in any order on a clock that never goes back; `Traffic`, `Replies` and
  `Logged` tie them to bytes and to the event log. `DriveRuns` composes the
  lifecycle with a drive that holds its counter until it is answered, under any
  loss, and `Session` does so frame by frame; `ExtremeRun`
  is a session that reaches the bounds. `IdentityRuns`, `SerialRuns` and
  `GotoRuns` are about the identity exchange and the go-to stop, `PauseGap` is about
  what outlives an announced pause. `Orders` lists what a drive obeys over a
  session and the calls it goes back to. `SimDrive` is the drive of the simulation
  with its door, as an object, `Chronicle` writes sessions down moment by moment,
  and `Scenarios` shows that whatever a scenario does is a session.
- **What must happen.** `SendRuns`, `ActRuns`, `TargetRuns`, `ShownRuns`, `AskRuns`,
  `Presence` and `AnswerWords` tell from the history alone, with the bus's own
  numbers, what goes out and when, which target is armed, what is shown, what the
  drive is asked and answered, and who is taken to listen. `DoorScenarios`,
  `PressScenarios` and `KnownDrive` say what that comes to at the simulated drive.
- **The older bus.** `Hcp1Model`, the class in `Hcp1Codec`, `Hcp1Runs`, and
  `Hcp1Must` for what must happen there.
- **Between the tasks.** `EventRing`, `RingRuns`, `EventRing32` and `RingReach`
  take the event ring apart into its atomic operations, with any number of writers;
  `HcpEventRing` is the ring as an object. `SlotSteps` and `Slot1Steps` do the same
  with the command slot of either bus, and `Notify` with the flag by which the loop
  learns of a change. `HcpBridge` is that loop as an object.

How the code's values are modelled: bytes, words and the clock are bounded
integers, the clock wraps at 32 bits, and positions are kept as the drive counts
them (0 to 200) with targets in percent, which agrees with every comparison the
code makes on their quotients.

What the proofs found out about the code:

- The ring's assertion on its capacity admits one slot, and one slot loses entries
  without counting them (`RingRuns.OneSlotLosesEntries`). A ring accounts for every
  push if and only if it has two (`RingRuns.AccountsIffTwoSlots`).
- Signed 32-bit differences are right as long as no writer acts on what it has read
  after being overtaken by more than 2^31 - N positions (`EventRing32.RunRefines`), and
  that is exact for every size of the ring: one further, some schedule drops an entry
  of an empty ring (`RingReach.OneFurtherIsTooFar`).
- A pause is announced by a drop and then a request. A stop of the bus's own can come
  in between and outlive the pause (`PauseGap.AStopSlipsThrough`). A pause of
  which a status poll is answered ends all that was asked for before it if and only if
  the queue is empty when it is requested (`PauseGap.PauseEndsEverythingIff`).
- The state word is looked at only where its high byte changes, and it starts as
  zero, which is also the code of a door that stands partway: until such a drive says
  anything else it is shown as closed (`ShownRuns.ShownIsSaidIff`).
- On the older bus a press stored while an answer is being built can be thrown away
  with it (`Slot1Steps.APressCanBeLost`). It is if and only if the bus is in the middle
  of an answer when it is stored (`Slot1Steps.ClearedUntoldIff`), unless it is dropped or
  overwritten before. None is told twice (`Slot1Steps.ToldAtMostOnce`).
- On the newer bus clearing the slot only of what the poll took tells commands apart,
  not calls: an impulse stored while a stop is being turned into one goes with it
  (`SlotSteps.AnImpulseCanBeLost`), although the comment there says that only what
  this poll took is cleared. Where the bus is when the call is stored decides it, along
  with what becomes of a stop it has in hand (`SlotSteps.LostWithThePollIff`); between
  two polls it never happens (`SlotSteps.NotLostFromRest`).

## Model

| member | source | states |
|---|---|---|
| ShiftRegister.FeedLinear | components/hcpbridge/hcp2_frame.cpp:6-14 | what an error adds to the register does not depend on the message under it, for any register that steps linearly |
| ShiftRegister.FeedAsBits | components/hcpbridge/hcp2_frame.cpp:6-14 | feeding whole bytes through the register is feeding their bits one by one, in the order in which the bus sends them |
| ShiftRegister.ParityOfFeed | components/hcpbridge/hcp2_frame.cpp:6-14 | a register that keeps parity ends up odd exactly for messages of odd weight |
| ShiftRegister.BurstIsHeld | components/hcpbridge/hcp2_frame.cpp:6-14 | a burst no wider than the register never leaves it at zero again, however much silence follows |
| ShiftRegister.ErrorsThatShow | components/hcpbridge/hcp2_frame.cpp:6-14 | neither an error of odd weight nor a burst within the width of the register leaves it at zero |
| Crc16.Compute | components/hcpbridge/hcp2_frame.cpp:6-14 | the nested shift loops compute the register of the theory, started at 0xFFFF |
| Crc16.Laws | components/hcpbridge/hcp2_frame.cpp:6-14 | the 16-bit register is linear, works byte by byte as bit by bit (low bit first), loses nothing, keeps parity and holds bursts of 16 |
| Crc8.Compute | components/hcpbridge/hcp1_frame.cpp:6-17 | the nested shift loops compute the register of the theory, started at 0xF3 |
| Crc8.Laws | components/hcpbridge/hcp1_frame.cpp:6-17 | the 8-bit register obeys the same five laws with bits sent high end first and bursts of 8 |
| Hcp2Frame.ValidateFrame | components/hcpbridge/hcp2_frame.cpp:16-25 | returns the length without the checksum exactly where the trailing word, low byte first, is the checksum of the rest, and 0 otherwise |
| Hcp2Frame.Finish | components/hcpbridge/hcp2_frame.cpp:27-34 | appends the checksum behind the caller's bytes and touches nothing else; a buffer too small, or empty, is left as it was |
| Hcp2Frame.FinishedIsAccepted | components/hcpbridge/hcp2_frame.cpp:16-34 | what the bus sends is what the bus accepts, with the length it was sent with |
| Hcp2Frame.AcceptedIffResidueZero | components/hcpbridge/hcp2_frame.cpp:16-25 | a frame is accepted if and only if all of it, checksum included, leaves the register at zero |
| Hcp2Frame.ErrorPassesIff | components/hcpbridge/hcp2_frame.cpp:16-25 | an error laid over an accepted frame passes if and only if, alone, it leaves the register at zero |
| Hcp2Frame.ErrorsAreRefused | components/hcpbridge/hcp2_frame.cpp:6-25 | for an accepted frame of any length, every error of odd weight and every nonzero burst within 16 bits, low bit first, is refused |
| Hcp1Frame.ParseFrame | components/hcpbridge/hcp1_frame.cpp:19-37 | reads address, counter and data exactly where length byte, frame length and checksum agree |
| Hcp1Frame.Build | components/hcpbridge/hcp1_frame.cpp:39-48 | writes the frame into the caller's buffer and leaves the rest of it alone, or writes nothing where it would not fit |
| Hcp1Frame.ParseUndoesBuilt | components/hcpbridge/hcp1_frame.cpp:19-48 | parsing what was built gives back address, counter modulo 16 and data, for all data of up to 13 bytes |
| Hcp1Frame.BuiltUndoesParse | components/hcpbridge/hcp1_frame.cpp:19-48 | building what was parsed gives back the frame byte for byte, and it had at most 13 data bytes |
| Hcp1Frame.ErrorPassesIff | components/hcpbridge/hcp1_frame.cpp:19-31 | an error laid over a frame whose checksum holds passes if and only if, alone, it leaves the register at zero |
| Hcp1Frame.ErrorsAreRefused | components/hcpbridge/hcp1_frame.cpp:6-31 | for every frame that parses, every error of odd weight and every nonzero burst within 8 bits, high bit first, is refused |
| HcpState.HoermannState.SetState | components/hcpbridge/hcp_state.cpp:112-119 | a movement that ends takes the go-to target with it; any other change of state leaves the target |
| HcpState.HoermannState.SetValid | components/hcpbridge/hcp_state.cpp:128-134 | the flag that something changed is raised only where the value did |
| HcpState.HoermannState.SetLink | components/hcpbridge/hcp_state.cpp:136-144 | the flag that something changed is raised only where the link did |
| HcpState.HoermannState.SetActuatorError | components/hcpbridge/hcp_state.cpp:121-126 | the flag that something changed is raised only where the fault did |
| HcpState.HoermannState.SetSerialNumber | components/hcpbridge/hcp_state.cpp:146-152 | an unchanged text raises nothing; a new one is cut to the length of the buffer |
| HcpTypes.ElapsedIsReal | components/hcpbridge/hcp2_codec.cpp:307-316 | the wrapping subtraction of the 32-bit clock is the real waiting time up to whole turns of the clock, and exactly that for less than one |
| Lifecycle.CommandsAreTold | components/hcpbridge/hcp_state.cpp:38-60 | no two commands look alike in the two answer registers, and only none and stop look like nothing |
| Hcp2Codec.Hcp2Codec.SetCommand | components/hcpbridge/hcp2_codec.cpp:798-830 | accepted exactly where somebody listens and the slot is free; a refusal leaves slot and stamp as they were |
| Hcp2Codec.Hcp2Codec.StopDoor | components/hcpbridge/hcp2_codec.cpp:835-856 | overwrites whatever is queued, stamps it and asks for the watch to be dropped, unless nobody listens |
| Hcp2Codec.Hcp2Codec.SetPosition | components/hcpbridge/hcp2_codec.cpp:865-891 | the two ends, the position already held, and otherwise a direction with a target that is armed only if the press was accepted |
| Hcp2Codec.Hcp2Codec.TurnLight | components/hcpbridge/hcp2_codec.cpp:862-864 | a press for a light that is already so is accepted and queues nothing |
| Hcp2Codec.Hcp2Codec.CheckBusSilence | components/hcpbridge/hcp2_codec.cpp:735-747 | after 20 s without a frame the link is silent and a queued press is dropped and noted |
| Hcp2Codec.Hcp2Codec.PublishIdentity | components/hcpbridge/hcp2_codec.cpp:728-733 | texts that are ready reach the door state once |
| Hcp2Codec.Hcp2Codec.CheckCommandEffect | components/hcpbridge/hcp2_codec.cpp:430-465 | drops the watch on an effect, a newer press or the deadline, and otherwise arms at most the allowed repeat |
| Hcp2Codec.Hcp2Codec.ReadSlot | components/hcpbridge/hcp2_codec.cpp:293-328 | cancelled, expired or resolved: the state a poll decides from, and what the slot comes to in it |
| Hcp2Codec.Hcp2Codec.NextToSend | components/hcpbridge/hcp2_codec.cpp:329-359 | a command from the slot always wins over a repeat, and the watch starts over with it and with nothing else |
| Hcp2Codec.Hcp2Codec.SetCommandValuesToRead | components/hcpbridge/hcp2_codec.cpp:290-373 | the whole of a poll: the next state of slot, watch and log, and only the two command registers of the answer |
| Hcp2Codec.Hcp2Codec.RearmLostCommand | components/hcpbridge/hcp2_codec.cpp:622-646 | puts back what the lost answer carried unless something newer is queued or the limit is reached |
| Hcp2Codec.Hcp2Codec.SyncCounter | components/hcpbridge/hcp2_codec.cpp:591-610 | a repeat of the count already answered is a loss only for a status poll; any other count is followed |
| Hcp2Codec.Hcp2Codec.AdvanceCounter | components/hcpbridge/hcp2_codec.cpp:612-615 | the count wraps from 0x7F to 1 and remembers the one before |
| Hcp2Codec.Hcp2Codec.OnCurrentStateChanged | components/hcpbridge/hcp2_codec.cpp:483-525 | the drive's state word as the state it stands for; a word nobody mapped is noted and changes nothing |
| Hcp2Codec.Hcp2Codec.WriteBcast | components/hcpbridge/hcp2_codec.cpp:23-34 | a report register takes effect against its old value, and a changed state word is counted whether mapped or not |
| Hcp2Codec.Hcp2Codec.CheckGotoTarget | components/hcpbridge/hcp2_codec.cpp:556-572 | one stop for a door that has come to its target, and the target is used up only by a stop that was issued |
| Hcp2Codec.Hcp2Codec.OnIdentityData | components/hcpbridge/hcp2_codec.cpp:749-793 | keeps a payload exactly where it answers the open request, in the right half and long enough; the retry clock moves only for a kept one |
| Hcp2Codec.Hcp2Codec.AskIdentity | components/hcpbridge/hcp2_codec.cpp:102-119 | asks at most the allowed number of times, and gives up after |
| Hcp2Codec.Hcp2Codec.IdentityToText | components/hcpbridge/hcp2_codec.cpp:669-679 | the text up to the first byte that is not printable, without trailing blanks |
| Hcp2Codec.Hcp2Codec.AnswerStatusPoll | components/hcpbridge/hcp2_codec.cpp:71-119 | a paused poll announces the pause and takes nothing; any other carries a command, or a request where it carries none |
| Hcp2Codec.Hcp2Codec.OnRequestHook | components/hcpbridge/hcp2_codec.cpp:66-159 | the answer registers and the state after the hook, for every shape of frame |
| Hcp2Codec.Hcp2Codec.WriteCmds | components/hcpbridge/hcp2_codec.cpp:238-239 | all registers of a write land in order, and only the first one is mirrored into the answer |
| Hcp2Codec.Hcp2Codec.OnWriteBlockComplete | components/hcpbridge/hcp2_codec.cpp:691-726 | a transfer is acknowledged exactly where it was kept or understood, and its answer overwrites what the hook put there |
| Hcp2Codec.Hcp2Codec.OnFrame | components/hcpbridge/hcp2_codec.cpp:173-288 | every field, register and answer byte afterwards is what the function of frame, clock and old state says |
| Replies.AnsweredIff | components/hcpbridge/hcp2_codec.cpp:173-248 | a function 0x17 frame is answered if and only if a predicate on its bytes holds, and the answer is accepted, addressed back and 2*count+5 bytes long |
| Replies.SilenceChangesNothing | components/hcpbridge/hcp2_codec.cpp:177-216 | a frame that gets no answer leaves slot, watch, receipt, counters, registers and identity as they were |
| Replies.AnswerReadsBack | components/hcpbridge/hcp2_codec.cpp:238-248 | the drive reads out of an answer exactly the registers it asked for |
| Replies.AnswerForgets | components/hcpbridge/hcp2_codec.cpp:66-149 | for every frame, neither the answer nor what becomes of the codec depends on what the answer registers held before |
| Logged.NothingLeaks | components/hcpbridge/hcp2_codec.cpp:66-149 | over every script of frames and calls all answers are independent of what the answer registers held to begin with |
| Replies.ObeyedIsChosen | components/hcpbridge/hcp2_codec.cpp:222-248 | the drive obeys exactly the command this exchange chose, only a full status poll outside a pause can choose one, and its own counter is mirrored |
| Replies.RegistersTellTheCommand | components/hcpbridge/hcp2_codec.cpp:66-149 | whatever code an answer has, its third and fourth register are those of a command if and only if this exchange chose that command: no scan, request, acknowledgement or announcement looks like one |
| Logged.LogTellsWhatWasSent | components/hcpbridge/hcp2_codec.cpp:361-366 | the log gains an entry about a command exactly at the steps whose answer carries one: command sent, by its name, for a first send, and command repeated for any other |
| Traffic.RecordingIsRun | components/hcpbridge/hcp2_codec.cpp:173-288 | every run of bytes and calls is a run of the command lifecycle, so the theorems about the lifecycle are about the wire |
| Traffic.ObeyedIsSent | components/hcpbridge/hcp2_codec.cpp:173-288 | what the drive obeys at each step of a recording is what the lifecycle sent there, and nothing else ever is |
| Runs.SlotHolds | components/hcpbridge/hcp2_codec.cpp:798-830 | in every run the slot holds what the last accepted call put there, with that call's stamp: refused taps do not touch it |
| Runs.FreshIsNotStale | components/hcpbridge/hcp2_codec.cpp:302-316 | in every run a command's first send is at most 2000 ms after the accepted call that queued it, across the clock's wrap |
| Runs.CarriedIsBounded | components/hcpbridge/hcp2_codec.cpp:290-373 | against any traffic one taken command goes out in at most 1 + lostAnswerRepeats + unactedRepeats answers, and nothing else is ever watched or sent again |
| Logged.WireIsBudgeted | components/hcpbridge/hcp2_codec.cpp:290-373 | byte for byte: whatever the drive is told to do is the command taken last, and this is at most the fifth answer to say it |
| StopRuns.StampHolds | components/hcpbridge/hcp2_codec.cpp:23-34 | while nothing newer was taken the snapshot is the count at which the command was sent, and an unchanged count means an unchanged state |
| StopRuns.StopMeetsAMovingDoor | components/hcpbridge/hcp2_codec.cpp:319-327 | every impulse that stems from a stop, first send, repeats and re-sends alike, goes out only while the door is reported as moving |
| StopRuns.NothingOutlivesAStop | components/hcpbridge/hcp2_codec.cpp:835-856 | after an accepted stop whatever goes out was asked for by the stop or after it, and taken after it: no earlier press, repeat or re-send |
| StopRuns.PausedIsQuiet | components/hcpbridge/hcp2_codec.cpp:78-91 | while a pause is requested nothing goes out, nothing is accepted, and only ending it ends it |
| StopRuns.NothingOutlivesAPause | components/hcpbridge/hcp2_transport.cpp:59-82 | once a status poll was answered during an announced pause whatever goes out later was taken after that poll, and was asked for after it or between the drop and the request |
| PauseGap.EmptyQueueEndsEverything | components/hcpbridge/hcp2_transport.cpp:59-82 | with nothing queued when a pause is requested, whatever goes out after a status poll of that pause was asked for, and taken, after that poll |
| PauseGap.PauseEndsEverythingIff | components/hcpbridge/hcp2_transport.cpp:59-82 | whatever a run came to, nothing asked for so far can outlive a pause requested now if and only if the queue is empty now: anything in it, stale or a stop for a standing door, goes out in some continuation |
| PauseGap.QuietGapLeavesNothing | components/hcpbridge/hcp2_transport.cpp:59-62 | a drop with nothing accepted between it and the request leaves the queue empty at the request |
| PauseGap.AStopSlipsThrough | components/hcpbridge/hcp2_transport.cpp:59-62 | a run in which the codec's own go-to stop is stored between the drop and the request, outlives the pause, and goes out as an impulse |
| Hcp2Transport.HushedStays | components/hcpbridge/hcp2_codec.cpp:78-91 | while a pause is requested, whatever frame arrives leaves the slot as it is, and no answer carries a command |
| Hcp2Transport.AnnouncePause | components/hcpbridge/hcp2_transport.cpp:45-88 | drop, request, wait, settle, end, with the bus task serving frames in between, between drop and request too: the result is true exactly where the drive was seen to confirm before the time ran out, from the request on no answer tells the door anything and the slot does not move, so that what is queued in the end is what the bus task left there before the request, nothing or a stop; without a handshake or a drive nothing is touched |
| SendRuns.GoesOutIff | components/hcpbridge/hcp2_codec.cpp:302-338 | over every run: a full status poll answered outside a pause takes the call that waits if and only if it has waited at most 2000 ms and means something, and sends it as what it is; which call waits is told from the history alone |
| SendRuns.LostGoesOutAgainIff | components/hcpbridge/hcp2_codec.cpp:591-646 | whatever was lost before: the poll that shows a loss sends the lost command again if and only if it was missed fewer times than allowed since it was taken, nobody stopped meanwhile, and the door has neither got where it leads nor, for an impulse, changed its word |
| ActRuns.PollSends | components/hcpbridge/hcp2_codec.cpp:290-373 | every poll outside a pause, exactly: what waits if it is fresh and means something; else, unless somebody stopped, what was lost and is not done; else, once, what went out more than 2000 and at most 5000 ms ago, where the door has not acted and no newer call came; else nothing |
| ActRuns.TargetGoesIff | components/hcpbridge/hcp2_codec.cpp:430-465 | a poll that takes nothing from the queue takes the target away if and only if it comes more than 5000 ms after a command the door has not acted on, with no newer call waiting |
| TargetRuns.TargetIsWanted | components/hcpbridge/hcp2_codec.cpp:339-343 | with every first send the target becomes the percentage of the last go-to call accepted since the one before, or none, and no other step arms one |
| ShownRuns.ShownIsReported | components/hcpbridge/hcp2_codec.cpp:467-550 | in every run state, positions, light, relay and fault shown are those that the registers reported so far name |
| ShownRuns.ShownIsSaidIff | components/hcpbridge/hcp2_codec.cpp:483-525 | for a drive whose state words are plain: the state shown is the one it said last if and only if it has ever said anything but that the door stands partway; if not, closed is shown |
| DoorScenarios.ShownIsTheDoor | test/sim/drive.py:210-221 | in every scenario, once the report of a round has been heard as bytes, the codec shows the drive's own door: its state by name, its position and its light |
| PressScenarios.APressIsTold | test/sim/run.py:45-54 | in every scenario without a go-to call a press after a round is told the drive with the next one, once, in the drive's own numbers, and moves its door |
| PressScenarios.ALostPressIsTold | test/sim/run.py:56-63 | with that answer lost it is told with the round after, once, if and only if the door has not meanwhile done what was asked |
| AskRuns.AsksAtOnce | components/hcpbridge/hcp2_codec.cpp:94-119 | over every run of bytes the first poll with room for it asks for the serial number |
| AskRuns.AsksAgain | components/hcpbridge/hcp2_codec.cpp:102-119 | a request nothing was paid for is sent again with the first poll with room for it more than 30 s later, with none sooner, and three times in all |
| AskRuns.PaidIsTaken | components/hcpbridge/hcp2_codec.cpp:749-793 | a first half behind a request for it, a second half behind a first that was taken, and a version behind a request for it are taken, and the drive is told so |
| AskRuns.AsksForTheVersion | components/hcpbridge/hcp2_codec.cpp:776-787 | once a second half has been taken the first poll with room for it asks for the firmware version |
| AskRuns.TakenIsWhole | components/hcpbridge/hcp2_codec.cpp:749-793 | only a half or a version with all of its registers is ever taken |
| AskRuns.NothingMoreIsAsked | components/hcpbridge/hcp2_codec.cpp:763-771 | once a version has been taken nothing is asked any more, and nothing more is taken |
| KnownDrive.TextIsShown | components/hcpbridge/hcp2_codec.cpp:669-679 | what is published of a text is its beginning up to the first byte that may not be shown, without the blanks at its end |
| KnownDrive.TheDriveIsKnown | test/sim/run.py:37-42 | after two rounds whose answers arrive and a turn of the loop the drive has been asked for both values and they are published as it sent them |
| Presence.ContactIs | components/hcpbridge/hcp2_codec.cpp:149-189 | over every run of bytes: somebody is taken to listen exactly while a frame was served since 20000 ms of silence were last found, the link is shown as the history has it, and a pause is confirmed exactly where the drive has named us since it was requested |
| Presence.CallIsTakenIff | components/hcpbridge/hcp2_codec.cpp:798-891 | a call is taken if and only if somebody listens, no pause is requested and, but for a stop, nothing waits; a go-to call asks for the direction from where the door was last reported, and for nothing where it is there |
| Presence.CallersAreTold | components/hcpbridge/hcp2_codec.cpp:798-891 | a caller is told no if and only if the call asked for something and was not taken |
| Presence.CallIsNoted | components/hcpbridge/hcp2_codec.cpp:798-856 | a refusal is noted with its reason, and nothing else is noted of a call |
| AnswerWords.AnswerSays | components/hcpbridge/hcp2_codec.cpp:66-149 | every register of every answer follows from the frame that asked, whether a pause is requested, what the answer carries or asks for, and whether it took a payload |
| DriveRuns.MissedWasLost | test/sim/drive.py:223-231 | while the drive holds a count that was answered, the last answer to it is the one that was lost, and lastSentCommand is what it carried |
| DriveRuns.ResendsOnlyWhatWasLost | components/hcpbridge/hcp2_codec.cpp:591-646 | a re-send is armed only where the last answer really was lost, and what is re-sent is what that answer carried |
| DriveRuns.ToldIsBounded | test/sim/drive.py:200-240 | under arbitrary loss of requests and answers the drive receives one taken command at most 1 + unactedRepeats times |
| Session.SessionIsPlay | test/sim/drive.py:210-268 | frames as the drive writes them and answers as it reads them are such a play: it is the composition of the two ends, byte for byte |
| Session.ToldAtMostTwice | test/sim/drive.py:200-240 | on the wire, whatever is lost, one taken command reaches the drive at most twice, and what reaches it is that command |
| ExtremeRun.BoundsAreReached | components/hcpbridge/hcp2_codec.cpp:290-373 | neither bound can be lowered: in one session a single press goes out in five answers and reaches the drive in two of them |
| Session.PollIsAnswerable | test/sim/hcp.py:83-108 | the status poll of the drive is answered and is a full status poll |
| Session.TransferIsAnswerable | test/sim/hcp.py:111-132 | every payload transfer of the drive is answered and is no status poll |
| SimDrive.SimDrive.Tick | test/sim/drive.py:200-240 | one round: the door travels and reports, a poll goes out, and an order is obeyed and the counter moves on exactly where an answer arrived; a lost one leaves the counter where it is |
| SimDrive.SimDrive.Quiet | test/sim/drive.py:245-252 | a silence of so many milliseconds is that many half seconds, at least one, in each of which the component looks at the bus and publishes |
| SimDrive.SimDrive.ServeIdentity | test/sim/drive.py:254-268 | the serial number goes out as a marked first half and a second half, the firmware version as one, each with a count and a time of its own, and which was served is written down |
| Orders.EveryOrderWasAskedFor | test/sim/drive.py:168-240 | over a whole session, whatever is lost: every order obeyed goes back to an accepted call and says what that call meant, in the order of the calls, no call is obeyed more than twice, and orders are at most twice the accepted calls |
| Chronicle.BeatsAreASession | test/sim/drive.py:210-268 | moments that fit one behind the other, from the first, make up a session on a clock that never goes back |
| Scenarios.ScenarioIsASession | test/sim/drive.py:96-268 | from the fresh drive, any sequence of presses, stops, go-to calls, silences and rounds, with any answer lost, door frozen or door not reacting, is a session that ends in the same state, and its orders are the commands the drive has seen |
| Scenarios.NothingIsToldUnasked | test/sim/drive.py:117-127 | in every scenario each command the drive has seen goes back to an accepted call and says what it meant, in the order of the calls and none more than twice |
| IdentityRuns.ExchangeIdent | components/hcpbridge/hcp2_codec.cpp:94-119 | what one exchange does to the identity, and which value its answer asks for, in terms of the choice the poll made |
| IdentityRuns.AskedSeldom | components/hcpbridge/hcp2_codec.cpp:94-119 | over a whole uptime each of the two values is asked for at most three times, nothing else ever is, and the exchange whose answer asks takes no command out of the slot and sends none again |
| SerialRuns.PayloadBytes | components/hcpbridge/hcp2_codec.cpp:659-665 | the payload of a write is the bytes behind its sub code register |
| SerialRuns.PublishedIsWhole | components/hcpbridge/hcp2_codec.cpp:749-793 | whatever frames arrive in between, a published serial number is the text of the last accepted first half followed by the accepted second half |
| GotoRuns.ReportStopsIff | components/hcpbridge/hcp2_codec.cpp:556-572 | a telegram of any length queues a stop if and only if it moves the position, a target is armed and survives it, the door has arrived and no pause stands; only then is the target used up |
| GotoRuns.EndingQueuesNothing | components/hcpbridge/hcp_state.cpp:112-119 | a telegram that ends the movement clears the target and queues nothing, whatever else it reports |
| GotoRuns.StopsAtTheTarget | components/hcpbridge/hcp2_codec.cpp:467-476 | on a steady journey towards an armed target a stop is queued with the first telegram at or past the target, and with no other |
| GotoRuns.SettledAlways | components/hcpbridge/hcp2_codec.cpp:467-476 | in every run the position shown is the drive's own and no check is left over between telegrams |
| EventRing.ActionKeeps | components/hcpbridge/hcp_events.h:86-126 | every atomic step of any writer or the reader keeps the invariant that ties sequence numbers, claims, deliveries and owners together |
| EventRing.OwnsAlone | components/hcpbridge/hcp_events.h:93-106 | a claimed position has a slot to itself: no other owner's and none that is handed over |
| RingRuns.DeliveredInOrder | components/hcpbridge/hcp_events.h:86-123 | in every interleaving what was delivered is a prefix of the claims in the order they were won, each one whole entry its writer pushed, each writer's in its own order |
| RingRuns.EveryClaimWasPushed | components/hcpbridge/hcp_events.h:86-107 | every claim and every entry in hand is one that its writer really began to push |
| RingRuns.SlotsAreExclusive | components/hcpbridge/hcp_events.h:93-119 | no slot's entry is ever accessed by two writers, or by a writer and the reader, at once |
| RingRuns.DropsOnlyWhenFull | components/hcpbridge/hcp_events.h:90-102 | a push finds no room if and only if, when it reads the sequence, it stands at the write position and exactly N claimed entries have not been given back |
| RingRuns.NothingIsUnaccounted | components/hcpbridge/hcp_events.h:97-126 | in every interleaving on two slots or more the pushes that returned are those delivered, those whose whole entry lies handed over in its slot, and those counted as dropped, taken or not |
| RingRuns.OneSlotLosesEntries | components/hcpbridge/hcp_events.h:77-107 | with one slot, which the assertion on the capacity admits, that fails: two pushes return, neither is counted as dropped, only one entry is there and the reader never finds it |
| RingRuns.AccountsIffTwoSlots | components/hcpbridge/hcp_events.h:77-126 | a ring of n slots accounts for every push in every interleaving if and only if n is at least two |
| EventRing32.MaskedIsPlace | components/hcpbridge/hcp_events.h:90-90 | masking a position picks the slot that counting round the ring does |
| EventRing32.StepRefines | components/hcpbridge/hcp_events.h:86-126 | a step is possible on the ring of 32-bit positions if and only if it is on the unbounded one, and leaves the same slots, tasks and counts, unless a writer acts on a sequence number after being overtaken by more than 2^31 - N positions |
| EventRing32.RunRefines | components/hcpbridge/hcp_events.h:86-126 | every schedule can be played just as far on either ring with the same states, as long as no writer acts on what it read after being overtaken by more than 2^31 - N positions |
| RingReach.OneFurtherIsTooFar | components/hcpbridge/hcp_events.h:92-102 | for every size from 2 to 2^30 a schedule takes both rings from the start through the same states, nobody acting out of reach, to where a writer has been overtaken by exactly 2^31 - N + 1; there they part, the 32-bit ring dropping an entry although nothing is in it |
| HcpEventRing.HcpEventRing.Push | components/hcpbridge/hcp_events.h:86-107 | used by one task at a time: an entry joins the queue behind the others, or is counted where the ring is full |
| HcpEventRing.HcpEventRing.Drain | components/hcpbridge/hcp_events.h:109-123 | takes the oldest entries in order, as many as asked for or as there are, and leaves the rest |
| HcpEventRing.HcpEventRing.TakeDropped | components/hcpbridge/hcp_events.h:126-126 | hands over the count of the losses and starts it again |
| HcpEventRing.DrainEvents | components/hcpbridge/hcpbridge.cpp:48-78 | batches of sixteen until one comes back short empty the ring in order, and then the losses are taken |
| SlotSteps.SentWasAccepted | components/hcpbridge/hcp2_codec.cpp:307-338 | in every interleaving of the slot's atomic operations no more commands are sent than calls were accepted |
| SlotSteps.SentAtMostOnce | components/hcpbridge/hcp2_codec.cpp:307-338 | in every interleaving no accepted call is ever taken out of the slot and sent twice |
| SlotSteps.UnsentIff | components/hcpbridge/hcp2_codec.cpp:307-338 | between polls an accepted call has not been sent if and only if it still waits, was found stale or a stop for a standing door, or was discarded: dropped, replaced by a stop, or cleared with one that is the same |
| SlotSteps.LostWithThePollIff | components/hcpbridge/hcp2_codec.cpp:307-338 | told from where the bus is when a call is stored: the poll that is going on clears the command if and only if it is the one that poll is about to clear the slot of, or it is an impulse and that poll turns a stop into one |
| SlotSteps.NotLostFromRest | components/hcpbridge/hcp2_codec.cpp:307-338 | what is in the slot between two polls never goes with another command, unless it is dropped or overwritten |
| SlotSteps.AnImpulseCanBeLost | components/hcpbridge/hcp2_codec.cpp:319-338 | an interleaving in which an impulse accepted while a stop is being turned into one is cleared with it |
| SlotSteps.StopSurvivesThePoll | components/hcpbridge/hcp2_codec.h:209-219 | a stop stored while the bus is at a poll that found no stop is still in the slot when that poll ends, unless the loop dropped it |
| Slot1Steps.SentWasAccepted | components/hcpbridge/hcp1_codec.cpp:129-160 | on the older bus too no more commands are sent than calls were accepted, in every interleaving |
| Slot1Steps.ToldAtMostOnce | components/hcpbridge/hcp1_codec.cpp:129-160 | in every interleaving no accepted call is ever told twice |
| Slot1Steps.UntoldIff | components/hcpbridge/hcp1_codec.cpp:129-160 | between answers an accepted call has not been told if and only if it still waits, was found stale or to mean nothing, or was discarded: dropped, overwritten, or cleared with another call's |
| Slot1Steps.ClearedUntoldIff | components/hcpbridge/hcp1_codec.cpp:129-160 | told from where the bus is when a call is stored: the first clearing after it throws the command away unseen if and only if the bus was in the middle of an answer then |
| Slot1Steps.APressCanBeLost | components/hcpbridge/hcp1_codec.cpp:156-159 | an interleaving in which two presses are accepted and one is told, because the plain clearing store threw the other away |
| Hcp1Codec.Hcp1Codec.Submit | components/hcpbridge/hcp1_codec.cpp:30-45 | accepted exactly where this bus can say it and we were addressed, replacing what was pending; anything else leaves the slot alone |
| Hcp1Codec.Hcp1Codec.StopDoor | components/hcpbridge/hcp1_codec.cpp:76-90 | refused without an address, and otherwise stored as the intent |
| Hcp1Codec.Hcp1Codec.CheckBusSilence | components/hcpbridge/hcp1_codec.cpp:63-74 | detected silence drops what is pending and takes the address away |
| Hcp1Codec.Hcp1Codec.ApplyBroadcast | components/hcpbridge/hcp1_codec.cpp:92-122 | the bits of a broadcast as the door they describe, with a position only at the two ends |
| Hcp1Codec.Hcp1Codec.AnswerStatus | components/hcpbridge/hcp1_codec.cpp:129-164 | what is pending is gone afterwards either way, and the answer carries it only while it is not stale and, for a stop, while the door moves |
| Hcp1Codec.Hcp1Codec.OnFrame | components/hcpbridge/hcp1_codec.cpp:166-204 | every field and answer byte afterwards is what the function of frame, clock and old state says |
| Hcp1Model.CommandBitsAreTold | components/hcpbridge/hcp1_codec.cpp:6-28 | each command has a bit of its own but for the two directions of the light, and half open, stop and none have no bit |
| Hcp1Runs.AnsweredIff | components/hcpbridge/hcp1_codec.cpp:166-204 | only a scan, or a status request once addressed, is answered, and the answer parses back as one to the drive counting one on modulo 16 |
| Hcp1Runs.AddressedIff | components/hcpbridge/hcp1_codec.cpp:63-74 | in every run we are addressed if and only if a scan came and no silence has been detected since |
| Hcp1Runs.AnswersAreInvited | components/hcpbridge/hcp1_codec.cpp:124-204 | over every run answers go to the drive with its counter plus one, only for frames to 0x28, and none to a status request before a scan or between silence and the next scan |
| Hcp1Runs.ToldOnceAndInTime | components/hcpbridge/hcp1_codec.cpp:129-159 | in every run a command told is the last one accepted, told for the first time since, at most 2000 ms after, and a stop only to a moving door |
| Hcp1Runs.ObeyedIsTold | components/hcpbridge/hcp1_codec.cpp:162-163 | on the wire the byte the drive obeys is the command told, and no other answer carries one |
| Hcp1Must.ToldIs | components/hcpbridge/hcp1_codec.cpp:129-160 | over every recording: the first status request answered after a call tells what the call comes to if it has waited at most 2000 ms, and nothing otherwise |
| Hcp1Must.WireTells | components/hcpbridge/hcp1_codec.cpp:162-163 | in every answer to a status request, and in no other, the drive finds the bit of what is told |
| Hcp1Must.ShownIsReported | components/hcpbridge/hcp1_codec.cpp:92-122 | in every recording state, position, light, relay and fault shown are what the bits of the broadcasts so far say |
| Hcp1Must.SilentIff | components/hcpbridge/hcp1_codec.cpp:63-74 | a look at the bus finds it silent if and only if a frame was heard, the last one more than 20000 ms ago |
| Hcp1Must.LinkIs | components/hcpbridge/hcp1_codec.cpp:63-74 | the state is taken to be known exactly while a broadcast was applied since silence was last found, and the link is shown as the history has it |
| Hcp1Must.CallIsTakenIff | components/hcpbridge/hcp1_codec.cpp:30-90 | a call is taken if and only if a scan came and no silence since, and it can be said on this bus |
| Hcp1Must.AnswerSays | components/hcpbridge/hcp1_codec.cpp:124-164 | a scan is answered with type and address, a status request with the bit of what is told and a healthy stop circuit, and nothing else is answered |
| Notify.AlwaysHeeded | components/hcpbridge/hcpbridge.cpp:80-91 | in every interleaving each published field is what the last callback read, or the flag is up, or a setter is about to raise it, or the loop is about to read |
| Notify.NoChangeIsLost | components/hcpbridge/hcp_state.cpp:82-144 | with everybody at rest and no flag raised the last callback read every field as it is |
| HcpBridge.NothingChangesUnflagged | components/hcpbridge/hcp_state.cpp:82-144 | whatever frame, call or watchdog comes, the door is as it was or the flag is up |
| HcpBridge.NothingIsMissed | components/hcpbridge/hcpbridge.cpp:80-91 | over any history of frames, calls and turns of the loop in any order: where no flag is up what the callback read last is the door as it is, and after a turn of the loop that is so |
| HcpBridge.Bridge.Update | components/hcpbridge/hcpbridge.cpp:80-91 | one turn of the loop: the log is emptied, identity published, silence looked for, and the callback runs exactly where something changed and has then read the door as it is |

## Left out

- Event arguments and times: an event carries what tells it from another, not its second argument or its time stamp.
- Notes in the log other than of commands sent and calls refused: what they say is stated by the contracts of the codec's methods alone.
- The codec's own log: it is an unbounded sequence in both codec classes; that the ring behind it can be full is modelled in the ring alone.
- Hcp2Codec.Hcp2Codec.WriteBcast: the report block and the identity buffers are sequence fields, not arrays, so writing them element by element in place is not captured; the command and answer blocks are arrays.
- Hcp2Transport.AnnouncePause: the bus task's frames come in batches between two steps of the loop task, given as parameters, each served at one reading of the clock; no delay is modelled.
- SlotSteps.SentWasAccepted: whether a press is stale, whether the door moves and whether a call is refused for lack of a link are left open at each step, so the stamp is carried along but decides nothing.
- Weak memory: atomic operations are sequentially consistent steps; acquire and release are taken as given.
- Floating point: positions and targets are scaled integers.
- Frames addressed to others on the newer bus: the codec does not look at the address beyond broadcast, and neither does the model; the port in front of it does.
- The serial ports, tasks, queues and RS485 direction (`modbus_rtu.cpp`, `hcp1_serial.cpp`, `hcp_bus_task.h`): hardware calls.
- The ESPHome entities, configuration schemas, log sentences and name tables: forwarding and look-up.
- SimDrive.SimDrive.Tick: the random generator behind lost answers is not modelled; whether an answer is lost, the door frozen or the door reacts is a parameter of each round, and a serial number has at least 26 bytes, a firmware version 12.
- HcpEventRing.HcpEventRing.Push: used by one task at a time; several writers at once are the subject of `EventRing` and `RingRuns`.
- HcpEventRing.HcpEventRing.Drain: no writer is active meanwhile; one that is, is the subject of `RingRuns.DeliveredInOrder`.
- HcpEventRing.DrainEvents: no writer pushes between two batches, so what is drained is what the ring held at the start.
- HcpBridge.Bridge.Update: the engine is the codec of the newer bus, its log stands for the ring, and the callback stands for everybody who registered one.
- How a real drive behaves beyond holding and advancing its counter, and the timing of break and mark on the older bus.
- That a go-to target belongs to the press that asked for it, that re-sends have an age limit, and that the older bus never loses a press: the code does not promise them.
