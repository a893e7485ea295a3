/**
 * What a press goes through on the newer bus, as functions of the codec's
 * state: taken into the slot, put on the wire, watched, repeated, re-sent after
 * a lost answer, stopped or expired. `Hcp2Codec` is proved against these.
 */
module Lifecycle {
  import opened HcpTypes
  import opened HcpState

  datatype Capabilities = Capabilities(
    lostAnswerRepeats: nat,
    unactedRepeats: nat,
    hasIdentity: bool,
    hasPause: bool,
    hasPosition: bool)

  const HCP2_CAPABILITIES := Capabilities(3, 1, true, true, true)

  const CMD_STATUS: Byte := 0x03
  const CMD_TRANSFER: Byte := 0x04

  /** The nine registers of a block the drive writes. */
  type Block = s: seq<Word> | |s| == 9 witness [0, 0, 0, 0, 0, 0, 0, 0, 0]

  /** What an answer carries: a command taken from the slot, one sent again, or none. */
  datatype Choice = Nothing | Fresh(cmd: Command) | Again(cmd: Command)

  function CommandOf(choice: Choice): Command {
    if choice.Nothing? then NoCommand else choice.cmd
  }

  /** Room for one command on its way from the loop to the bus. */
  datatype Slot = Slot(next: Command, nextOn: Millis, gotoRequest: int, cancelWatch: bool)

  /** The command last sent, when, and against which state of the door. */
  datatype Watch = Watch(
    awaited: Command,
    repeat: Command,
    lastSent: Command,
    awaitedSince: Millis,
    lastSentAt: Millis,
    confirmRepeats: nat,
    repeatsSent: nat,
    stateWritesWhenSent: nat)

  /** The drive's counter as a delivery receipt. */
  datatype Receipt = Receipt(txCounter: Byte, txCounterPrev: Byte, valid: bool)
  {
    function Adopt(rx: Byte): Receipt {
      this.(txCounter := rx, valid := true)
    }

    function Advance(): Receipt {
      this.(txCounterPrev := txCounter,
            txCounter := if txCounter == 0x7F then 1 else (txCounter + 1) % 0x100)
    }
  }

  datatype Pause = Pause(requested: bool, confirmed: bool)

  datatype Core = Core(
    caps: Capabilities,
    door: Door,
    bcast: Block,
    gotoCheckPending: bool,
    slot: Slot,
    watch: Watch,
    receipt: Receipt,
    pause: Pause,
    lastFrameOn: Millis,
    stateWrites: nat,
    log: seq<Event>)
  {
    function Push(e: Event): Core {
      this.(log := log + [e])
    }

    function ClearIfStill(taken: Command): Core {
      if slot.next == taken then this.(slot := slot.(next := NoCommand)) else this
    }

    /** This command would change nothing, by what the door last reported. */
    predicate Reached(cmd: Command) {
      match cmd
      case Open => door.state == Opening || door.state == DoorOpen
      case Close => door.state == Closing || door.state == DoorClosed
      case Half => door.state == MoveHalf || door.state == HalfOpen
      case Vent => door.state == MoveVenting || door.state == Venting
      case LightOn => door.lightOn
      case LightOff => !door.lightOn
      case _ => false
    }

    predicate TookEffect() {
      stateWrites != watch.stateWritesWhenSent || Reached(watch.awaited)
    }

    predicate RepeatStillMakesSense() {
      if watch.repeat == NoCommand then false
      else if watch.repeat == Impulse then stateWrites == watch.stateWritesWhenSent
      else !Reached(watch.repeat)
    }

    function DropWatch(): Core {
      this.(watch := watch.(awaited := NoCommand, repeat := NoCommand))
    }

    // ----- a status poll takes what is queued -----

    /** Looks for the effect of the last command, and may arm a repeat of it. */
    function CheckEffect(now: Millis): Core {
      if watch.awaited == NoCommand then this
      else if TookEffect() then DropWatch()
      else if slot.next != NoCommand then DropWatch()
      else if Elapsed(now, watch.awaitedSince) > CMD_GIVEUP_MS then
        var c := Push(CommandUnanswered(watch.awaited)).DropWatch();
        c.(door := c.door.SetGoto(0))
      else if Elapsed(now, watch.lastSentAt) > CMD_CONFIRM_MS && watch.confirmRepeats < caps.unactedRepeats then
        this.(watch := watch.(confirmRepeats := watch.confirmRepeats + 1, repeat := watch.awaited))
      else this
    }

    function HonourCancel(): Core {
      if slot.cancelWatch
      then DropWatch().(slot := slot.(cancelWatch := false))
      else this
    }

    predicate Stale(now: Millis) {
      slot.next != NoCommand && Elapsed(now, slot.nextOn) > CMD_STALE_MS
    }

    /** A stale command leaves the slot with a note. */
    function Expire(now: Millis): Core {
      if Stale(now) then Push(CommandStale(slot.next)).ClearIfStill(slot.next) else this
    }

    /** What the slot comes to now: a stop is an impulse for a moving door and nothing for a standing one. */
    function Offered(): Command {
      if slot.next != Stop then slot.next
      else if IsMoving(door.state) then Impulse
      else NoCommand
    }

    function TakeStop(): Core {
      if slot.next == Stop then ClearIfStill(Stop) else this
    }

    function ArmGoto(): Core {
      this.(slot := slot.(gotoRequest := -1),
            door := door.SetGoto(if slot.gotoRequest < 0 then 0 else slot.gotoRequest))
    }

    function StartWatch(cmd: Command, now: Millis): Core {
      this.(watch := watch.(repeat := NoCommand, awaited := cmd, awaitedSince := now, confirmRepeats := 0,
                            stateWritesWhenSent := stateWrites, repeatsSent := 0))
    }

    /** A command leaves the slot, its go-to target is armed with it, and the watch starts over. */
    function Take(cmd: Command, now: Millis): Core {
      ClearIfStill(cmd).ArmGoto().StartWatch(cmd, now)
    }

    function ReadRepeat(): Core {
      var c := this.(watch := watch.(repeat := NoCommand));
      if watch.repeat == NoCommand || RepeatStillMakesSense() then c else c.Push(CommandRepeatDropped)
    }

    function NoteSent(now: Millis, cmd: Command, why: Event): Core {
      if cmd == NoCommand then this.(watch := watch.(lastSent := NoCommand))
      else Push(why).(watch := watch.(lastSentAt := now, lastSent := cmd))
    }

    /** The state in which a poll decides what goes out. */
    function Ready(now: Millis): Core {
      CheckEffect(now).HonourCancel().Expire(now)
    }

    /** What goes out with a poll: the slot comes first, an armed repeat only where the slot offers nothing. */
    function Choose(now: Millis): Choice {
      var c := Ready(now);
      if c.Offered() != NoCommand then Fresh(c.Offered())
      else if c.RepeatStillMakesSense() then Again(c.watch.repeat)
      else Nothing
    }

    function Chosen(now: Millis): Core {
      var c := Ready(now).TakeStop();
      match Choose(now)
      case Fresh(cmd) => c.Take(cmd, now)
      case _ => c.ReadRepeat()
    }

    function Poll(now: Millis): Core {
      var c := Chosen(now);
      match Choose(now)
      case Fresh(cmd) => c.NoteSent(now, cmd, CommandSent(cmd))
      case Again(cmd) => c.NoteSent(now, cmd, CommandRepeated(cmd))
      case Nothing => c.NoteSent(now, NoCommand, CommandSent(NoCommand))
    }

    /** A status poll during a pause drops the watch. */
    function PausedPoll(): Core {
      DropWatch().(door := door.SetValid(true).SetLink(Paused))
    }

    // ----- the delivery receipt -----

    /** Arms the command of an answer that did not arrive, if the slot is free and the cap allows. */
    function Rearm(): Core {
      if watch.lastSent == NoCommand then this
      else if slot.next != NoCommand then this
      else if watch.repeatsSent >= caps.lostAnswerRepeats then
        Push(CommandResendGaveUp).(watch := watch.(lastSent := NoCommand))
      else
        Push(CommandResent(watch.lastSent)).(watch := watch.(
          repeatsSent := watch.repeatsSent + 1, repeat := watch.lastSent,
          awaited := NoCommand, lastSent := NoCommand))
    }

    function SyncCounter(counterByte: Byte, command: Byte): Core {
      var rx := counterByte % 0x80;
      if !receipt.valid || rx == receipt.txCounter then this.(receipt := receipt.Adopt(rx))
      else if rx == receipt.txCounterPrev && command == CMD_STATUS then Rearm().(receipt := receipt.Adopt(rx))
      else this.(receipt := receipt.Adopt(rx))
    }

    function AdvanceCounter(): Core {
      this.(receipt := receipt.Advance())
    }

    /** Only a status poll that is answered refills it. */
    function ForgetSent(): Core {
      this.(watch := watch.(lastSent := NoCommand))
    }

    /** Every frame that is answered or applied says that the link is up. */
    function LinkUp(): Core {
      var c := this.(door := door.SetValid(true));
      if pause.requested then c else c.(door := c.door.SetLink(Registered))
    }

    // ----- what the drive reports -----

    function ReportPosition(val: Word): Core {
      var was := bcast[1];
      var c := if was % 0x100 != val % 0x100
               then this.(door := door.(current := val % 0x100, changed := true), gotoCheckPending := true)
               else this;
      if was / 0x100 != val / 0x100
      then c.(door := c.door.(target := val / 0x100, changed := true))
      else c
    }

    /** Every change of the state word counts, translated or not. */
    function CountState(val: Word): Core {
      if bcast[2] != val then this.(stateWrites := stateWrites + 1) else this
    }

    function ShowState(val: Word): Core {
      if bcast[2] / 0x100 == val / 0x100 then this
      else
        var c := Push(StateChanged(val / 0x100));
        match Translate(val)
        case Some(s) => c.(door := c.door.SetState(s))
        case None => c.Push(UnknownState(val / 0x100))
    }

    function ReportFault(val: Word): Core {
      if bcast[6] / 0x100 == val / 0x100 then this
      else this.(door := door.SetActuatorError(val / 0x1000 % 4 != 0).(relayOn := val / 0x100 == 0x02, changed := true))
    }

    function ReportLight(val: Word): Core {
      var hi, lo := val / 0x100, val % 0x100;
      if bcast[6] % 0x100 == lo then this
      else Push(RelayRegister(val)).(door := door.(
             lightOn := lo == 0x14 || lo == 0x10,
             relayOn := hi == 0x02 || lo == 0x14 || lo == 0x04,
             changed := true))
    }

    function WriteBcast(i: nat, val: Word): Core
      requires i < 9
    {
      var c := if i == 1 then ReportPosition(val)
               else if i == 2 then CountState(val).ShowState(val)
               else if i == 6 then ReportFault(val).ReportLight(val)
               else this;
      c.(bcast := c.bcast[i := val])
    }

    /** The registers of a report from the `i`th on, in address order. */
    function WriteFrom(words: seq<Word>, i: nat): Core
      requires i <= |words| <= 9
      decreases |words| - i
    {
      if i == |words| then this else WriteBcast(i, words[i]).WriteFrom(words, i + 1)
    }

    predicate AtTarget() {
      || (door.state == Closing && 2 * door.goto >= door.current)
      || (door.state == Opening && 2 * door.goto <= door.current)
    }

    /** The go-to stop, decided once the whole report has been applied. */
    function CheckGotoTarget(now: Millis): Core {
      if !gotoCheckPending then this
      else
        var c := this.(gotoCheckPending := false);
        if door.goto == 0 || !AtTarget() then c
        else
          var d := c.StopDoor(now);
          if Listening() then d.(door := d.door.SetGoto(0)) else d
    }

    function Report(now: Millis, words: seq<Word>): Core
      requires |words| <= 9
    {
      LinkUp().WriteFrom(words, 0).CheckGotoTarget(now)
    }

    // ----- what the loop asks for -----

    /** With nobody listening a press is refused, not armed for later. Paused counts as nobody. */
    predicate Listening() {
      door.valid && !pause.requested
    }

    predicate Takes(cond: bool) {
      !cond || (Listening() && slot.next == NoCommand)
    }

    function SetCommand(now: Millis, cond: bool, cmd: Command): Core {
      if !cond then this
      else if !Listening() then Push(CommandRefusedNoLink(cmd))
      else if slot.next != NoCommand then Push(CommandRefusedSlotBusy(cmd))
      else this.(slot := slot.(nextOn := now, next := cmd))
    }

    /** A stop replaces what is in the slot and cancels the watch. */
    function StopDoor(now: Millis): Core {
      if !Listening() then Push(CommandRefusedNoLink(Stop))
      else this.(slot := slot.(nextOn := now, next := Stop, cancelWatch := true))
    }

    /** The direction of a go-to press, or none where the door is already there. */
    function GotoCommand(percent: int): Command {
      if percent <= 5 then Close
      else if percent >= 95 then Open
      else if door.current == 2 * percent then NoCommand
      else if door.current < 2 * percent then Open
      else Close
    }

    function SetPosition(now: Millis, percent: int): Core {
      if 5 < percent < 95 && (!caps.hasPosition || GotoCommand(percent) == NoCommand) then this
      else
        var c := SetCommand(now, true, GotoCommand(percent));
        if 5 < percent < 95 && Takes(true) then c.(slot := c.slot.(gotoRequest := percent)) else c
    }

    predicate TakesPosition(percent: int) {
      if percent <= 5 || percent >= 95 then Takes(true)
      else caps.hasPosition && (GotoCommand(percent) == NoCommand || Takes(true))
    }

    function RequestPause(): Core {
      this.(pause := Pause(true, false))
    }

    function EndPause(): Core {
      this.(pause := pause.(requested := false))
    }

    function DropQueued(): Core {
      this.(slot := slot.(next := NoCommand))
    }

    predicate Gone(now: Millis) {
      lastFrameOn != 0 && Elapsed(now, lastFrameOn) > BUS_SILENCE_MS
    }

    function CheckSilence(now: Millis): Core {
      if !Gone(now) then this
      else
        var c := this.(door := door.SetValid(false).SetLink(Silent));
        if slot.next != NoCommand then c.(slot := slot.(next := NoCommand)).Push(LinkLostCommandDropped) else c
    }

    /** A frame whose checksum holds, whatever it turns out to be. */
    function Heard(now: Millis): Core {
      var c := this.(lastFrameOn := if now == 0 then 1 else now);
      if door.link == NeverSeen then c.(door := door.SetLink(Enumerating)) else c
    }
  }

  /** The drive's state word; a code nobody mapped is none. */
  function Translate(val: Word): Option<DoorState> {
    match val / 0x100
    case 0x01 => Some(Opening)
    case 0x02 => Some(Closing)
    case 0x20 => Some(DoorOpen)
    case 0x40 => Some(DoorClosed)
    case 0x80 => Some(HalfOpen)
    case 0x09 => Some(MoveVenting)
    case 0x05 => Some(MoveHalf)
    case 0x0A => Some(Venting)
    case 0x00 => Some(if val % 0x100 == 0x61 then Venting else Stopped)
    case _ => None
  }

  const NO_REPORT: Block := [0, 0, 0, 0, 0, 0, 0, 0, 0]

  const NEW_CORE := Core(
    HCP2_CAPABILITIES, NEW_DOOR, NO_REPORT, false,
    Slot(NoCommand, 0, -1, false),
    Watch(NoCommand, NoCommand, NoCommand, 0, 0, 0, 0, 0),
    Receipt(0, 0, false),
    Pause(false, false),
    0, 0, [])

  /** How a command looks in the third and fourth register of an answer. */
  function CommandValues(cmd: Command): (Word, Word) {
    match cmd
    case Open => (0x0110, 0x0000)
    case Close => (0x0120, 0x0000)
    case Impulse => (0x0140, 0x0000)
    case Half => (0x0100, 0x0400)
    case Vent => (0x0100, 0x4000)
    case LightOn => (0x0880, 0x0000)
    case LightOff => (0x0800, 0x0100)
    case _ => (0x0000, 0x0000)
  }

  /** No two commands look alike on the wire, and none looks like nothing. */
  lemma CommandsAreTold(a: Command, b: Command)
    ensures CommandValues(a) == (0, 0) <==> a == NoCommand || a == Stop
    ensures CommandValues(a) == CommandValues(b) && CommandValues(a) != (0, 0) ==> a == b
  {
  }
}
