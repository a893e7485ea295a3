/**
 * The codec of the newer bus, updating its fields in place as frames and presses
 * arrive. Fields that one task owns, or that belong to one mechanism, sit
 * together in a record.
 */
module Hcp2Codec {
  import opened HcpTypes
  import opened HcpState
  import opened Lifecycle
  import opened Hcp2Frame
  import opened Hcp2Model

  /** One register more of a write has landed. */
  lemma LandsNext(words: seq<Word>, was: Block, i: nat)
    requires i < |words| <= 9
    ensures (words[..i] + was[i..])[i := words[i]] == words[..i + 1] + was[i + 1..]
  {
  }

  class Hcp2Codec {
    const state: HoermannState
    const caps: Capabilities
    const regCmd: array<Word>
    const regResp: array<Word>
    var regBcast: Block
    var gotoCheckPending: bool
    var slot: Slot
    var watch: Watch
    var receipt: Receipt
    var pause: Pause
    var lastFrameOn: Millis
    var stateWrites: nat
    var ident: Ident
    var shape: Shape
    var events: seq<Event>

    /** The register blocks are separate, and as long as the bus says. */
    ghost predicate Valid() {
      regCmd.Length == REG_CMD_COUNT && regResp.Length == REG_RESP_COUNT && regCmd != regResp
    }

    ghost function CoreView(): Core
      reads this, state
    {
      Core(caps, state.View(), regBcast, gotoCheckPending, slot, watch, receipt, pause,
           lastFrameOn, stateWrites, events)
    }

    ghost function View(): Model
      requires Valid()
      reads this, state, regCmd, regResp
    {
      Model(CoreView(), regCmd[..], regResp[..], ident, shape)
    }

    constructor ()
      ensures Valid() && View() == NEW_MODEL
      ensures fresh(state) && fresh(regCmd) && fresh(regResp)
    {
      state := new HoermannState();
      caps := HCP2_CAPABILITIES;
      regCmd := new Word[9](_ => 0);
      regResp := new Word[8](_ => 0);
      regBcast, gotoCheckPending := NO_REPORT, false;
      slot := Slot(NoCommand, 0, -1, false);
      watch := Watch(NoCommand, NoCommand, NoCommand, 0, 0, 0, 0, 0);
      receipt, pause := Receipt(0, 0, false), Pause(false, false);
      lastFrameOn, stateWrites, ident, events := 0, 0, NEW_IDENT, [];
      shape := Shape(false, 0, 0, 0);
      new;
      assert regCmd[..] == NO_REPORT && regResp[..] == NO_ANSWER;
    }

    method Push(e: Event)
      modifies this`events
      ensures CoreView() == old(CoreView()).Push(e)
    {
      events := events + [e];
    }

    // ----- the loop side -----

    method RequestPause()
      modifies this`pause
      ensures CoreView() == old(CoreView()).RequestPause()
    {
      pause := Pause(true, false);
    }

    method EndPause()
      modifies this`pause
      ensures CoreView() == old(CoreView()).EndPause()
    {
      pause := pause.(requested := false);
    }

    method DropQueuedCommand()
      modifies this`slot
      ensures CoreView() == old(CoreView()).DropQueued()
    {
      slot := slot.(next := NoCommand);
    }

    method SetCommand(nowMs: Millis, cond: bool, command: Command) returns (ok: bool)
      modifies this`events, this`slot
      ensures CoreView() == old(CoreView()).SetCommand(nowMs, cond, command)
      ensures ok == old(CoreView()).Takes(cond)
    {
      if cond {
        if !state.valid || pause.requested {
          Push(CommandRefusedNoLink(command));
          return false;
        }
        // Stamped first; an occupied slot gets its old stamp again.
        var previousOn := slot.nextOn;
        slot := slot.(nextOn := nowMs);
        if slot.next != NoCommand {
          slot := slot.(nextOn := previousOn);
          Push(CommandRefusedSlotBusy(command));
          return false;
        }
        slot := slot.(next := command);
      }
      return true;
    }

    method StopDoor(nowMs: Millis) returns (ok: bool)
      modifies this`events, this`slot
      ensures CoreView() == old(CoreView()).StopDoor(nowMs)
      ensures ok == old(CoreView()).Listening()
    {
      if !state.valid || pause.requested {
        Push(CommandRefusedNoLink(Stop));
        return false;
      }
      slot := slot.(nextOn := nowMs);
      slot := slot.(next := Stop);
      slot := slot.(cancelWatch := true);
      return true;
    }

    method TurnLight(nowMs: Millis, on: bool) returns (ok: bool)
      modifies this`events, this`slot
      ensures var c := old(CoreView());
        CoreView() == c.SetCommand(nowMs, on != c.door.lightOn, if on then LightOn else LightOff)
        && ok == c.Takes(on != c.door.lightOn)
    {
      ok := SetCommand(nowMs, on != state.lightOn, if on then LightOn else LightOff);
    }

    method SetPosition(nowMs: Millis, percent: int) returns (ok: bool)
      modifies this`events, this`slot
      ensures CoreView() == old(CoreView()).SetPosition(nowMs, percent)
      ensures ok == old(CoreView()).TakesPosition(percent)
    {
      if percent <= 5 {
        ok := SetCommand(nowMs, true, Close);
        return;
      }
      if percent >= 95 {
        ok := SetCommand(nowMs, true, Open);
        return;
      }
      if !caps.hasPosition {
        return false;
      }
      var here := state.currentPosition;
      if here == 2 * percent {
        return true;
      }
      // A refused press leaves no target behind.
      ok := SetCommand(nowMs, true, if here < 2 * percent then Open else Close);
      if !ok {
        return false;
      }
      slot := slot.(gotoRequest := percent);
      return true;
    }

    method CheckBusSilence(nowMs: Millis)
      modifies this`events, this`slot, state
      ensures CoreView() == old(CoreView()).CheckSilence(nowMs)
    {
      if lastFrameOn == 0 {
        return;
      }
      if Elapsed(nowMs, lastFrameOn) > BUS_SILENCE_MS {
        state.SetValid(false);
        state.SetLink(Silent);
        var was := slot.next;
        slot := slot.(next := NoCommand);
        if was != NoCommand {
          Push(LinkLostCommandDropped);
        }
      }
    }

    method PublishIdentity()
      requires Valid()
      modifies this`ident, state
      ensures View() == old(View()).PublishIdentity()
    {
      if ident.serialReady {
        ident := ident.(serialReady := false);
        state.SetSerialNumber(ident.serial);
      }
      if ident.firmwareReady {
        ident := ident.(firmwareReady := false);
        state.SetFirmwareVersion(ident.firmware);
      }
    }

    // ----- the command lifecycle, on the bus task -----

    function CommandReached(cmd: Command): (r: bool)
      reads this, state
      ensures r == CoreView().Reached(cmd)
    {
      var now := state.state;
      match cmd
      case Open => now == Opening || now == DoorOpen
      case Close => now == Closing || now == DoorClosed
      case Half => now == MoveHalf || now == HalfOpen
      case Vent => now == MoveVenting || now == Venting
      case LightOn => state.lightOn
      case LightOff => !state.lightOn
      case _ => false
    }

    function CommandTookEffect(): (r: bool)
      reads this, state
      ensures r == CoreView().TookEffect()
    {
      stateWrites != watch.stateWritesWhenSent || CommandReached(watch.awaited)
    }

    function RepeatStillMakesSense(): (r: bool)
      reads this, state
      ensures r == CoreView().RepeatStillMakesSense()
    {
      var cmd := watch.repeat;
      if cmd == NoCommand then false
      else if cmd == Impulse then stateWrites == watch.stateWritesWhenSent
      else !CommandReached(cmd)
    }

    method ClearIfStill(taken: Command)
      modifies this`slot
      ensures CoreView() == old(CoreView()).ClearIfStill(taken)
    {
      if slot.next == taken {
        slot := slot.(next := NoCommand);
      }
    }

    method DropWatch()
      modifies this`watch
      ensures CoreView() == old(CoreView()).DropWatch()
    {
      watch := watch.(awaited := NoCommand);
      watch := watch.(repeat := NoCommand);
    }

    method CheckCommandEffect(nowMs: Millis)
      modifies this`events, this`watch, state
      ensures CoreView() == old(CoreView()).CheckEffect(nowMs)
    {
      var awaited := watch.awaited;
      if awaited == NoCommand {
        return;
      }
      if CommandTookEffect() {
        DropWatch();
        return;
      }
      if slot.next != NoCommand {
        DropWatch();
        return;
      }
      var sinceFirstSent := Elapsed(nowMs, watch.awaitedSince);
      var sinceLastSent := Elapsed(nowMs, watch.lastSentAt);
      if sinceFirstSent > CMD_GIVEUP_MS {
        Push(CommandUnanswered(awaited));
        DropWatch();
        state.SetGotoPosition(0);
        return;
      }
      if sinceLastSent > CMD_CONFIRM_MS && watch.confirmRepeats < caps.unactedRepeats {
        watch := watch.(confirmRepeats := watch.confirmRepeats + 1);
        watch := watch.(repeat := awaited);
      }
    }

    /** The slot as this poll finds it: cancelled, expired, and a stop turned into what it means now. */
    method ReadSlot(nowMs: Millis) returns (cmd: Command)
      modifies this`events, this`watch, this`slot, state
      ensures CoreView() == old(CoreView()).Ready(nowMs).TakeStop()
      ensures cmd == old(CoreView()).Ready(nowMs).Offered()
    {
      CheckCommandEffect(nowMs);
      if slot.cancelWatch {
        slot := slot.(cancelWatch := false);
        DropWatch();
      }
      ghost var c := CoreView();
      assert c == old(CoreView()).CheckEffect(nowMs).HonourCancel();
      cmd := slot.next;
      if cmd != NoCommand && Elapsed(nowMs, slot.nextOn) > CMD_STALE_MS {
        Push(CommandStale(cmd));
        ClearIfStill(cmd);
        cmd := NoCommand;
      }
      assert CoreView() == c.Expire(nowMs);
      if cmd == Stop {
        cmd := if IsMoving(state.state) then Impulse else NoCommand;
        ClearIfStill(Stop);
      }
    }

    method ArmGoto()
      modifies this`slot, state
      ensures CoreView() == old(CoreView()).ArmGoto()
    {
      var wanted := slot.gotoRequest;
      slot := slot.(gotoRequest := -1);
      state.SetGotoPosition(if wanted < 0 then 0 else wanted);
    }

    method StartWatch(cmd: Command, nowMs: Millis)
      modifies this`watch
      ensures CoreView() == old(CoreView()).StartWatch(cmd, nowMs)
    {
      watch := watch.(repeat := NoCommand);
      watch := watch.(awaited := cmd, awaitedSince := nowMs);
      watch := watch.(confirmRepeats := 0, repeatsSent := 0, stateWritesWhenSent := stateWrites);
    }

    /** Takes up the armed repeat, if it still makes sense. */
    method ReadRepeat() returns (cmd: Command)
      modifies this`events, this`watch
      ensures var c := old(CoreView());
        CoreView() == c.ReadRepeat()
        && cmd == (if c.RepeatStillMakesSense() then c.watch.repeat else NoCommand)
    {
      cmd := NoCommand;
      if watch.repeat != NoCommand && RepeatStillMakesSense() {
        cmd := watch.repeat;
        watch := watch.(repeat := NoCommand);
      } else if watch.repeat != NoCommand {
        Push(CommandRepeatDropped);
        watch := watch.(repeat := NoCommand);
      }
    }

    method NoteSent(nowMs: Millis, cmd: Command, why: Event)
      modifies this`events, this`watch
      ensures CoreView() == old(CoreView()).NoteSent(nowMs, cmd, why)
    {
      if cmd != NoCommand {
        Push(why);
        watch := watch.(lastSentAt := nowMs);
      }
      watch := watch.(lastSent := cmd);
    }

    /** The command that goes out with this poll, taken from the slot or sent again. */
    method NextToSend(nowMs: Millis) returns (cmd: Command, isNew: bool)
      modifies this`events, this`watch, this`slot, state
      ensures var c := old(CoreView());
        && CoreView() == c.Chosen(nowMs)
        && (match c.Choose(nowMs)
            case Fresh(x) => isNew && cmd == x
            case Again(x) => !isNew && cmd == x
            case Nothing => !isNew && cmd == NoCommand)
    {
      hide Core.CheckEffect, Core.HonourCancel, Core.Expire;
      cmd := ReadSlot(nowMs);
      isNew := cmd != NoCommand;
      if isNew {
        ClearIfStill(cmd);
        ArmGoto();
        StartWatch(cmd, nowMs);
      } else {
        cmd := ReadRepeat();
      }
    }

    method SetCommandValuesToRead(nowMs: Millis)
      requires Valid()
      modifies this`events, this`watch, this`slot, state, regResp
      ensures CoreView() == old(CoreView()).Poll(nowMs)
      ensures var v := CommandValues(CoreView().watch.lastSent);
        regResp[..] == old(regResp[..])[2 := v.0][3 := v.1]
    {
      hide Core.Chosen, Core.Choose, CommandValues;
      var cmd, isNew := NextToSend(nowMs);
      NoteSent(nowMs, cmd, if isNew then CommandSent(cmd) else CommandRepeated(cmd));
      var v := CommandValues(cmd);
      regResp[2] := v.0;
      regResp[3] := v.1;
    }

    // ----- the delivery receipt -----

    method RearmLostCommand()
      modifies this`events, this`watch
      ensures CoreView() == old(CoreView()).Rearm()
    {
      var lost := watch.lastSent;
      if lost == NoCommand {
        return;
      }
      if slot.next != NoCommand {
        return;
      }
      if watch.repeatsSent >= caps.lostAnswerRepeats {
        Push(CommandResendGaveUp);
        watch := watch.(lastSent := NoCommand);
        return;
      }
      watch := watch.(repeatsSent := watch.repeatsSent + 1);
      watch := watch.(repeat := lost);
      watch := watch.(awaited := NoCommand, lastSent := NoCommand);
      Push(CommandResent(lost));
    }

    method SyncCounter(counterByte: Byte, command: Byte)
      modifies this`events, this`watch, this`receipt
      ensures CoreView() == old(CoreView()).SyncCounter(counterByte, command)
    {
      var rx := counterByte % 0x80;
      if !receipt.valid {
        receipt := receipt.(txCounter := rx, valid := true);
        return;
      }
      if rx != receipt.txCounter {
        if rx == receipt.txCounterPrev && command == CMD_STATUS {
          RearmLostCommand();
        }
        receipt := receipt.(txCounter := rx);
      }
    }

    method AdvanceCounter()
      modifies this`receipt
      ensures CoreView() == old(CoreView()).AdvanceCounter()
    {
      receipt := receipt.(txCounterPrev := receipt.txCounter);
      receipt := receipt.(txCounter := if receipt.txCounter == 0x7F then 1 else (receipt.txCounter + 1) % 0x100);
    }

    // ----- what the drive reports -----

    method OnDoorPositionChanged(was: Word, val: Word)
      requires was == regBcast[1]
      modifies this`gotoCheckPending, state
      ensures CoreView() == old(CoreView()).ReportPosition(val)
    {
      if was % 0x100 != val % 0x100 {
        state.SetCurrentPosition(val % 0x100);
        gotoCheckPending := true;
      }
      if was / 0x100 != val / 0x100 {
        state.SetTargetPosition(val / 0x100);
      }
    }

    method OnCurrentStateChanged(was: Word, val: Word)
      requires was == regBcast[2]
      modifies this`events, state
      ensures CoreView() == old(CoreView()).ShowState(val)
    {
      if was / 0x100 != val / 0x100 {
        Push(StateChanged(val / 0x100));
        var known := true;
        var next := Stopped;
        match val / 0x100 {
          case 0x01 => next := Opening;
          case 0x02 => next := Closing;
          case 0x20 => next := DoorOpen;
          case 0x40 => next := DoorClosed;
          case 0x80 => next := HalfOpen;
          case 0x09 => next := MoveVenting;
          case 0x05 => next := MoveHalf;
          case 0x0A => next := Venting;
          case 0x00 =>
            if val % 0x100 == 0x61 {
              next := Venting;
            }
          case _ => known := false;
        }
        if known {
          state.SetState(next);
        } else {
          Push(UnknownState(val / 0x100));
        }
      }
    }

    method OnFaultChanged(was: Word, val: Word)
      requires was == regBcast[6]
      modifies state
      ensures CoreView() == old(CoreView()).ReportFault(val)
    {
      if was / 0x100 != val / 0x100 {
        state.SetActuatorError(val / 0x1000 % 4 != 0);
        state.SetRelayOn(val / 0x100 == 0x02);
      }
    }

    method OnLightChanged(was: Word, val: Word)
      requires was == regBcast[6]
      modifies this`events, state
      ensures CoreView() == old(CoreView()).ReportLight(val)
    {
      var hi, lo := val / 0x100, val % 0x100;
      if was % 0x100 != lo {
        Push(RelayRegister(val));
        state.SetLightOn(lo == 0x14 || lo == 0x10);
        state.SetRelayOn(hi == 0x02 || lo == 0x14 || lo == 0x04);
      }
    }

    method WriteBcast(i: nat, val: Word)
      requires i < 9
      modifies this`events, this`gotoCheckPending, this`stateWrites, this`regBcast, state
      ensures CoreView() == old(CoreView()).WriteBcast(i, val)
    {
      var was := regBcast[i];
      if i == 1 {
        OnDoorPositionChanged(was, val);
      } else if i == 2 {
        if was != val {
          stateWrites := stateWrites + 1;
        }
        OnCurrentStateChanged(was, val);
      } else if i == 6 {
        OnFaultChanged(was, val);
        OnLightChanged(was, val);
      }
      regBcast := regBcast[i := val];
    }

    method CheckGotoTarget(nowMs: Millis)
      modifies this`events, this`gotoCheckPending, this`slot, state
      ensures CoreView() == old(CoreView()).CheckGotoTarget(nowMs)
    {
      if !gotoCheckPending {
        return;
      }
      gotoCheckPending := false;
      var target := state.gotoPosition;
      if target == 0 {
        return;
      }
      var now := state.state;
      var arrived := (now == Closing && 2 * target >= state.currentPosition)
                  || (now == Opening && 2 * target <= state.currentPosition);
      if !arrived {
        return;
      }
      var stopped := StopDoor(nowMs);
      if stopped {
        state.SetGotoPosition(0);
      }
    }

    // ----- the identity exchange -----

    method ArmIdentityRequest(request: Byte)
      modifies this`ident
      ensures ident == old(ident).Arm(request)
    {
      ident := ident.(wanted := request, attempts := 0);
      ident := ident.(askedOn := 0, asked := false, firstHalfSeen := false);
    }

    /** The bytes of a stretch of the command block. */
    method CopyRegsToBytes(firstReg: nat, regCount: nat) returns (out: seq<Byte>)
      requires Valid() && firstReg + regCount <= REG_CMD_COUNT
      ensures out == Wire(regCmd[firstReg..firstReg + regCount])
    {
      out := [];
      for i := 0 to regCount
        invariant out == Wire(regCmd[firstReg..firstReg + i])
      {
        var v := regCmd[firstReg + i];
        assert regCmd[firstReg..firstReg + i + 1][..i] == regCmd[firstReg..firstReg + i];
        out := out + [v / 0x100, v % 0x100];
      }
    }

    static method IdentityToText(data: seq<Byte>) returns (out: seq<Byte>)
      ensures out == Text(data)
    {
      out := [];
      var i := 0;
      while i < |data| && Printable(data[i])
        invariant i <= |data| && out + PrintablePrefix(data[i..]) == PrintablePrefix(data)
      {
        out := out + [data[i]];
        i := i + 1;
      }
      assert out == PrintablePrefix(data);
      while out != [] && out[|out| - 1] == 0x20
        invariant Trimmed(out) == Text(data)
        decreases |out|
      {
        out := out[..|out| - 1];
      }
    }

    method OnIdentityData(nowMs: Millis, counterByte: Byte, sub: Byte, count: nat) returns (kept: bool)
      requires Valid()
      requires sub == IDENT_SUB_SERIAL || sub == IDENT_SUB_FIRMWARE
      modifies this`ident, this`events
      ensures ident == old(ident).Receive(nowMs, regCmd[..], counterByte, sub, count)
      ensures kept == old(ident).Keeps(counterByte, sub, count)
      ensures events == old(events) + (if old(ident).KeepsFirmware(sub, count) then [IdentityFirmware]
                                       else if old(ident).KeepsSecondHalf(counterByte, sub, count) then [IdentitySerial]
                                       else [])
    {
      hide Text, Wire;
      kept := false;
      var answers := if sub == IDENT_SUB_SERIAL then IDENT_REQ_SERIAL else IDENT_REQ_FIRMWARE;
      if ident.wanted != answers {
        return;
      }
      var payloadRegs := if count > 2 then count - 2 else 0;
      if sub == IDENT_SUB_FIRMWARE && payloadRegs >= IDENT_FIRMWARE_LEN / 2 {
        var buf := CopyRegsToBytes(2, 6);
        assert regCmd[2..8] == regCmd[..][2..8];
        var text := IdentityToText(buf);
        ident := ident.(firmware := text, firmwareReady := true, wanted := 0);
        Push(IdentityFirmware);
        kept := true;
      } else if sub == IDENT_SUB_SERIAL {
        var firstHalf := counterByte >= 0x80;
        if firstHalf && payloadRegs >= SERIAL_FIRST_LEN / 2 {
          var half := CopyRegsToBytes(2, 7);
          assert regCmd[2..9] == regCmd[..][2..9];
          ident := ident.(serialBuf := half + ident.serialBuf[SERIAL_FIRST_LEN..]);
          ident := ident.(firstHalfSeen := true, askedOn := nowMs, asked := true);
          kept := true;
        } else if !firstHalf && ident.firstHalfSeen && payloadRegs >= SERIAL_SECOND_LEN / 2 {
          var half := CopyRegsToBytes(2, 6);
          assert regCmd[2..8] == regCmd[..][2..8];
          ident := ident.(serialBuf := ident.serialBuf[..SERIAL_FIRST_LEN] + half, firstHalfSeen := false);
          var text := IdentityToText(ident.serialBuf);
          ident := ident.(serial := text, serialReady := true);
          Push(IdentitySerial);
          ArmIdentityRequest(IDENT_REQ_FIRMWARE);
          kept := true;
        }
      }
    }

    // ----- answering a frame -----

    method OnCounterWrite(val: Word)
      requires Valid()
      modifies regResp
      ensures View() == old(View()).CounterWrite(val)
    {
      regResp[0] := OrWord(regResp[0], val / 0x100 % 0x80 * 0x100);
      regResp[1] := OrWord(regResp[1], val % 0x100 * 0x100);
    }

    method WriteCmd(i: nat, val: Word)
      requires Valid() && i < REG_CMD_COUNT
      modifies regCmd, regResp
      ensures regCmd[..] == old(regCmd[..])[i := val]
      ensures regResp[..] == if i == 0 then Mirror(old(regResp[..]), val) else old(regResp[..])
    {
      if i == 0 {
        OnCounterWrite(val);
      }
      regCmd[i] := val;
    }

    method AnswerTransfer(counterByte: Byte, code: Byte)
      requires Valid()
      modifies regResp
      ensures View() == old(View()).AnswerTransfer(counterByte, code)
    {
      for i := 2 to REG_RESP_COUNT
        invariant forall k :: 2 <= k < i ==> regResp[k] == 0x0000
      {
        regResp[i] := 0x0000;
      }
      regResp[0] := counterByte % 0x80 * 0x100;
      regResp[1] := 0x0400 + code;
      assert regResp[..] == [counterByte % 0x80 * 0x100, 0x0400 + code, 0, 0, 0, 0, 0, 0];
    }

    method OnWriteBlockComplete(nowMs: Millis, count: nat)
      requires Valid()
      modifies this`pause, this`ident, this`events, regResp
      ensures View() == old(View()).BlockComplete(nowMs, count)
    {
      if count < 2 {
        return;
      }
      var command := regCmd[0] % 0x100;
      if command != CMD_TRANSFER {
        return;
      }
      var counterByte, sub := regCmd[0] / 0x100, regCmd[1] / 0x100;
      if sub == IDENT_SUB_PAUSE_ACK {
        if count >= 3 {
          var named := regCmd[1] % 0x100 * 0x100 + regCmd[2] / 0x100;
          if named == SLAVE_ID {
            pause := pause.(confirmed := true);
          }
        }
        AnswerTransfer(counterByte, RESP_ACK);
        return;
      }
      if sub == IDENT_SUB_SERIAL || sub == IDENT_SUB_FIRMWARE {
        var kept := OnIdentityData(nowMs, counterByte, sub, count);
        AnswerTransfer(counterByte, if kept then RESP_ACK else RESP_NAK);
        return;
      }
      Push(UnknownTransferSub(sub));
      AnswerTransfer(counterByte, RESP_NAK);
    }

    method ClearAnswer()
      requires Valid()
      modifies regResp
      ensures regResp[..] == PLAIN_STATUS
    {
      for i := 0 to REG_RESP_COUNT
        invariant forall k :: 0 <= k < i ==> regResp[k] == 0x0000
      {
        regResp[i] := 0x0000;
      }
      regResp[1] := RESP_STATUS;
    }

    method LinkUp()
      modifies state
      ensures CoreView() == old(CoreView()).LinkUp()
    {
      state.SetValid(true);
      if !pause.requested {
        state.SetLink(Registered);
      }
    }

    method PutAnswer(code: Word, reg2: Word, reg3: Word)
      requires Valid()
      modifies regResp
      ensures regResp[..] == [0, code, reg2, reg3, 0, 0, 0, 0]
    {
      regResp[0], regResp[1], regResp[2], regResp[3] := 0x0000, code, reg2, reg3;
      regResp[4], regResp[5], regResp[6], regResp[7] := 0x0000, 0x0000, 0x0000, 0x0000;
    }

    /** A request for the next missing value, where one is due and no command went out. */
    method AskIdentity(nowMs: Millis)
      requires Valid()
      modifies this`ident, this`events, regResp
      ensures ident == old(ident).Ask(nowMs)
      ensures CoreView() == if old(ident).GivesUp(nowMs)
                            then old(CoreView()).Push(IdentityUnanswered(old(ident).wanted))
                            else old(CoreView())
      ensures regResp[..] == if old(ident).Asks(nowMs) then [0, RESP_REQUEST, old(ident).wanted * 0x100, 0, 0, 0, 0, 0]
                             else old(regResp[..])
    {
      var firstTry := !ident.asked;
      if ident.wanted != 0 && (firstTry || Elapsed(nowMs, ident.askedOn) > IDENT_RETRY_MS) {
        if ident.attempts >= IDENT_MAX_ATTEMPTS {
          Push(IdentityUnanswered(ident.wanted));
          ident := ident.(wanted := 0);
        } else {
          ident := ident.(attempts := ident.attempts + 1, askedOn := nowMs, asked := true);
          PutAnswer(RESP_REQUEST, ident.wanted * 0x100, 0x0000);
        }
      }
    }

    method AnswerPaused()
      requires Valid()
      modifies this`watch, state, regResp
      ensures View() == old(View()).(core := old(CoreView()).PausedPoll(),
                                     regResp := [0, RESP_PAUSE, SLAVE_ID, 0, 0, 0, 0, 0])
    {
      PutAnswer(RESP_PAUSE, SLAVE_ID, 0x0000);
      DropWatch();
      state.SetValid(true);
      state.SetLink(Paused);
    }

    method StartIdentity()
      modifies this`ident
      ensures ident == if !old(ident).started && caps.hasIdentity then old(ident).Start() else old(ident)
    {
      if !ident.started && caps.hasIdentity {
        ident := ident.(started := true);
        ArmIdentityRequest(IDENT_REQ_SERIAL);
      }
    }

    method RideAlong(nowMs: Millis)
      requires Valid()
      requires var v := CommandValues(watch.lastSent); regResp[..] == [0, RESP_STATUS, v.0, v.1, 0, 0, 0, 0]
      modifies this`events, this`ident, state, regResp
      ensures View() == old(View()).RideAlong(nowMs)
    {
      hide CommandValues;
      ghost var v := CommandValues(watch.lastSent);
      assert regResp[2] == v.0 && regResp[3] == v.1 && v == (v.0, v.1);
      StartIdentity();
      if regResp[2] == 0x0000 && regResp[3] == 0x0000 {
        AskIdentity(nowMs);
      }
      ghost var m := old(View());
      ghost var id := if !m.ident.started && m.core.caps.hasIdentity then m.ident.Start() else m.ident;
      assert ident == if v == (0, 0) then id.Ask(nowMs) else id;
      assert regResp[..] == if v == (0, 0) && id.Asks(nowMs) then [0, RESP_REQUEST, id.wanted * 0x100, 0, 0, 0, 0, 0]
                       else [0, RESP_STATUS, v.0, v.1, 0, 0, 0, 0];
      assert CoreView() == (if v == (0, 0) && id.GivesUp(nowMs)
        then m.core.Push(IdentityUnanswered(id.wanted)) else m.core);
      LinkUp();
      assert regCmd[..] == m.regCmd;
    }

    method AnswerStatusPoll(nowMs: Millis)
      requires Valid()
      modifies this`events, this`watch, this`slot, this`ident, state, regResp
      ensures View() == old(View()).StatusPoll(nowMs)
    {
      hide Core.Poll, CommandValues, Model.RideAlong;
      if pause.requested {
        AnswerPaused();
        return;
      }
      ghost var m := View();
      PutAnswer(RESP_STATUS, 0x0000, 0x0000);
      SetCommandValuesToRead(nowMs);
      ghost var v := CommandValues(watch.lastSent);
      assert regResp[..] == [0, RESP_STATUS, v.0, v.1, 0, 0, 0, 0];
      RideAlongForgets(m.(core := m.core.Poll(nowMs)), regResp[..], nowMs);
      RideAlong(nowMs);
    }

    method ReportUnknownShape(nowMs: Millis, c1: nat, c2: nat)
      requires Valid()
      modifies this`events, this`shape
      ensures View() == old(View()).NoteShape(nowMs, c1, c2)
    {
      var sameShape := shape.seen && shape.readCnt == c1 && shape.writeCnt == c2;
      if sameShape && Elapsed(nowMs, shape.loggedOn) < UNKNOWN_SHAPE_REPEAT_MS {
        return;
      }
      shape := Shape(true, c1, c2, nowMs);
      Push(UnanswerableFrame(c1, c2));
    }

    method OnRequestHook(nowMs: Millis, fc: Byte, c1: nat, c2: nat, command: Byte)
      requires Valid()
      requires fc == 0x17 || fc == 0x10
      modifies this`events, this`watch, this`slot, this`ident, this`shape, state, regResp
      ensures fc == 0x17 ==> View() == old(View()).Hook(nowMs, c1, c2, command)
      ensures fc == 0x10 ==> View() == old(View()).(core := old(CoreView()).LinkUp())
    {
      ghost var m := View();
      if fc == 0x17 && c2 == 2 && c1 == 8 && command == CMD_STATUS {
        AnswerStatusPoll(nowMs);
        return;
      } else if fc == 0x17 && c2 == 2 && c1 == 2 {
        regResp[0], regResp[1] := 0x0004, 0x0000;
        Push(EmptyCommand);
      } else if fc == 0x17 && c2 == 3 && c1 == 5 {
        Push(BusScan);
        regResp[0], regResp[1], regResp[2], regResp[3], regResp[4] := 0x0000, 0x0005, 0x0430, 0x10FF, 0xA845;
        assert regResp[..] == [0x0000, 0x0005, 0x0430, 0x10FF, 0xA845] + m.regResp[5..];
      } else if fc == 0x17 && c2 >= 3 {
        ClearAnswer();
      } else if fc == 0x17 {
        ClearAnswer();
        ReportUnknownShape(nowMs, c1, c2);
      }
      LinkUp();
    }

    method WriteCmds(raw: seq<Byte>, writeCnt: nat)
      requires Valid() && 1 <= writeCnt <= REG_CMD_COUNT && 11 + 2 * writeCnt <= |raw|
      modifies regCmd, regResp
      ensures View() == old(View()).WriteCmds(Registers(raw, 11, writeCnt))
    {
      hide Mirror, Registers, Rd16;
      ghost var m := View();
      ghost var words := Registers(raw, 11, writeCnt);
      for i := 0 to writeCnt
        invariant regCmd[..] == words[..i] + m.regCmd[i..]
        invariant regResp[..] == if i == 0 then m.regResp else Mirror(m.regResp, words[0])
      {
        LandsNext(words, m.regCmd, i);
        WriteCmd(i, Rd16(raw, 11 + 2 * i));
      }
      assert words[..writeCnt] == words;
    }

    method WriteBcasts(raw: seq<Byte>, cnt: nat)
      requires cnt <= REG_BCAST_COUNT && 7 + 2 * cnt <= |raw|
      modifies this`events, this`gotoCheckPending, this`stateWrites, this`regBcast, state
      ensures CoreView() == old(CoreView()).WriteFrom(Registers(raw, 7, cnt), 0)
    {
      ghost var c := CoreView();
      ghost var words := Registers(raw, 7, cnt);
      for i := 0 to cnt
        invariant CoreView().WriteFrom(words, i) == c.WriteFrom(words, 0)
      {
        WriteBcast(i, Rd16(raw, 7 + 2 * i));
      }
    }

    method PutRegisters(resp: array<Byte>, readCnt: nat)
      requires Valid() && readCnt <= REG_RESP_COUNT && resp.Length >= 3 + 2 * readCnt
      modifies resp
      ensures resp[..3 + 2 * readCnt] == old(resp[..3]) + Wire(regResp[..readCnt])
    {
      ghost var head := resp[..3];
      var n := 3;
      for i := 0 to readCnt
        invariant n == 3 + 2 * i
        invariant resp[..n] == head + Wire(regResp[..i])
      {
        var v := regResp[i];
        resp[n] := v / 0x100;
        resp[n + 1] := v % 0x100;
        n := n + 2;
        assert regResp[..i + 1][..i] == regResp[..i];
        assert resp[..n] == head + Wire(regResp[..i]) + [v / 0x100, v % 0x100];
      }
    }

    /** The counter comes before the hook: a repeated one may arm a re-send that this very poll can carry. */
    method ReadReceipt(nowMs: Millis, counterByte: Byte, command: Byte)
      modifies this`events, this`watch, this`receipt
      ensures CoreView() == old(CoreView()).SyncCounter(counterByte, command).ForgetSent()
    {
      SyncCounter(counterByte, command);
      watch := watch.(lastSent := NoCommand);
    }

    method ApplyWrites(nowMs: Millis, raw: seq<Byte>, writeCnt: nat)
      requires Valid()
      requires 1 <= writeCnt <= REG_CMD_COUNT && 11 + 2 * writeCnt <= |raw|
      modifies this`pause, this`ident, this`events, this`receipt, regCmd, regResp
      ensures View() == old(View()).Applied(nowMs, Registers(raw, 11, writeCnt))
    {
      WriteCmds(raw, writeCnt);
      OnWriteBlockComplete(nowMs, writeCnt);
      AdvanceCounter();
    }

    method Exchange(nowMs: Millis, raw: seq<Byte>, readCnt: nat, writeCnt: nat)
      requires Valid()
      requires 1 <= writeCnt <= REG_CMD_COUNT && 11 + 2 * writeCnt <= |raw|
      modifies this, state, regCmd, regResp
      ensures View() == old(View()).Exchange(nowMs, readCnt, Registers(raw, 11, writeCnt))
    {
      hide Model.Hook, Model.Applied;
      ghost var m := View();
      assert Registers(raw, 11, writeCnt)[0] == Rd16(raw, 11);
      ReadReceipt(nowMs, raw[11], raw[12]);
      ghost var r := View();
      assert r == m.(core := m.core.SyncCounter(raw[11], raw[12]).ForgetSent());
      OnRequestHook(nowMs, 0x17, readCnt, writeCnt, raw[12]);
      ApplyWrites(nowMs, raw, writeCnt);
    }

    method PutAnswerFrame(raw: seq<Byte>, resp: array<Byte>) returns (n: nat)
      requires Valid() && resp.Length >= HCP2_MAX_FRAME && |raw| >= 6 && Rd16(raw, 4) <= REG_RESP_COUNT
      modifies resp
      ensures n <= resp.Length
      ensures resp[..n] == View().AnswerTo(raw)
    {
      hide Finished, Wire;
      var readCnt := Rd16(raw, 4);
      resp[0], resp[1], resp[2] := raw[0], raw[1], readCnt * 2;
      PutRegisters(resp, readCnt);
      ghost var body := [raw[0], raw[1], readCnt * 2] + Wire(regResp[..readCnt]);
      assert resp[..3 + 2 * readCnt] == body;
      n := Finish(resp, 3 + 2 * readCnt, HCP2_MAX_FRAME);
    }

    method ReadWrite(nowMs: Millis, raw: seq<Byte>, resp: array<Byte>) returns (n: nat)
      requires Valid() && resp.Length >= HCP2_MAX_FRAME
      requires Accepted(raw) && raw[0] != 0 && raw[1] == 0x17
      modifies this, state, regCmd, regResp, resp
      ensures n <= resp.Length
      ensures (View(), resp[..n]) == old(View()).ReadWrite(nowMs, raw)
    {
      if |raw| - 2 < 11 {
        return 0;
      }
      var readAddr, writeAddr := Rd16(raw, 2), Rd16(raw, 6);
      if readAddr != REG_RESP_BASE || writeAddr != REG_CMD_BASE {
        Push(WrongRegisterBlock(readAddr, writeAddr));
        return 0;
      }
      if !CountsAgree(raw) {
        return 0;
      }
      Exchange(nowMs, raw, Rd16(raw, 4), Rd16(raw, 8));
      n := PutAnswerFrame(raw, resp);
    }

    method Report(nowMs: Millis, raw: seq<Byte>, cnt: nat)
      requires cnt <= REG_BCAST_COUNT && 7 + 2 * cnt <= |raw|
      modifies this`events, this`gotoCheckPending, this`stateWrites, this`regBcast, this`slot, state
      ensures CoreView() == old(CoreView()).Report(nowMs, Registers(raw, 7, cnt))
    {
      LinkUp();
      WriteBcasts(raw, cnt);
      CheckGotoTarget(nowMs);
    }

    method Broadcast(nowMs: Millis, raw: seq<Byte>, resp: array<Byte>) returns (n: nat)
      requires Valid() && resp.Length >= HCP2_MAX_FRAME
      requires Accepted(raw) && raw[1] == 0x10
      modifies this, state, resp
      ensures n <= resp.Length
      ensures (View(), resp[..n]) == old(View()).Broadcast(nowMs, raw)
    {
      if |raw| - 2 < 7 {
        return 0;
      }
      if Rd16(raw, 2) != REG_BCAST_BASE {
        Push(WrongBroadcastBlock(Rd16(raw, 2)));
        return 0;
      }
      if !ReportAgrees(raw) {
        return 0;
      }
      Report(nowMs, raw, Rd16(raw, 4));
      n := Acknowledge(raw, resp);
    }

    method Acknowledge(raw: seq<Byte>, resp: array<Byte>) returns (n: nat)
      requires resp.Length >= HCP2_MAX_FRAME && |raw| >= 6
      modifies resp
      ensures n <= resp.Length && resp[..n] == Finished(raw[..6])
    {
      for i := 0 to 6
        invariant resp[..i] == raw[..i]
      {
        resp[i] := raw[i];
      }
      n := Finish(resp, 6, HCP2_MAX_FRAME);
    }

    method Hear(nowMs: Millis)
      modifies this`lastFrameOn, state
      ensures CoreView() == old(CoreView()).Heard(nowMs)
    {
      // 0 is kept for a bus on which nothing has been heard.
      lastFrameOn := if nowMs == 0 then 1 else nowMs;
      if state.link == NeverSeen {
        state.SetLink(Enumerating);
      }
    }

    /** Puts the answer to a received frame into `resp` and returns its length, 0 for none. */
    method OnFrame(nowMs: Millis, raw: seq<Byte>, resp: array<Byte>) returns (n: nat)
      requires Valid() && resp.Length >= HCP2_MAX_FRAME
      modifies this, state, regCmd, regResp, resp
      ensures n <= resp.Length
      ensures (View(), resp[..n]) == old(View()).OnFrame(nowMs, raw)
    {
      hide Model.ReadWrite, Model.Broadcast, Core.Heard;
      var len := ValidateFrame(raw);
      if len == 0 {
        return 0;
      }
      Hear(nowMs);
      var fc := raw[1];
      if raw[0] == 0x00 && fc == 0x17 {
        return 0;
      }
      if fc == 0x17 {
        n := ReadWrite(nowMs, raw, resp);
        return;
      }
      if fc == 0x10 {
        n := Broadcast(nowMs, raw, resp);
        return;
      }
      return 0;
    }
  }
}
