/** The codec of the older bus, updating its fields in place as frames and presses arrive. */
module Hcp1Codec {
  import opened HcpTypes
  import opened HcpState
  import opened Hcp1Frame
  import opened Hcp1Model

  class Hcp1Codec {
    const state: HoermannState
    var addressed: bool
    var pending: Command
    var pendingAt: Millis
    var lastSent: Command
    var lastSentAt: Millis
    var lastFrameAt: Millis
    var events: seq<Event>

    ghost function View(): Bus1
      reads this, state
    {
      Bus1(state.View(), addressed, pending, pendingAt, lastSent, lastSentAt, lastFrameAt, events)
    }

    constructor ()
      ensures View() == NEW_BUS && fresh(state)
    {
      state := new HoermannState();
      addressed, pending, pendingAt := false, NoCommand, 0;
      lastSent, lastSentAt, lastFrameAt, events := NoCommand, 0, 0, [];
    }

    method Push(e: Event)
      modifies this`events
      ensures View() == old(View()).Push(e)
    {
      events := events + [e];
    }

    method Submit(nowMs: Millis, cmd: Command) returns (ok: bool)
      modifies this`events, this`pending, this`pendingAt
      ensures View() == old(View()).Submit(nowMs, cmd) && ok == old(View()).Takes(cmd)
    {
      if cmd != Stop && CommandByte(cmd) == 0 {
        return false;
      }
      if !addressed {
        Push(CommandStale(cmd));
        return false;
      }
      // Stamp before slot.
      pendingAt := nowMs;
      pending := cmd;
      return true;
    }

    method TurnLight(nowMs: Millis, on: bool) returns (ok: bool)
      modifies this`events, this`pending, this`pendingAt
      ensures View() == old(View()).TurnLight(nowMs, on)
      ensures ok == (on == old(state.lightOn) || old(View()).Takes(old(View()).LightCommand(on)))
    {
      if on == state.lightOn {
        return true;
      }
      ok := Submit(nowMs, if on then LightOn else LightOff);
    }

    method SetPosition(nowMs: Millis, percent: int) returns (ok: bool)
      modifies this`events, this`pending, this`pendingAt
      ensures View() == old(View()).SetPosition(nowMs, percent)
      ensures ok == old(View()).Takes(old(View()).PositionCommand(percent))
    {
      if percent <= 5 {
        ok := Submit(nowMs, Close);
        return;
      }
      if percent >= 95 {
        ok := Submit(nowMs, Open);
        return;
      }
      return false;
    }

    method StopDoor(nowMs: Millis) returns (ok: bool)
      modifies this`events, this`pending, this`pendingAt
      ensures View() == old(View()).StopDoor(nowMs) && ok == old(addressed)
    {
      if !addressed {
        Push(CommandRefusedNoLink(Stop));
        return false;
      }
      pendingAt := nowMs;
      pending := Stop;
      return true;
    }

    method CheckBusSilence(nowMs: Millis)
      modifies this`pending, this`addressed, state
      ensures View() == old(View()).CheckSilence(nowMs)
    {
      if lastFrameAt == 0 {
        return;
      }
      if Elapsed(nowMs, lastFrameAt) > BUS_SILENCE_MS {
        state.SetValid(false);
        state.SetLink(Silent);
        pending := NoCommand;
        addressed := false;
      }
    }

    method DecodeState(d0: Byte) returns (next: DoorState)
      ensures next == Reported(d0)
    {
      if BcMoving(d0) {
        next := if BcClosing(d0) then Closing else Opening;
      } else if BcVenting(d0) {
        next := Venting;
      } else if BcOpen(d0) {
        next := DoorOpen;
      } else if BcClosed(d0) {
        next := DoorClosed;
      } else {
        next := Stopped;
      }
    }

    method ApplyBroadcast(data: seq<Byte>)
      modifies this`events, state
      ensures View() == old(View()).ApplyBroadcast(data)
    {
      hide Reported, WithLamps, AtTheEnds;
      if |data| < 2 {
        return;
      }
      var d0 := data[0];
      var next := DecodeState(d0);
      if next != state.state {
        Push(StateChanged(d0));
      }
      state.SetState(next);
      ShowLamps(d0);
      ShowEnds(next);
      state.SetValid(true);
    }

    method ShowLamps(d0: Byte)
      modifies state
      ensures state.View() == WithLamps(old(state.View()), d0)
    {
      hide BcLight, BcRelay, BcError;
      state.SetLightOn(BcLight(d0));
      state.SetRelayOn(BcRelay(d0));
      state.SetActuatorError(BcError(d0));
    }

    method ShowEnds(next: DoorState)
      modifies state
      ensures state.View() == AtTheEnds(old(state.View()), next)
    {
      if next == DoorOpen {
        state.SetCurrentPosition(FULLY_OPEN);
      } else if next == DoorClosed {
        state.SetCurrentPosition(0);
      }
    }

    method AnswerScan(counter: Byte, out: array<Byte>) returns (n: nat)
      requires out.Length >= HCP1_MAX_FRAME
      modifies out
      ensures n <= out.Length
      ensures out[..n] == Built(HCP1_ADDR_MASTER, NextCounter(counter), [HCP1_TYPE_UAP1, HCP1_ADDR_SELF])
    {
      n := Build(out, HCP1_MAX_FRAME, HCP1_ADDR_MASTER, NextCounter(counter), [HCP1_TYPE_UAP1, HCP1_ADDR_SELF]);
    }

    /** Takes what is pending, whether it still goes out or not. */
    method TakePending(nowMs: Millis) returns (doThis: Byte)
      modifies this`events, this`pending, this`lastSent, this`lastSentAt
      ensures View() == old(View()).Status(nowMs) && doThis == CommandByte(old(View()).Tells(nowMs))
    {
      hide Elapsed;
      doThis := 0;
      var queued := pending;
      if queued != NoCommand {
        if Elapsed(nowMs, pendingAt) > CMD_STALE_MS {
          Push(CommandStale(queued));
        } else {
          var cmd := queued;
          if cmd == Stop {
            cmd := if IsMoving(state.state) then Impulse else NoCommand;
          }
          doThis := CommandByte(cmd);
          if doThis != 0 {
            Push(CommandSent(cmd));
            lastSent := cmd;
            lastSentAt := nowMs;
          }
        }
        pending := NoCommand;
      }
    }

    method AnswerStatus(nowMs: Millis, counter: Byte, out: array<Byte>) returns (n: nat)
      requires out.Length >= HCP1_MAX_FRAME
      modifies this`events, this`pending, this`lastSent, this`lastSentAt, out
      ensures n <= out.Length
      ensures View() == old(View()).Status(nowMs)
      ensures out[..n] == Built(HCP1_ADDR_MASTER, NextCounter(counter),
        [HCP1_CMD_STATUS_RESPONSE, CommandByte(old(View()).Tells(nowMs)), HCP1_S0_HEALTHY])
    {
      hide Bus1.Status, Bus1.Tells, Built;
      var doThis := TakePending(nowMs);
      n := Build(out, HCP1_MAX_FRAME, HCP1_ADDR_MASTER, NextCounter(counter),
                 [HCP1_CMD_STATUS_RESPONSE, doThis, HCP1_S0_HEALTHY]);
    }

    method Hear(nowMs: Millis)
      modifies this`lastFrameAt, state
      ensures View() == old(View()).Heard(nowMs)
    {
      lastFrameAt := if nowMs == 0 then 1 else nowMs;
      if state.link == NeverSeen {
        state.SetLink(Enumerating);
      }
    }

    /** What becomes of a frame that parsed; the result is 0 where nothing is sent back. */
    method Dispatch(nowMs: Millis, f: Frame, out: array<Byte>) returns (n: nat)
      requires out.Length >= HCP1_MAX_FRAME
      modifies this, state, out
      ensures n <= out.Length
      ensures var (c, data) := old(View()).OnParsed(nowMs, f);
        && View() == c
        && out[..n] == (match data
                        case None => []
                        case Some(d) => if |d| < 16 then Built(HCP1_ADDR_MASTER, NextCounter(f.counter), d) else [])
    {
      hide Built, Bus1.Status, Bus1.ApplyBroadcast, Bus1.Tells;
      n := 0;
      if f.address == HCP1_ADDR_BROADCAST {
        if addressed {
          ApplyBroadcast(f.data);
        }
        return;
      }
      if f.address != HCP1_ADDR_SELF || |f.data| < 1 {
        return;
      }
      if f.data[0] == HCP1_CMD_SCAN {
        addressed := true;
        Push(BusScan);
        n := AnswerScan(f.counter, out);
      } else if f.data[0] == HCP1_CMD_STATUS_REQUEST {
        if !addressed {
          return;
        }
        state.SetLink(Registered);
        n := AnswerStatus(nowMs, f.counter, out);
      } else {
        Push(UnknownTransferSub(f.data[0]));
      }
    }

    /** Answers one frame, or stays quiet with 0. */
    method OnFrame(nowMs: Millis, buf: seq<Byte>, out: array<Byte>) returns (n: nat)
      requires out.Length >= HCP1_MAX_FRAME
      modifies this, state, out
      ensures n <= out.Length
      ensures (View(), out[..n]) == old(View()).OnFrame(nowMs, buf)
    {
      hide Parse, Bus1.OnParsed, Bus1.Heard, Built;
      var r := ParseFrame(buf);
      if r.None? {
        return 0;
      }
      Hear(nowMs);
      n := Dispatch(nowMs, r.value, out);
    }
  }
}
