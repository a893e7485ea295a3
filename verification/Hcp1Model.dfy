/** The older bus as a function: a frame and the codec's state give an answer and the next state. */
module Hcp1Model {
  import opened HcpTypes
  import opened HcpState
  import opened Hcp1Frame

  const HCP1_CMD_SCAN: Byte := 0x01
  const HCP1_CMD_STATUS_REQUEST: Byte := 0x20
  const HCP1_CMD_STATUS_RESPONSE: Byte := 0x29
  const HCP1_TYPE_UAP1: Byte := 0x14

  const HCP1_DO_OPEN: Byte := 0x01
  const HCP1_DO_CLOSE: Byte := 0x02
  const HCP1_DO_IMPULSE: Byte := 0x04
  const HCP1_DO_LIGHT: Byte := 0x08
  const HCP1_DO_VENT: Byte := 0x10

  // Set unless the emergency stop is pressed.
  const HCP1_S0_HEALTHY: Byte := 0x10

  /** The end of travel, in the half percents positions are kept in. */
  const FULLY_OPEN: Byte := 200

  // What the bits of a broadcast's first byte stand for.
  predicate BcOpen(b: Byte) { b % 2 == 1 }
  predicate BcClosed(b: Byte) { b / 0x02 % 2 == 1 }
  predicate BcRelay(b: Byte) { b / 0x04 % 2 == 1 }
  predicate BcLight(b: Byte) { b / 0x08 % 2 == 1 }
  predicate BcError(b: Byte) { b / 0x10 % 2 == 1 }
  predicate BcClosing(b: Byte) { b / 0x20 % 2 == 1 }
  predicate BcMoving(b: Byte) { b / 0x40 % 2 == 1 }
  predicate BcVenting(b: Byte) { b / 0x80 % 2 == 1 }

  function Reported(b: Byte): DoorState {
    if BcMoving(b) then (if BcClosing(b) then Closing else Opening)
    else if BcVenting(b) then Venting
    else if BcOpen(b) then DoorOpen
    else if BcClosed(b) then DoorClosed
    else Stopped
  }

  function WithLamps(d: Door, b: Byte): Door {
    d.(lightOn := BcLight(b), relayOn := BcRelay(b), changed := true).SetActuatorError(BcError(b))
  }

  /** A broadcast without a position still gives one where the door is fully open or closed. */
  function AtTheEnds(d: Door, s: DoorState): Door {
    if s == DoorOpen then d.(current := FULLY_OPEN, changed := true)
    else if s == DoorClosed then d.(current := 0, changed := true)
    else d
  }

  function CommandByte(cmd: Command): Byte {
    match cmd
    case Open => HCP1_DO_OPEN
    case Close => HCP1_DO_CLOSE
    case Impulse => HCP1_DO_IMPULSE
    case Vent => HCP1_DO_VENT
    // The same bit for both, as it only switches over.
    case LightOn => HCP1_DO_LIGHT
    case LightOff => HCP1_DO_LIGHT
    case _ => 0
  }

  datatype Bus1 = Bus1(
    door: Door,
    addressed: bool,
    pending: Command,
    pendingAt: Millis,
    lastSent: Command,
    lastSentAt: Millis,
    lastFrameAt: Millis,
    log: seq<Event>)
  {
    function Push(e: Event): Bus1 {
      this.(log := log + [e])
    }

    /** Something this bus can say, and somebody to say it to. */
    predicate Takes(cmd: Command) {
      (cmd == Stop || CommandByte(cmd) != 0) && addressed
    }

    function Submit(now: Millis, cmd: Command): Bus1 {
      if cmd != Stop && CommandByte(cmd) == 0 then this
      else if !addressed then Push(CommandStale(cmd))
      else this.(pendingAt := now, pending := cmd)
    }

    function LightCommand(on: bool): Command {
      if on == door.lightOn then NoCommand else if on then LightOn else LightOff
    }

    function TurnLight(now: Millis, on: bool): Bus1 {
      if on == door.lightOn then this else Submit(now, LightCommand(on))
    }

    function PositionCommand(percent: int): Command {
      if percent <= 5 then Close else if percent >= 95 then Open else NoCommand
    }

    function SetPosition(now: Millis, percent: int): Bus1 {
      Submit(now, PositionCommand(percent))
    }

    function StopDoor(now: Millis): Bus1 {
      if !addressed then Push(CommandRefusedNoLink(Stop)) else this.(pendingAt := now, pending := Stop)
    }

    predicate Gone(now: Millis) {
      lastFrameAt != 0 && Elapsed(now, lastFrameAt) > BUS_SILENCE_MS
    }

    function CheckSilence(now: Millis): Bus1 {
      if Gone(now)
      then this.(door := door.SetValid(false).SetLink(Silent), pending := NoCommand, addressed := false)
      else this
    }

    function ApplyBroadcast(data: seq<Byte>): Bus1 {
      if |data| < 2 then this
      else
        var s := Reported(data[0]);
        var c := if s != door.state then Push(StateChanged(data[0])) else this;
        c.(door := AtTheEnds(WithLamps(door.SetState(s), data[0]), s).SetValid(true))
    }

    predicate Stale(now: Millis) {
      pending != NoCommand && Elapsed(now, pendingAt) > CMD_STALE_MS
    }

    /** What a status answer asks of the door: a press that is not stale, a stop as what it means now. */
    function Tells(now: Millis): Command {
      var cmd := if pending != Stop then pending else if IsMoving(door.state) then Impulse else NoCommand;
      if Stale(now) || CommandByte(cmd) == 0 then NoCommand else cmd
    }

    function Status(now: Millis): Bus1 {
      var c := if Stale(now) then Push(CommandStale(pending))
               else if Tells(now) != NoCommand
               then Push(CommandSent(Tells(now))).(lastSent := Tells(now), lastSentAt := now)
               else this;
      // Taken out whether or not it was said.
      c.(pending := NoCommand)
    }

    function Heard(now: Millis): Bus1 {
      var c := this.(lastFrameAt := if now == 0 then 1 else now);
      if door.link == NeverSeen then c.(door := door.SetLink(Enumerating)) else c
    }

    /** What becomes of a frame that parsed, and the data it is answered with, if at all. */
    function OnParsed(now: Millis, f: Frame): (Bus1, Option<seq<Byte>>) {
      if f.address == HCP1_ADDR_BROADCAST then
        (if addressed then ApplyBroadcast(f.data) else this, None)
      else if f.address != HCP1_ADDR_SELF || |f.data| < 1 then (this, None)
      else if f.data[0] == HCP1_CMD_SCAN then
        (this.(addressed := true).Push(BusScan), Some([HCP1_TYPE_UAP1, HCP1_ADDR_SELF]))
      else if f.data[0] == HCP1_CMD_STATUS_REQUEST then
        if !addressed then (this, None)
        else
          var c := this.(door := door.SetLink(Registered));
          (c.Status(now), Some([HCP1_CMD_STATUS_RESPONSE, CommandByte(c.Tells(now)), HCP1_S0_HEALTHY]))
      else (Push(UnknownTransferSub(f.data[0])), None)
    }

    /** What a received frame makes of the codec, and its answer, which is empty where there is none. */
    function OnFrame(now: Millis, raw: seq<Byte>): (Bus1, seq<Byte>) {
      match Parse(raw)
      case None => (this, [])
      case Some(f) =>
        var (c, data) := Heard(now).OnParsed(now, f);
        match data
        case None => (c, [])
        case Some(d) => if |d| < 16 then (c, Built(HCP1_ADDR_MASTER, NextCounter(f.counter), d)) else (c, [])
    }
  }

  const NEW_BUS := Bus1(NEW_DOOR, false, NoCommand, 0, NoCommand, 0, 0, [])

  /** Each command has a bit of its own, but for the two directions of the light. */
  lemma CommandBitsAreTold(a: Command, b: Command)
    ensures CommandByte(a) == CommandByte(b) != 0 ==> a == b || {a, b} == {LightOn, LightOff}
    ensures CommandByte(a) == 0 <==> a == NoCommand || a == Half || a == Stop
  {
  }
}
