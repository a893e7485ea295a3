/**
 * The drive of the simulation as an object, with its door: it owns the clock,
 * reports, polls, holds its counter until an answer has arrived, obeys what the
 * answer says, and serves a request for its identity. Whatever a scenario does
 * with it and its accessory is a session.
 */
module SimDrive {
  import opened HcpTypes
  import opened Lifecycle
  import opened Hcp2Frame
  import opened Hcp2Model
  import opened Hcp2Codec
  import opened Replies
  import Runs
  import opened Traffic
  import opened DriveRuns
  import Session

  const POLL_MS := 200
  const QUIET_MS := 500

  /** The counter starts at 1 and the clock a second in. */
  const STARTS_AT := 1000

  // ----- the door -----

  const ST_STOPPED: Byte := 0x00
  const ST_OPENING: Byte := 0x01
  const ST_CLOSING: Byte := 0x02
  const ST_OPEN: Byte := 0x20
  const ST_CLOSED: Byte := 0x40
  const ST_MOVE_VENTING: Byte := 0x09
  const ST_VENT: Byte := 0x0A
  const ST_MOVE_HALF: Byte := 0x05
  const ST_HALFOPEN: Byte := 0x80

  // The orders, as the drive reads them out of the two registers of an answer.
  const CMD_OPEN: (Word, Word) := (0x0110, 0x0000)
  const CMD_CLOSE: (Word, Word) := (0x0120, 0x0000)
  const CMD_IMPULSE: (Word, Word) := (0x0140, 0x0000)
  const CMD_HALF: (Word, Word) := (0x0100, 0x0400)
  const CMD_VENT: (Word, Word) := (0x0100, 0x4000)
  const CMD_LIGHT_ON: (Word, Word) := (0x0880, 0x0000)
  const CMD_LIGHT_OFF: (Word, Word) := (0x0800, 0x0100)

  /** Five of the two hundred counts a round. */
  const STEP := 5

  type Position = n: int | 0 <= n <= 200

  datatype SimDoor = SimDoor(position: Position, state: Byte, light: bool)
  {
    predicate Moving() {
      state == ST_OPENING || state == ST_CLOSING || state == ST_MOVE_VENTING || state == ST_MOVE_HALF
    }

    function Up(n: nat): Position {
      if position + n > 200 then 200 else position + n
    }

    function Down(n: nat): Position {
      if position - n < 0 then 0 else position - n
    }

    /** One step towards a named position, and to rest at it. */
    function Nearing(target: Position, arrived: Byte): SimDoor
      requires 2 * STEP <= target <= 200 - STEP
    {
      var up := target > position;
      var next := if up then position + STEP else position - STEP;
      if up == (next >= target) then this.(position := target, state := arrived) else this.(position := next)
    }

    function Advance(): SimDoor {
      if state == ST_OPENING then
        this.(position := Up(STEP), state := if Up(STEP) == 200 then ST_OPEN else state)
      else if state == ST_CLOSING then
        this.(position := Down(STEP), state := if Down(STEP) == 0 then ST_CLOSED else state)
      else if state == ST_MOVE_VENTING then Nearing(25, ST_VENT)
      else if state == ST_MOVE_HALF then Nearing(100, ST_HALFOPEN)
      else this
    }

    /** A wall button stops a moving door and sends a standing one away from where it is. */
    function Pushed(): SimDoor {
      this.(state := if Moving() then ST_STOPPED else if position == 200 then ST_CLOSING else ST_OPENING)
    }

    function Apply(order: (Word, Word)): SimDoor {
      if order == CMD_OPEN then this.(state := if state == ST_OPEN then state else ST_OPENING)
      else if order == CMD_CLOSE then this.(state := if state == ST_CLOSED then state else ST_CLOSING)
      else if order == CMD_IMPULSE then Pushed()
      else if order == CMD_VENT then this.(state := if state == ST_VENT then state else ST_MOVE_VENTING)
      else if order == CMD_HALF then this.(state := if state == ST_HALFOPEN then state else ST_MOVE_HALF)
      else if order == CMD_LIGHT_ON then this.(light := true)
      else if order == CMD_LIGHT_OFF then this.(light := false)
      else this
    }

    function Report(): seq<Byte> {
      Finished([0x00, 0x10, 0x9D, 0x31, 0x00, 9, 18,
                0, 0, 0, position, state, 0, 0, 0, 0, 0, 0, 0, 0, if light then 0x10 else 0x00, 0, 0, 0, 0])
    }
  }

  /** A report is no exchange: nobody answers it with registers. */
  lemma ReportIsNoExchange(d: SimDoor)
    ensures !Answerable(d.Report())
  {
    hide Validate, Crc16.Crc;
    assert d.Report()[1] == 0x10;
  }

  // ----- the drive and its accessory -----

  type SerialText = s: seq<Byte> | |s| >= 26 witness seq(26, _ => 0x30)
  type FirmwareText = s: seq<Byte> | |s| == 12 witness seq(12, _ => 0x30)

  /** What a scenario has go wrong in a round. */
  datatype Faults = Faults(lost: bool, frozen: bool, reacts: bool)

  /** What a scenario does. */
  datatype Deed = Press(cmd: Command) | StopDoor | GoTo(percent: int) | Idle | Round(faults: Faults)

  /** A drive beside its accessory. `missed`: it still holds a count that was answered. */
  datatype Pair = Pair(
    accessory: Model,
    now: nat,
    counter: Count,
    door: SimDoor,
    told: seq<(Word, Word)>,
    identitySent: seq<Byte>,
    missed: bool,
    serial: SerialText,
    firmware: FirmwareText)
  {
    function Waits(ms: nat): Pair {
      this.(now := now + ms)
    }

    function Hears(frame: seq<Byte>): Pair {
      this.(accessory := accessory.OnFrame(Shown(now), frame).0)
    }

    function Counts(): Pair {
      this.(counter := Succ(counter))
    }

    /** A payload goes out with the next count; whether it is acknowledged is not waited for. */
    function Transfers(half: bool, sub: Byte, payload: seq<Byte>): Pair
      requires |payload| % 2 == 0 && |payload| <= 14
    {
      var d := Counts().Waits(POLL_MS);
      d.Hears(Session.TransferFrame(Session.HalfBit(half, d.counter), sub, payload))
    }

    function Serves(wanted: Byte): Pair {
      hide Pair.Transfers;
      if wanted == IDENT_REQ_SERIAL then
        Transfers(true, IDENT_SUB_SERIAL, serial[..14]).Transfers(false, IDENT_SUB_SERIAL, serial[14..26]).Noted(wanted)
      else if wanted == IDENT_REQ_FIRMWARE then Transfers(false, IDENT_SUB_FIRMWARE, firmware).Noted(wanted)
      else this
    }

    function Noted(wanted: Byte): Pair {
      this.(identitySent := identitySent + [wanted])
    }

    function Answer(): seq<Byte> {
      accessory.OnFrame(Shown(now), Session.PollFrame(counter)).1
    }

    /** An order is written down, and obeyed by a door that reacts. */
    function Ordered(order: (Word, Word), reacts: bool): Pair {
      if order == (0, 0) then this
      else this.(told := told + [order], door := if reacts then door.Apply(order) else door)
    }

    function Notes(answer: seq<Byte>, reacts: bool): Pair {
      this.(missed := false).Ordered(Obeyed(answer), reacts)
    }

    /** The answer is in: an order is obeyed, a request served, and only then does the counter go on. */
    function Obeys(answer: seq<Byte>, reacts: bool): Pair {
      Notes(answer, reacts).Serves(RequestedBy(answer)).Counts()
    }

    /** A round's first half: time passes, the door travels, and the drive says where it is. */
    function Reports(frozen: bool): Pair {
      var d := if frozen then door else door.Advance();
      Waits(POLL_MS).(door := d).Hears(d.Report())
    }

    function Rounds(f: Faults): Pair {
      var r := Reports(f.frozen);
      var p := r.Hears(Session.PollFrame(r.counter));
      if r.Answer() == [] then p
      else if f.lost then p.(missed := true)
      else p.Obeys(r.Answer(), f.reacts)
    }

    function Calls(input: Runs.Input): Pair
      requires IsCall(input)
    {
      this.(accessory := accessory.(core := Runs.Next(accessory.core, Shown(now), input)))
    }

    function Idles(): Pair {
      var p := Waits(QUIET_MS);
      p.(accessory := p.accessory.(core := p.accessory.core.CheckSilence(Shown(p.now))).PublishIdentity())
    }

    function Does(deed: Deed): Pair {
      match deed
      case Press(cmd) => Calls(Runs.Press(true, cmd))
      case StopDoor => Calls(Runs.StopPress)
      case GoTo(percent) => Calls(Runs.GoTo(percent))
      case Idle => Idles()
      case Round(faults) => Rounds(faults)
    }

    function DoesAll(deeds: seq<Deed>): Pair {
      if deeds == [] then this else DoesAll(deeds[..|deeds| - 1]).Does(deeds[|deeds| - 1])
    }
  }

  function Started(serial: SerialText, firmware: FirmwareText): Pair {
    Pair(NEW_MODEL, STARTS_AT, 1, SimDoor(0, ST_CLOSED, false), [], [], false, serial, firmware)
  }

  lemma OneMore(p: Pair, deeds: seq<Deed>, deed: Deed)
    ensures p.DoesAll(deeds + [deed]) == p.DoesAll(deeds).Does(deed)
  {
    hide Pair.Does;
    assert (deeds + [deed])[..|deeds|] == deeds;
  }

  lemma NothingDone(p: Pair)
    ensures p.DoesAll(seq(0, _ => Idle)) == p
  {
  }

  lemma IdleDoes(p: Pair)
    ensures p.Does(Idle) == p.Idles()
  {
  }

  class SimDrive {
    const codec: Hcp2Codec
    const resp: array<Byte>
    const serial: SerialText
    const firmware: FirmwareText
    var now: nat
    var counter: Count
    var door: SimDoor
    var commandsSeen: seq<(Word, Word)>
    var identitySent: seq<Byte>
    ghost var missed: bool

    ghost predicate Valid()
      reads this, codec
    {
      codec.Valid() && resp.Length >= HCP2_MAX_FRAME
    }

    ghost function View(): Pair
      requires Valid()
      reads this, codec, codec.state, codec.regCmd, codec.regResp
    {
      Pair(codec.View(), now, counter, door, commandsSeen, identitySent, missed, serial, firmware)
    }

    constructor (serial: SerialText, firmware: FirmwareText)
      ensures Valid() && View() == Started(serial, firmware)
    {
      codec := new Hcp2Codec();
      resp := new Byte[256](_ => 0);
      this.serial, this.firmware := serial, firmware;
      now, counter, door := STARTS_AT, 1, SimDoor(0, ST_CLOSED, false);
      commandsSeen, identitySent, missed := [], [], false;
    }

    method Press(cmd: Command)
      requires Valid()
      modifies codec
      ensures Valid() && View() == old(View()).Does(Deed.Press(cmd))
    {
      var _ := codec.SetCommand(Shown(now), true, cmd);
    }

    method StopDoor()
      requires Valid()
      modifies codec
      ensures Valid() && View() == old(View()).Does(Deed.StopDoor)
    {
      var _ := codec.StopDoor(Shown(now));
    }

    method GoTo(percent: int)
      requires Valid()
      modifies codec
      ensures Valid() && View() == old(View()).Does(Deed.GoTo(percent))
    {
      hide Core.SetPosition;
      var _ := codec.SetPosition(Shown(now), percent);
    }

    method Idles()
      requires Valid()
      modifies this`now, codec, codec.state
      ensures Valid() && View() == old(View()).Idles()
    {
      hide Core.CheckSilence, Model.PublishIdentity;
      now := now + QUIET_MS;
      codec.CheckBusSilence(Shown(now));
      codec.PublishIdentity();
    }

    /** A stretch without frames, in which only the loop of the accessory runs. */
    method Quiet(ms: nat)
      requires Valid()
      modifies this`now, codec, codec.state
      ensures Valid()
      ensures View() == old(View()).DoesAll(seq(if ms < 2 * QUIET_MS then 1 else ms / QUIET_MS, _ => Idle))
    {
      hide Pair.Idles, Pair.Does, Pair.DoesAll;
      NothingDone(View());
      var n := if ms < 2 * QUIET_MS then 1 else ms / QUIET_MS;
      for i := 0 to n
        invariant Valid() && View() == old(View()).DoesAll(seq(i, _ => Idle))
      {
        IdleDoes(View());
        Idles();
        OneMore(old(View()), seq(i, _ => Idle), Idle);
        assert seq(i, _ => Idle) + [Idle] == seq(i + 1, _ => Idle);
      }
    }

    method NextCounter()
      requires Valid()
      modifies this`counter
      ensures Valid() && View() == old(View()).Counts()
    {
      counter := if counter >= 0x7F then 1 else counter + 1;
    }

    method Exchange(frame: seq<Byte>) returns (answer: seq<Byte>)
      requires Valid()
      modifies codec, codec.state, codec.regCmd, codec.regResp, resp
      ensures Valid() && View() == old(View()).Hears(frame)
      ensures answer == old(codec.View()).OnFrame(Shown(now), frame).1
    {
      hide Model.OnFrame;
      var n := codec.OnFrame(Shown(now), frame, resp);
      answer := resp[..n];
    }

    method Transfer(half: bool, sub: Byte, payload: seq<Byte>)
      requires Valid() && |payload| % 2 == 0 && |payload| <= 14
      modifies this`counter, this`now, codec, codec.state, codec.regCmd, codec.regResp, resp
      ensures Valid() && View() == old(View()).Transfers(half, sub, payload)
    {
      hide Model.OnFrame, Session.TransferFrame;
      NextCounter();
      now := now + POLL_MS;
      var _ := Exchange(Session.TransferFrame(Session.HalfBit(half, counter), sub, payload));
    }

    method ServeIdentity(wanted: Byte)
      requires Valid()
      modifies this`counter, this`now, this`identitySent, codec, codec.state, codec.regCmd, codec.regResp, resp
      ensures Valid() && View() == old(View()).Serves(wanted)
    {
      hide Pair.Transfers;
      if wanted == IDENT_REQ_SERIAL {
        Transfer(true, IDENT_SUB_SERIAL, serial[..14]);
        Transfer(false, IDENT_SUB_SERIAL, serial[14..26]);
        identitySent := identitySent + [wanted];
      } else if wanted == IDENT_REQ_FIRMWARE {
        Transfer(false, IDENT_SUB_FIRMWARE, firmware);
        identitySent := identitySent + [wanted];
      }
    }

    method Report(frozen: bool)
      requires Valid()
      modifies this`now, this`door, codec, codec.state, codec.regCmd, codec.regResp, resp
      ensures Valid() && View() == old(View()).Reports(frozen)
    {
      hide Model.OnFrame, SimDoor.Advance, SimDoor.Report;
      now := now + POLL_MS;
      if !frozen {
        door := door.Advance();
      }
      var _ := Exchange(door.Report());
    }

    method Poll() returns (answer: seq<Byte>)
      requires Valid()
      modifies codec, codec.state, codec.regCmd, codec.regResp, resp
      ensures Valid() && View() == old(View()).Hears(Session.PollFrame(old(View()).counter))
      ensures answer == old(View()).Answer()
    {
      hide Model.OnFrame, Session.PollFrame;
      answer := Exchange(Session.PollFrame(counter));
    }

    method Apply(command: (Word, Word), reacts: bool)
      requires Valid()
      modifies this`commandsSeen, this`door
      ensures Valid() && View() == old(View()).Ordered(command, reacts)
    {
      if command == (0, 0) {
        return;
      }
      commandsSeen := commandsSeen + [command];
      if !reacts {
        return;
      }
      door := door.Apply(command);
    }

    /** One round: the door travels and reports, a status poll goes out, and what comes of the answer. */
    method Tick(faults: Faults)
      requires Valid()
      modifies this, codec, codec.state, codec.regCmd, codec.regResp, resp
      ensures Valid() && View() == old(View()).Does(Round(faults))
    {
      hide Model.OnFrame, Session.PollFrame, Obeyed, RequestedBy, Pair.Reports, Pair.Serves, Pair.Ordered, Pair.Hears,
        Pair.Answer;
      Report(faults.frozen);
      var answer := Poll();
      if answer == [] {
        return;
      }
      if faults.lost {
        missed := true;
        return;
      }
      missed := false;
      Apply(Obeyed(answer), faults.reacts);
      ServeIdentity(RequestedBy(answer));
      NextCounter();
    }
  }
}
