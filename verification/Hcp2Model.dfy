/** The newer bus as a function: a frame and the codec's state give an answer and the next state. */
module Hcp2Model {
  import opened HcpTypes
  import opened BitOps
  import opened HcpState
  import opened Lifecycle
  import opened Hcp2Frame

  const SLAVE_ID: Byte := 2
  const REG_CMD_BASE: Word := 0x9C41
  const REG_CMD_COUNT := 9
  const REG_BCAST_BASE: Word := 0x9D31
  const REG_BCAST_COUNT := 9
  const REG_RESP_BASE: Word := 0x9CB9
  const REG_RESP_COUNT := 8

  const IDENT_REQ_SERIAL: Byte := 0x05
  const IDENT_REQ_FIRMWARE: Byte := 0x06
  const IDENT_SUB_SERIAL: Byte := 0x0C
  const IDENT_SUB_FIRMWARE: Byte := 0x0D
  const IDENT_SUB_PAUSE_ACK: Byte := 0x19
  const IDENT_RETRY_MS := 30000
  const IDENT_MAX_ATTEMPTS := 3

  const RESP_STATUS: Word := 0x01
  const RESP_REQUEST: Word := 0x22
  const RESP_PAUSE: Word := 0x29
  const RESP_ACK: Byte := 0xFD
  const RESP_NAK: Byte := 0xFE

  type Answers = s: seq<Word> | |s| == 8 witness [0, 0, 0, 0, 0, 0, 0, 0]

  const NO_ANSWER: Answers := [0, 0, 0, 0, 0, 0, 0, 0]
  const PLAIN_STATUS: Answers := [0, 0x01, 0, 0, 0, 0, 0, 0]

  // ----- bytes and registers -----

  function Rd16(f: seq<Byte>, i: nat): Word
    requires i + 1 < |f|
  {
    var hi: int, lo: int := f[i], f[i + 1];
    hi * 0x100 + lo
  }

  function Registers(f: seq<Byte>, from: nat, count: nat): (r: seq<Word>)
    requires from + 2 * count <= |f|
    ensures |r| == count
    ensures forall i :: 0 <= i < count ==> r[i] == Rd16(f, from + 2 * i)
  {
    if count == 0 then [] else Registers(f, from, count - 1) + [Rd16(f, from + 2 * (count - 1))]
  }

  function Wire(regs: seq<Word>): (r: seq<Byte>)
    ensures |r| == 2 * |regs|
  {
    if regs == [] then []
    else Wire(regs[..|regs| - 1]) + [regs[|regs| - 1] / 0x100, regs[|regs| - 1] % 0x100]
  }

  function OrWord(a: Word, b: Word): Word {
    PowValues();
    OrBound(a, b, 16);
    Or(a, b)
  }

  /** The counts of a read/write frame, checked against each other before anything is stored. */
  predicate CountsAgree(raw: seq<Byte>)
    requires Validate(raw) >= 11 && Rd16(raw, 2) == REG_RESP_BASE
  {
    var readCnt, writeCnt, byteCnt := Rd16(raw, 4), Rd16(raw, 8), raw[10];
    if readCnt < 1 || readCnt > REG_RESP_COUNT || writeCnt < 1 || 0xFFFF - REG_RESP_BASE < readCnt
       || byteCnt != 2 * writeCnt then false
    else if byteCnt < 2 || byteCnt > 2 * REG_CMD_COUNT then false
    else Validate(raw) >= 11 + byteCnt
  }

  predicate ReportAgrees(raw: seq<Byte>)
    requires Validate(raw) >= 7
  {
    var cnt, byteCnt := Rd16(raw, 4), raw[6];
    if cnt < 1 || byteCnt != 2 * cnt || byteCnt < 2 || byteCnt > 2 * REG_BCAST_COUNT then false
    else Validate(raw) >= 7 + byteCnt
  }

  // ----- the identity exchange -----

  /** Where the two halves of the serial number are put together. */
  type SerialBuffer = s: seq<Byte> | |s| == IDENT_SERIAL_LEN
    witness [0, 0, 0, 0, 0, 0, 0, 0, 0, 0, 0, 0, 0, 0, 0, 0, 0, 0, 0, 0, 0, 0, 0, 0, 0, 0]

  datatype Ident = Ident(
    wanted: Byte,
    attempts: nat,
    askedOn: Millis,
    asked: bool,
    started: bool,
    serial: seq<Byte>,
    firmware: seq<Byte>,
    serialReady: bool,
    firmwareReady: bool,
    serialBuf: SerialBuffer,
    firstHalfSeen: bool)
  {
    function Arm(request: Byte): Ident {
      this.(wanted := request, attempts := 0, askedOn := 0, asked := false, firstHalfSeen := false)
    }

    function Start(): Ident {
      this.(started := true).Arm(IDENT_REQ_SERIAL)
    }

    predicate Due(now: Millis) {
      wanted != 0 && (!asked || Elapsed(now, askedOn) > IDENT_RETRY_MS)
    }

    predicate GivesUp(now: Millis) {
      Due(now) && attempts >= IDENT_MAX_ATTEMPTS
    }

    predicate Asks(now: Millis) {
      Due(now) && attempts < IDENT_MAX_ATTEMPTS
    }

    function Ask(now: Millis): Ident {
      if GivesUp(now) then this.(wanted := 0)
      else if Asks(now) then this.(attempts := attempts + 1, askedOn := now, asked := true)
      else this
    }

    predicate KeepsFirmware(sub: Byte, count: nat) {
      wanted == IDENT_REQ_FIRMWARE && sub == IDENT_SUB_FIRMWARE && count >= 2 + IDENT_FIRMWARE_LEN / 2
    }

    predicate KeepsFirstHalf(counterByte: Byte, sub: Byte, count: nat) {
      wanted == IDENT_REQ_SERIAL && sub == IDENT_SUB_SERIAL && counterByte >= 0x80
      && count >= 2 + SERIAL_FIRST_LEN / 2
    }

    predicate KeepsSecondHalf(counterByte: Byte, sub: Byte, count: nat) {
      wanted == IDENT_REQ_SERIAL && sub == IDENT_SUB_SERIAL && counterByte < 0x80
      && firstHalfSeen && count >= 2 + SERIAL_SECOND_LEN / 2
    }

    predicate Keeps(counterByte: Byte, sub: Byte, count: nat) {
      KeepsFirmware(sub, count) || KeepsFirstHalf(counterByte, sub, count) || KeepsSecondHalf(counterByte, sub, count)
    }

    /** A payload the drive sent, in the registers from the third on. */
    function Receive(now: Millis, regCmd: Block, counterByte: Byte, sub: Byte, count: nat): Ident
    {
      if KeepsFirmware(sub, count) then
        this.(firmware := Text(Wire(regCmd[2..8])), firmwareReady := true, wanted := 0)
      else if KeepsFirstHalf(counterByte, sub, count) then
        this.(serialBuf := Wire(regCmd[2..9]) + serialBuf[SERIAL_FIRST_LEN..],
              firstHalfSeen := true, askedOn := now, asked := true)
      else if KeepsSecondHalf(counterByte, sub, count) then
        var buf := serialBuf[..SERIAL_FIRST_LEN] + Wire(regCmd[2..8]);
        this.(serialBuf := buf, serial := Text(buf), serialReady := true).Arm(IDENT_REQ_FIRMWARE)
      else this
    }
  }

  predicate Printable(b: Byte) {
    0x20 <= b <= 0x7E
  }

  function PrintablePrefix(data: seq<Byte>): seq<Byte> {
    if data == [] || !Printable(data[0]) then [] else [data[0]] + PrintablePrefix(data[1..])
  }

  function Trimmed(text: seq<Byte>): seq<Byte> {
    if text != [] && text[|text| - 1] == 0x20 then Trimmed(text[..|text| - 1]) else text
  }

  /** The longest printable prefix, less the blanks at its end. */
  function Text(data: seq<Byte>): seq<Byte> {
    Trimmed(PrintablePrefix(data))
  }

  const NEW_IDENT := Ident(0, 0, 0, false, false, [], [], false, false,
    [0, 0, 0, 0, 0, 0, 0, 0, 0, 0, 0, 0, 0, 0, 0, 0, 0, 0, 0, 0, 0, 0, 0, 0, 0, 0], false)

  // ----- the codec -----

  /** Counter and command byte of the drive, laid over an answer; the top bit is no part of the count. */
  function Mirror(regs: Answers, val: Word): Answers {
    regs[0 := OrWord(regs[0], val / 0x100 % 0x80 * 0x100)][1 := OrWord(regs[1], val % 0x100 * 0x100)]
  }

  const UNKNOWN_SHAPE_REPEAT_MS := 10000

  /** The shape of the last frame that was noted as one nobody knows, by how much it reads and writes. */
  datatype Shape = Shape(seen: bool, readCnt: nat, writeCnt: nat, loggedOn: Millis)
  {
    /** The same shape again, and too soon to say so again. */
    predicate Repeats(now: Millis, rd: nat, wr: nat) {
      seen && readCnt == rd && writeCnt == wr && Elapsed(now, loggedOn) < UNKNOWN_SHAPE_REPEAT_MS
    }
  }

  datatype Model = Model(core: Core, regCmd: Block, regResp: Answers, ident: Ident, shape: Shape)
  {
    function Push(e: Event): Model {
      this.(core := core.Push(e))
    }

    /** What a poll answers with once it is settled which command it carries. */
    function RideAlong(now: Millis): Model {
      var v := CommandValues(core.watch.lastSent);
      var id := if !ident.started && core.caps.hasIdentity then ident.Start() else ident;
      // Only a poll whose command registers are free can ask.
      var asks := v == (0, 0) && id.Asks(now);
      var gaveUp := v == (0, 0) && id.GivesUp(now);
      this.(core := (if gaveUp then core.Push(IdentityUnanswered(id.wanted)) else core).LinkUp(),
            ident := if v == (0, 0) then id.Ask(now) else id,
            regResp := if asks then [0, RESP_REQUEST, id.wanted * 0x100, 0, 0, 0, 0, 0]
                       else [0, RESP_STATUS, v.0, v.1, 0, 0, 0, 0])
    }

    function StatusPoll(now: Millis): Model {
      if core.pause.requested then
        this.(core := core.PausedPoll(), regResp := [0, RESP_PAUSE, SLAVE_ID, 0, 0, 0, 0, 0])
      else
        this.(core := core.Poll(now)).RideAlong(now)
    }

    /** What a read/write frame is answered with, before its own writes land. */
    function Hook(now: Millis, readCnt: nat, writeCnt: nat, command: Byte): Model {
      if writeCnt == 2 && readCnt == 8 && command == CMD_STATUS then
        StatusPoll(now)
      else if writeCnt == 2 && readCnt == 2 then
        this.(regResp := regResp[0 := 0x0004][1 := 0x0000], core := core.Push(EmptyCommand).LinkUp())
      else if writeCnt == 3 && readCnt == 5 then
        this.(regResp := [0x0000, 0x0005, 0x0430, 0x10FF, 0xA845] + regResp[5..], core := core.Push(BusScan).LinkUp())
      else
        var m := if writeCnt >= 3 then this else NoteShape(now, readCnt, writeCnt);
        m.(regResp := PLAIN_STATUS, core := m.core.LinkUp())
    }

    /** A frame there is no branch for is worth a note, but not the same note over and over. */
    function NoteShape(now: Millis, readCnt: nat, writeCnt: nat): Model {
      if shape.Repeats(now, readCnt, writeCnt) then this
      else Push(UnanswerableFrame(readCnt, writeCnt)).(shape := Shape(true, readCnt, writeCnt, now))
    }

    /** The first command register carries counter and command, which are mirrored into the answer. */
    function CounterWrite(val: Word): Model {
      this.(regResp := Mirror(regResp, val))
    }

    function WriteCmds(words: seq<Word>): Model
      requires 1 <= |words| <= 9
    {
      CounterWrite(words[0]).(regCmd := words + regCmd[|words|..])
    }

    function AnswerTransfer(counterByte: Byte, code: Byte): Model {
      this.(regResp := [counterByte % 0x80 * 0x100, 0x0400 + code, 0, 0, 0, 0, 0, 0])
    }

    /** Looked at after all registers of a write are in place. */
    function BlockComplete(now: Millis, count: nat): Model
    {
      if count < 2 || regCmd[0] % 0x100 != CMD_TRANSFER then this
      else
        var counterByte, sub := regCmd[0] / 0x100, regCmd[1] / 0x100;
        if sub == IDENT_SUB_PAUSE_ACK then
          var named := regCmd[1] % 0x100 * 0x100 + regCmd[2] / 0x100;
          var m := if count >= 3 && named == SLAVE_ID
                   then this.(core := core.(pause := core.pause.(confirmed := true)))
                   else this;
          m.AnswerTransfer(counterByte, RESP_ACK)
        else if sub == IDENT_SUB_SERIAL || sub == IDENT_SUB_FIRMWARE then
          var m := if ident.KeepsFirmware(sub, count) then Push(IdentityFirmware)
                   else if ident.KeepsSecondHalf(counterByte, sub, count) then Push(IdentitySerial)
                   else this;
          m.(ident := ident.Receive(now, regCmd, counterByte, sub, count))
            .AnswerTransfer(counterByte, if ident.Keeps(counterByte, sub, count) then RESP_ACK else RESP_NAK)
        else
          Push(UnknownTransferSub(sub)).AnswerTransfer(counterByte, RESP_NAK)
    }

    function Applied(now: Millis, words: seq<Word>): Model
      requires 1 <= |words| <= 9
    {
      var m := WriteCmds(words).BlockComplete(now, |words|);
      m.(core := m.core.AdvanceCounter())
    }

    /** An exchange that is answered: the registers the drive wrote, and how many it reads back. */
    function Exchange(now: Millis, readCnt: nat, words: seq<Word>): Model
      requires 1 <= |words| <= 9
    {
      var counterByte, command := words[0] / 0x100, words[0] % 0x100;
      this.(core := core.SyncCounter(counterByte, command).ForgetSent())
        .Hook(now, readCnt, |words|, command)
        .Applied(now, words)
    }

    function AnswerTo(raw: seq<Byte>): seq<Byte>
      requires |raw| >= 6 && Rd16(raw, 4) <= REG_RESP_COUNT
    {
      Finished([raw[0], raw[1], Rd16(raw, 4) * 2] + Wire(regResp[..Rd16(raw, 4)]))
    }

    function ReadWrite(now: Millis, raw: seq<Byte>): (Model, seq<Byte>)
      requires Accepted(raw) && raw[0] != 0 && raw[1] == 0x17
    {
      if Validate(raw) < 11 then (this, [])
      else if Rd16(raw, 2) != REG_RESP_BASE || Rd16(raw, 6) != REG_CMD_BASE then
        (Push(WrongRegisterBlock(Rd16(raw, 2), Rd16(raw, 6))), [])
      else if !CountsAgree(raw) then (this, [])
      else
        var m := Exchange(now, Rd16(raw, 4), Registers(raw, 11, Rd16(raw, 8)));
        (m, m.AnswerTo(raw))
    }

    function Broadcast(now: Millis, raw: seq<Byte>): (Model, seq<Byte>)
      requires Accepted(raw) && raw[1] == 0x10
    {
      if Validate(raw) < 7 then (this, [])
      else if Rd16(raw, 2) != REG_BCAST_BASE then (Push(WrongBroadcastBlock(Rd16(raw, 2))), [])
      else if !ReportAgrees(raw) then (this, [])
      else (this.(core := core.Report(now, Registers(raw, 7, Rd16(raw, 4)))), Finished(raw[..6]))
    }

    /** What a received frame makes of the codec, and its answer, which is empty where there is none. */
    function OnFrame(now: Millis, raw: seq<Byte>): (Model, seq<Byte>)
    {
      if !Accepted(raw) then (this, [])
      else
        var h := this.(core := core.Heard(now));
        if raw[1] == 0x17 then
          if raw[0] == 0x00 then (h, []) else h.ReadWrite(now, raw)
        else if raw[1] == 0x10 then h.Broadcast(now, raw)
        else (h, [])
    }

    function PublishIdentity(): Model {
      var d := if ident.serialReady then core.door.SetSerial(ident.serial) else core.door;
      var e := if ident.firmwareReady then d.SetFirmware(ident.firmware) else d;
      this.(core := core.(door := e), ident := ident.(serialReady := false, firmwareReady := false))
    }
  }

  /** What a poll answers with is built from nothing. */
  lemma RideAlongForgets(m: Model, regs: Answers, now: Millis)
    ensures m.(regResp := regs).RideAlong(now) == m.RideAlong(now)
  {
  }

  const NEW_MODEL := Model(NEW_CORE, NO_REPORT, NO_ANSWER, NEW_IDENT, Shape(false, 0, 0, 0))

  /**
   * The frames this accessory answers, from what the bus carries and not from
   * the order in which the codec looks at it.
   */
  predicate Answerable(raw: seq<Byte>) {
    && Accepted(raw)
    && raw[0] != 0x00 && raw[1] == 0x17
    && |raw| >= 13
    && Rd16(raw, 2) == REG_RESP_BASE
    && 1 <= Rd16(raw, 4) <= REG_RESP_COUNT
    && Rd16(raw, 6) == REG_CMD_BASE
    && 1 <= Rd16(raw, 8) <= REG_CMD_COUNT
    && raw[10] == 2 * Rd16(raw, 8)
    && |raw| >= 13 + raw[10]
  }
}
