/**
 * A drive that loses nothing is known after two rounds: its serial number and its
 * firmware version have been asked for, have come over in their payloads, and are
 * published with the next turn of the loop.
 */
module KnownDrive {
  import opened HcpTypes
  import opened Lifecycle
  import opened Hcp2Frame
  import opened Hcp2Model
  import opened Replies
  import opened Runs
  import opened Traffic
  import opened DriveRuns
  import opened IdentityRuns
  import SerialRuns
  import Session
  import Scenarios
  import opened SimDrive
  import SendRuns
  import opened DoorScenarios
  import opened PressScenarios
  import opened AskRuns

  // ----- the text of a payload -----

  /** Bytes that may be shown: from the blank to the tilde. */
  predicate Visible(b: Byte) {
    0x20 <= b && b <= 0x7E
  }

  /**
   * `text` is what is shown of `data`: its beginning up to the first byte that may
   * not be shown, without the blanks at the end of that.
   */
  ghost predicate IsText(text: seq<Byte>, data: seq<Byte>) {
    exists m :: IsTextUpTo(text, data, m)
  }

  predicate IsTextUpTo(text: seq<Byte>, data: seq<Byte>, m: nat) {
    && |text| <= m <= |data| && text == data[..|text|]
    && (forall i :: 0 <= i < m ==> Visible(data[i]))
    && (m < |data| ==> !Visible(data[m]))
    && (forall i :: |text| <= i < m ==> data[i] == 0x20)
    && (text != [] ==> text[|text| - 1] != 0x20)
  }

  lemma {:induction false} PrefixIs(data: seq<Byte>)
    ensures var p := PrintablePrefix(data);
      && |p| <= |data| && p == data[..|p|] && (forall i :: 0 <= i < |p| ==> Visible(data[i]))
      && (|p| < |data| ==> !Visible(data[|p|]))
  {
    if data != [] && Visible(data[0]) {
      PrefixIs(data[1..]);
      var q, p := PrintablePrefix(data[1..]), PrintablePrefix(data);
      assert p == [data[0]] + q;
      forall i | 0 <= i < |p| ensures Visible(data[i]) {
        assert i > 0 ==> data[i] == data[1..][i - 1];
      }
    }
  }

  lemma {:induction false} TrimmedIs(text: seq<Byte>)
    ensures var r := Trimmed(text);
      && |r| <= |text| && r == text[..|r|] && (forall i :: |r| <= i < |text| ==> text[i] == 0x20)
      && (r != [] ==> r[|r| - 1] != 0x20)
  {
    if text != [] && text[|text| - 1] == 0x20 {
      TrimmedIs(text[..|text| - 1]);
    }
  }

  /** What is published of a text is all of it that may be shown. */
  lemma {:induction false} TextIsShown(data: seq<Byte>)
    ensures IsText(Text(data), data)
  {
    PrefixIs(data);
    TrimmedIs(PrintablePrefix(data));
    assert IsTextUpTo(Text(data), data, |PrintablePrefix(data)|);
  }

  // ----- the payload frames, byte by byte -----

  lemma TransferBytes(counterByte: Byte, sub: Byte, payload: seq<Byte>)
    requires |payload| % 2 == 0 && |payload| <= 14
    ensures var f := Session.TransferFrame(counterByte, sub, payload);
      && Answerable(f) && f[11] == counterByte && f[12] == 0x04 && f[13] == sub
      && Rd16(f, 8) == 2 + |payload| / 2 && |f| >= 15 + |payload| && f[15..15 + |payload|] == payload
  {
    var f := Session.TransferFrame(counterByte, sub, payload);
    Session.TransferIsAnswerable(counterByte, sub, payload);
    var body := [SLAVE_ID, 0x17, 0x9C, 0xB9, 0x00, 0x08, 0x9C, 0x41, 0x00, 2 + |payload| / 2, 4 + |payload|,
                 counterByte, CMD_TRANSFER, sub, 0x00] + payload;
    hide Validate, Finished, Answerable;
    FinishedIsAccepted(body);
    Session.Same(f, body, |body|);
    assert f[15..15 + |payload|] == body[15..] == payload;
  }

  /** What the registers of such a frame say from the third on is the payload. */
  lemma PayloadLands(m: Model, counterByte: Byte, sub: Byte, payload: seq<Byte>, n: nat)
    requires |payload| % 2 == 0 && |payload| <= 14 && 2 * n == |payload|
    ensures var f := Session.TransferFrame(counterByte, sub, payload);
      && Answerable(f) && |Written(f)| <= 9
      && Wire(Landed(m, Written(f))[2..2 + n]) == payload
  {
    var f := Session.TransferFrame(counterByte, sub, payload);
    TransferBytes(counterByte, sub, payload);
    hide Session.TransferFrame, Answerable, Wire, Registers, Validate;
    PaysIsPayload(f);
    var count := Rd16(f, 8);
    AnswerableIsLong(f);
    SerialRuns.PayloadBytes(f, count, n);
    assert Landed(m, Written(f))[2..2 + n] == Written(f)[2..2 + n];
  }

  lemma AnswerableIsLong(f: seq<Byte>)
    requires Answerable(f)
    ensures |f| >= 11 + 2 * Rd16(f, 8)
  {
    hide Validate;
    AnswerableIsChecked(f);
  }

  // ----- what the payloads do to the identity -----

  lemma FirstHalfLands(p: Pair, first: seq<Byte>)
    requires |first| == 14 && p.accessory.ident.wanted == 0x05
    ensures var id, d := p.accessory.ident, p.Transfers(true, IDENT_SUB_SERIAL, first).accessory.ident;
      && d.wanted == 0x05 && d.firstHalfSeen && d.started == id.started && d.serialBuf[..14] == first
      && d.firmwareReady == id.firmwareReady
  {
    var q := p.Counts().Waits(POLL_MS);
    var counterByte := Session.HalfBit(true, q.counter);
    var raw := Session.TransferFrame(counterByte, IDENT_SUB_SERIAL, first);
    TransferBytes(counterByte, IDENT_SUB_SERIAL, first);
    PayloadLands(p.accessory, counterByte, IDENT_SUB_SERIAL, first, 7);
    PayIdent(p.accessory, Shown(q.now), raw);
    hide Session.TransferFrame, Answerable, Wire, Model.OnFrame, Text, Registers;
  }

  lemma SecondHalfLands(p: Pair, first: seq<Byte>, second: seq<Byte>)
    requires |first| == 14 && |second| == 12
    requires var id := p.accessory.ident; id.wanted == 0x05 && id.firstHalfSeen && id.serialBuf[..14] == first
    ensures var id, d := p.accessory.ident, p.Transfers(false, IDENT_SUB_SERIAL, second).accessory.ident;
      && d.serial == Text(first + second) && d.serialReady && d.started == id.started
      && d.wanted == 0x06 && !d.asked && d.attempts == 0
  {
    var q := p.Counts().Waits(POLL_MS);
    var counterByte := Session.HalfBit(false, q.counter);
    var raw := Session.TransferFrame(counterByte, IDENT_SUB_SERIAL, second);
    hide Session.TransferFrame, Answerable, Wire, Model.OnFrame, Text, Registers, Landed;
    TransferBytes(counterByte, IDENT_SUB_SERIAL, second);
    PayloadLands(p.accessory, counterByte, IDENT_SUB_SERIAL, second, 6);
    PayIdent(p.accessory, Shown(q.now), raw);
  }

  lemma VersionLands(p: Pair, payload: seq<Byte>)
    requires |payload| == 12 && p.accessory.ident.wanted == 0x06
    ensures var id, d := p.accessory.ident, p.Transfers(false, IDENT_SUB_FIRMWARE, payload).accessory.ident;
      && d.firmware == Text(payload) && d.firmwareReady && d.serial == id.serial && d.serialReady == id.serialReady
  {
    var q := p.Counts().Waits(POLL_MS);
    var counterByte := Session.HalfBit(false, q.counter);
    var raw := Session.TransferFrame(counterByte, IDENT_SUB_FIRMWARE, payload);
    TransferBytes(counterByte, IDENT_SUB_FIRMWARE, payload);
    PayloadLands(p.accessory, counterByte, IDENT_SUB_FIRMWARE, payload, 6);
    PayIdent(p.accessory, Shown(q.now), raw);
    hide Session.TransferFrame, Answerable, Wire, Model.OnFrame, Text, Registers;
  }

  // ----- while nothing is pressed -----

  /** Nothing is queued, and nothing watched or armed. */
  predicate AtRest(c: Core) {
    && Plain(c) && c.slot.next == NoCommand && !c.slot.cancelWatch
    && c.watch.awaited == NoCommand && c.watch.repeat == NoCommand && c.watch.lastSent == NoCommand
  }

  lemma AlikeRest(c: Core, d: Core)
    requires Alike(c, d)
    ensures AtRest(c) <==> AtRest(d)
  {
  }

  lemma PollRests(c: Core, now: Millis)
    requires c.slot.next == NoCommand && !c.slot.cancelWatch
    requires c.watch.awaited == NoCommand && c.watch.repeat == NoCommand && c.watch.lastSent == NoCommand
    ensures c.Choose(now) == Nothing && c.Poll(now).watch == c.watch && c.Poll(now).slot == c.slot
  {
  }

  lemma StepRests(c: Core, now: Millis, input: Input)
    requires Possible(input) && AtRest(c) && (input.Exchange? || input.Report? || input.Noise?)
    ensures AtRest(Next(c, now, input)) && Sent(c, now, input) == Nothing
  {
    PlainStep(c, now, input);
    if input.Exchange? {
      ExchangeParts(c, now, input);
      SendRuns.ReceivesLoss(c, input);
      ReceivedTouches(c, input);
      PollRests(Received(c, input), now);
      hide Next, Received, Plain, Core.Poll, Core.Choose;
    } else if input.Report? {
      ReportLeaves(c, now, input.words);
      ReportIsInput(c, now, input);
      hide Next, Plain;
    }
  }

  lemma ReportIsInput(c: Core, now: Millis, input: Input)
    requires input.Report? && Possible(input)
    ensures input == Report(input.words) && |input.words| <= 9
  {
  }

  lemma FrameRests(m: Model, now: Millis, raw: seq<Byte>)
    requires AtRest(m.core)
    ensures AtRest(m.OnFrame(now, raw).0.core)
    ensures Sent(Met(m, now, Frame(raw)), now, Seen(m, now, Frame(raw))) == Nothing
  {
    hide Model.OnFrame, Next, AtRest, Alike, Met, Seen, Sent;
    FrameAlike(m, now, raw);
    MetAlike(m, now, Frame(raw));
    AlikeRest(Met(m, now, Frame(raw)), m.core);
    SeenIsNoCall(m, now, raw);
    StepRests(Met(m, now, Frame(raw)), now, Seen(m, now, Frame(raw)));
    AlikeRest(m.OnFrame(now, raw).0.core, Next(Met(m, now, Frame(raw)), now, Seen(m, now, Frame(raw))));
  }

  lemma HearsRests(p: Pair, raw: seq<Byte>)
    requires AtRest(p.accessory.core)
    ensures AtRest(p.Hears(raw).accessory.core)
  {
    hide Model.OnFrame, AtRest, Met, Seen, Sent;
    FrameRests(p.accessory, Shown(p.now), raw);
  }

  lemma TransferRests(p: Pair, half: bool, sub: Byte, payload: seq<Byte>)
    requires |payload| % 2 == 0 && |payload| <= 14 && AtRest(p.accessory.core)
    ensures AtRest(p.Transfers(half, sub, payload).accessory.core)
  {
    hide AtRest, Session.TransferFrame, Pair.Hears;
    var d := p.Counts().Waits(POLL_MS);
    HearsRests(d, Session.TransferFrame(Session.HalfBit(half, d.counter), sub, payload));
  }

  lemma ReportRests(p: Pair, frozen: bool)
    requires AtRest(p.accessory.core)
    ensures var r := p.Reports(frozen);
      && AtRest(r.accessory.core) && r.accessory.ident == p.accessory.ident
      && r.serial == p.serial && r.firmware == p.firmware && r.identitySent == p.identitySent
  {
    hide AtRest, Pair.Hears, SimDoor.Report, SimDoor.Advance;
    var d := if frozen then p.door else p.door.Advance();
    var q := p.Waits(POLL_MS).(door := d);
    HearsRests(q, d.Report());
    ReportIdent(q, d);
  }

  lemma ReportIdent(q: Pair, d: SimDoor)
    ensures var r := q.Hears(d.Report());
      && r.accessory.ident == q.accessory.ident
      && r.serial == q.serial && r.firmware == q.firmware && r.identitySent == q.identitySent
  {
    hide Model.OnFrame, SimDoor.Report, Answerable, Applies, Words;
    ReportIsApplied(d);
    OtherIdent(q.accessory, Shown(q.now), d.Report());
  }

  /** The poll of a round in which nothing is pressed. */
  lemma PollAsks(m: Model, now: Millis, counter: Count)
    requires AtRest(m.core) && Begins(m.ident).Asks(now)
    ensures var (d, out) := m.OnFrame(now, Session.PollFrame(counter));
      && AtRest(d.core) && d.ident == Begins(m.ident).Ask(now)
      && out != [] && RequestedBy(out) == Begins(m.ident).wanted && Obeyed(out) == (0, 0)
  {
    hide Model.OnFrame, Next, AtRest, Met, Sent, Answerable, Obeyed, RequestedBy, Ident.Asks, Ident.Ask, CommandValues,
      Session.PollFrame, Pays, Core.Heard;
    var raw := Session.PollFrame(counter);
    Session.PollIsAnswerable(counter);
    PollIsNoPayload(counter);
    PollSeen(m, now, counter);
    PollIsAsking(m, now, counter);
    FrameRests(m, now, raw);
    RestsPlain(m.core);
    PollIdent(m, now, raw);
    FrameObeyed(m, now, raw);
    NothingIsZero();
  }

  lemma PollIsAsking(m: Model, now: Millis, counter: Count)
    ensures Seen(m, now, Frame(Session.PollFrame(counter))) == Asking(counter)
  {
    hide Session.PollFrame;
    Session.ReachesIsSeen(m, now, Drive(counter, false, false), Poll(AnswerLost, false),
                          Frame(Session.PollFrame(counter)));
  }

  lemma PollIsNoPayload(counter: Count)
    ensures !Pays(Frame(Session.PollFrame(counter)))
  {
    Session.PollIsAnswerable(counter);
    hide Session.PollFrame, Answerable;
  }

  lemma RestsPlain(c: Core)
    requires AtRest(c)
    ensures !c.pause.requested && c.caps.hasIdentity
  {
  }

  // ----- two rounds and a turn of the loop -----

  predicate WantsFirst(id: Ident, which: Byte) {
    id.started && id.wanted == which != 0 && !id.asked && id.attempts == 0
  }

  lemma WantingAsks(id: Ident, now: Millis, which: Byte)
    requires WantsFirst(id, which)
    ensures Begins(id).Asks(now) && Begins(id).wanted == which && Begins(id).Ask(now).wanted == which
    ensures var d := Begins(id).Ask(now);
      && d.started && d.serial == id.serial && d.serialReady == id.serialReady && d.firmware == id.firmware
      && d.firmwareReady == id.firmwareReady
  {
  }

  /** The first half of a round that asks: report, poll, and what the drive makes of the answer. */
  lemma AskingRound(p: Pair, f: Faults, which: Byte)
    requires AtRest(p.accessory.core) && WantsFirst(Begins(p.accessory.ident), which) && !f.lost
    ensures var r := p.Reports(f.frozen);
      var h := r.Hears(Session.PollFrame(r.counter)).Notes(r.Answer(), f.reacts);
      var id, d := Begins(p.accessory.ident), h.accessory.ident;
      && p.Rounds(f) == h.Serves(which).Counts() && AtRest(h.accessory.core)
      && d.wanted == which && d.started && d.serial == id.serial && d.serialReady == id.serialReady
      && h.serial == p.serial && h.firmware == p.firmware && h.identitySent == p.identitySent
  {
    hide AtRest, Model.OnFrame, Session.PollFrame, Obeyed, RequestedBy, Ident.Asks, Ident.Ask, Begins, WantsFirst,
      Pair.Reports, Pair.Serves, SimDoor.Apply;
    ReportRests(p, f.frozen);
    var r := p.Reports(f.frozen);
    BeginsTwice(p.accessory.ident);
    WantingAsks(Begins(p.accessory.ident), Shown(r.now), which);
    PollAsks(r.accessory, Shown(r.now), r.counter);
  }

  lemma BeginsTwice(id: Ident)
    ensures Begins(Begins(id)) == Begins(id)
  {
  }

  /** The round in which the serial number comes over. */
  lemma SerialRound(p: Pair, f: Faults)
    requires AtRest(p.accessory.core) && WantsFirst(Begins(p.accessory.ident), 0x05) && !f.lost
    ensures var q := p.Rounds(f);
      && AtRest(q.accessory.core) && WantsFirst(q.accessory.ident, 0x06)
      && q.accessory.ident.serial == Text(p.serial[..26]) && q.accessory.ident.serialReady
      && q.serial == p.serial && q.firmware == p.firmware && q.identitySent == p.identitySent + [0x05]
  {
    hide AtRest, Pair.Transfers, Pair.Reports, Pair.Answer, Pair.Hears, Pair.Notes, Pair.Rounds, Text;
    AskingRound(p, f, 0x05);
    var r := p.Reports(f.frozen);
    var h := r.Hears(Session.PollFrame(r.counter)).Notes(r.Answer(), f.reacts);
    var first, second := h.serial[..14], h.serial[14..26];
    Scenarios.TransferKeeps(h, true, IDENT_SUB_SERIAL, first);
    TransferRests(h, true, IDENT_SUB_SERIAL, first);
    FirstHalfLands(h, first);
    var t := h.Transfers(true, IDENT_SUB_SERIAL, first);
    Scenarios.TransferKeeps(t, false, IDENT_SUB_SERIAL, second);
    TransferRests(t, false, IDENT_SUB_SERIAL, second);
    SecondHalfLands(t, first, second);
    TransferSends(h, true, IDENT_SUB_SERIAL, first);
    TransferSends(t, false, IDENT_SUB_SERIAL, second);
    assert first + second == p.serial[..26];
  }

  lemma TransferSends(p: Pair, half: bool, sub: Byte, payload: seq<Byte>)
    requires |payload| % 2 == 0 && |payload| <= 14
    ensures p.Transfers(half, sub, payload).identitySent == p.identitySent
  {
  }

  /** The round in which the firmware version does. */
  lemma VersionRound(p: Pair, f: Faults)
    requires AtRest(p.accessory.core) && WantsFirst(Begins(p.accessory.ident), 0x06) && !f.lost
    ensures var q, id := p.Rounds(f), Begins(p.accessory.ident);
      && q.accessory.ident.firmware == Text(p.firmware) && q.accessory.ident.firmwareReady
      && q.accessory.ident.serial == id.serial && q.accessory.ident.serialReady == id.serialReady
      && q.identitySent == p.identitySent + [0x06]
  {
    hide AtRest, Pair.Transfers, Pair.Reports, Pair.Answer, Pair.Hears, Pair.Notes, Pair.Rounds, Text;
    AskingRound(p, f, 0x06);
    var r := p.Reports(f.frozen);
    var h := r.Hears(Session.PollFrame(r.counter)).Notes(r.Answer(), f.reacts);
    VersionLands(h, h.firmware);
    TransferSends(h, false, IDENT_SUB_FIRMWARE, h.firmware);
  }

  lemma Publishes(m: Model, serial: seq<Byte>, firmware: seq<Byte>)
    requires m.ident.serialReady && m.ident.serial == serial && |serial| <= 26
    requires m.ident.firmwareReady && m.ident.firmware == firmware && |firmware| <= 12
    ensures m.PublishIdentity().core.door.serial == serial && m.PublishIdentity().core.door.firmware == firmware
  {
  }

  /** Before anything has been heard. */
  predicate Unheard(m: Model) {
    AtRest(m.core) && !m.core.door.valid && m.core.lastFrameOn == 0 && m.ident == NEW_IDENT
  }

  lemma CallUnheard(m: Model, now: Millis, input: Input)
    requires Unheard(m) && (input.Press? || input.StopPress? || input.GoTo?)
    ensures Unheard(m.(core := Next(m.core, now, input)))
  {
  }

  lemma IdleUnheard(p: Pair)
    requires Unheard(p.accessory)
    ensures Unheard(p.Idles().accessory)
  {
  }

  lemma {:induction false} NobodyHeard(serial: SerialText, firmware: FirmwareText, deeds: seq<Deed>)
    requires forall i :: 0 <= i < |deeds| ==> !deeds[i].Round?
    ensures var p := Started(serial, firmware).DoesAll(deeds);
      Unheard(p.accessory) && p.serial == serial && p.firmware == firmware && p.identitySent == []
  {
    hide Unheard, Pair.Idles, Next;
    if deeds == [] {
      StartUnheard(serial, firmware);
    } else {
      var before, deed := deeds[..|deeds| - 1], deeds[|deeds| - 1];
      NobodyHeard(serial, firmware, before);
      var p := Started(serial, firmware).DoesAll(before);
      match deed
      case Press(cmd) => CallUnheard(p.accessory, Shown(p.now), Input.Press(true, cmd));
      case StopDoor => CallUnheard(p.accessory, Shown(p.now), StopPress);
      case GoTo(percent) => CallUnheard(p.accessory, Shown(p.now), Input.GoTo(percent));
      case Idle =>
        IdleUnheard(p);
        IdleKeeps(p);
      case Round(_) =>
    }
  }

  lemma IdleKeeps(p: Pair)
    ensures var q := p.Idles();
      q.serial == p.serial && q.firmware == p.firmware && q.identitySent == p.identitySent
  {
    hide Core.CheckSilence, Model.PublishIdentity;
  }

  lemma StartUnheard(serial: SerialText, firmware: FirmwareText)
    ensures Unheard(Started(serial, firmware).accessory)
  {
  }

  lemma UnheardWants(m: Model)
    requires Unheard(m)
    ensures AtRest(m.core) && WantsFirst(Begins(m.ident), 0x05)
  {
  }

  lemma WantingBegins(id: Ident, which: Byte)
    requires WantsFirst(id, which)
    ensures Begins(id) == id
  {
  }

  /**
   * Whatever is called before the bus comes up: after two rounds whose answers arrive
   * and one turn of the loop the accessory has asked for both values, and publishes
   * the serial number and the firmware version as the drive sent them.
   */
  lemma {:induction false} TheDriveIsKnown(serial: SerialText, firmware: FirmwareText, deeds: seq<Deed>,
                                           f: Faults, g: Faults)
    requires (forall i :: 0 <= i < |deeds| ==> !deeds[i].Round?) && !f.lost && !g.lost
    ensures var p := Started(serial, firmware).DoesAll(deeds).Does(Round(f)).Does(Round(g)).Does(Idle);
      && IsText(p.accessory.core.door.serial, serial[..26]) && IsText(p.accessory.core.door.firmware, firmware)
      && p.identitySent == [0x05, 0x06]
  {
    hide Unheard, AtRest, WantsFirst, Pair.Rounds, Pair.DoesAll, Text, Begins, IsText, Model.PublishIdentity,
      Core.CheckSilence;
    NobodyHeard(serial, firmware, deeds);
    var o := Started(serial, firmware).DoesAll(deeds);
    UnheardWants(o.accessory);
    SerialRound(o, f);
    var p := o.Rounds(f);
    WantingBegins(p.accessory.ident, 0x06);
    VersionRound(p, g);
    var q := p.Rounds(g);
    SerialRuns.TextIsShort(serial[..26]);
    SerialRuns.TextIsShort(firmware);
    TextIsShown(serial[..26]);
    TextIsShown(firmware);
    var c := q.accessory.core.CheckSilence(Shown(q.now + QUIET_MS));
    Publishes(q.accessory.(core := c), Text(serial[..26]), Text(firmware));
  }
}
