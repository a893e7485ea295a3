/**
 * What a scenario has to come to at the door: what is shown is the drive's own
 * door, a press moves it with the next round, and a press whose answer was lost
 * moves it with the round after.
 */
module DoorScenarios {
  import opened HcpTypes
  import opened Lifecycle
  import opened Hcp2Frame
  import opened Hcp2Model
  import opened Replies
  import opened Runs
  import opened Traffic
  import opened DriveRuns
  import Session
  import Scenarios
  import opened SimDrive
  import opened ShownRuns

  // ----- the frames of a round, seen from the codec -----

  /** The nine registers of a report. */
  function Words(d: SimDoor): seq<Word> {
    [0, d.position, d.state * 0x100, 0, 0, 0, if d.light then 0x10 else 0x00, 0, 0]
  }

  lemma ReportBytes(d: SimDoor)
    ensures var f := d.Report();
      && |f| == 27 && Accepted(f) && Validate(f) == 25
      && f[..25] == [0x00, 0x10, 0x9D, 0x31, 0x00, 9, 18,
                     0, 0, 0, d.position, d.state, 0, 0, 0, 0, 0, 0, 0, 0, if d.light then 0x10 else 0x00, 0, 0, 0, 0]
  {
    var body := [0x00, 0x10, 0x9D, 0x31, 0x00, 9, 18,
                 0, 0, 0, d.position, d.state, 0, 0, 0, 0, 0, 0, 0, 0, if d.light then 0x10 else 0x00, 0, 0, 0, 0];
    hide Validate, Finished;
    FinishedIsAccepted(body);
  }

  lemma ReportIsApplied(d: SimDoor)
    ensures Applies(d.Report()) && !Answerable(d.Report()) && Rd16(d.Report(), 4) == 9
    ensures Registers(d.Report(), 7, 9) == Words(d)
  {
    var f := d.Report();
    ReportBytes(d);
    hide Validate, SimDoor.Report;
    Session.Same(f, f[..25], 25);
    var r := Registers(f, 7, 9);
    assert r[0] == Rd16(f, 7) && r[1] == Rd16(f, 9) && r[2] == Rd16(f, 11) && r[3] == Rd16(f, 13) && r[4] == Rd16(f, 15)
           && r[5] == Rd16(f, 17) && r[6] == Rd16(f, 19) && r[7] == Rd16(f, 21) && r[8] == Rd16(f, 23);
  }

  /** A report, as the codec takes it. */
  lemma ReportSeen(m: Model, now: Millis, d: SimDoor)
    ensures var h := m.core.Heard(now);
      && Alike(h, m.core)
      && Alike(m.OnFrame(now, d.Report()).0.core, Next(h, now, Report(Words(d))))
  {
    ReportIsApplied(d);
    FrameAlike(m, now, d.Report());
    MetAlike(m, now, Frame(d.Report()));
    hide Model.OnFrame, Next, SimDoor.Report, Answerable, Alike, Words, Core.Heard, Validate;
  }

  function Asking(counter: Count): Input {
    Exchange(counter, CMD_STATUS, true)
  }

  /** A status poll, as the codec takes it, and what the drive reads out of the answer. */
  lemma PollSeen(m: Model, now: Millis, counter: Count)
    ensures var h, raw := m.core.Heard(now), Session.PollFrame(counter);
      && Alike(h, m.core)
      && Alike(m.OnFrame(now, raw).0.core, Next(h, now, Asking(counter)))
      && Obeyed(m.OnFrame(now, raw).1) == CommandValues(CommandOf(Sent(h, now, Asking(counter))))
      && m.OnFrame(now, raw).1 != []
  {
    var raw := Session.PollFrame(counter);
    Session.PollIsAnswerable(counter);
    Session.ReachesIsSeen(m, now, Drive(counter, false, false), Poll(AnswerLost, false), Frame(raw));
    FrameAlike(m, now, raw);
    FrameObeyed(m, now, raw);
    MetAlike(m, now, Frame(raw));
    Scenarios.PollIsHeard(m, now, counter);
    hide Model.OnFrame, Next, Sent, Session.PollFrame, Alike, Core.Heard, Validate, Obeyed, CommandValues, Seen, IsPoll;
  }

  // ----- what is shown is the drive's own door -----

  /** The door that a state byte of the drive is a picture of. */
  function Pictured(state: Byte): DoorState {
    if state == ST_OPENING then Opening
    else if state == ST_CLOSING then Closing
    else if state == ST_OPEN then DoorOpen
    else if state == ST_CLOSED then DoorClosed
    else if state == ST_MOVE_VENTING then MoveVenting
    else if state == ST_VENT then Venting
    else if state == ST_MOVE_HALF then MoveHalf
    else if state == ST_HALFOPEN then HalfOpen
    else Stopped
  }

  predicate IsPicture(state: Byte) {
    state in {ST_STOPPED, ST_OPENING, ST_CLOSING, ST_OPEN, ST_CLOSED,
              ST_MOVE_VENTING, ST_VENT, ST_MOVE_HALF, ST_HALFOPEN}
  }

  /** The state shown is the one the last word says. */
  predicate Said(f: Face) {
    Settled(f) && f.word % 256 == 0 && Named(f.word) == Some(f.state)
  }

  /** The codec has heard nothing of the door yet, and it is closed, or shows what the last word says. */
  predicate Agrees(f: Face, d: SimDoor) {
    && Settled(f) && IsPicture(d.state)
    && (Said(f) || (f.word == 0 && f.state == DoorClosed && d.state == ST_CLOSED))
  }

  predicate Shows(f: Face, d: SimDoor) {
    f.state == Pictured(d.state) && f.current == d.position && f.light == d.light
  }

  lemma AlikeFace(c: Core, d: Core)
    requires Alike(c, d)
    ensures FaceOf(c) == FaceOf(d)
  {
  }

  lemma WordsShow(f: Face, d: SimDoor)
    requires Agrees(f, d)
    ensures Said(Sees(f, Words(d))) && Shows(Sees(f, Words(d)), d)
  {
  }

  lemma ReportFrameShows(m: Model, now: Millis, d: SimDoor)
    requires Agrees(FaceOf(m.core), d)
    ensures var f := FaceOf(m.OnFrame(now, d.Report()).0.core); Said(f) && Shows(f, d)
  {
    hide Model.OnFrame, Next, Core.Heard, FaceOf, Agrees, Said, Shows, Sees, Words, Alike, SimDoor.Report;
    ReportSeen(m, now, d);
    var h := m.core.Heard(now);
    AlikeFace(h, m.core);
    AgreedIsSettled(FaceOf(m.core), d);
    NineWords(d);
    StepFace(h, now, Report(Words(d)));
    AlikeFace(m.OnFrame(now, d.Report()).0.core, Next(h, now, Report(Words(d))));
    WordsShow(FaceOf(m.core), d);
  }

  lemma AgreedIsSettled(f: Face, d: SimDoor)
    requires Agrees(f, d)
    ensures Settled(f)
  {
  }

  lemma NineWords(d: SimDoor)
    ensures |Words(d)| == 9
  {
  }

  /** An exchange shows nothing new. */
  lemma AnsweredFace(m: Model, now: Millis, raw: seq<Byte>)
    requires Answerable(raw) && Settled(FaceOf(m.core))
    ensures FaceOf(m.OnFrame(now, raw).0.core) == FaceOf(m.core)
  {
    hide Model.OnFrame, Next, FaceOf, Settled, Alike, Met, Validate;
    FrameAlike(m, now, raw);
    MetAlike(m, now, Frame(raw));
    AlikeFace(Met(m, now, Frame(raw)), m.core);
    StepFace(Met(m, now, Frame(raw)), now, Seen(m, now, Frame(raw)));
    AlikeFace(m.OnFrame(now, raw).0.core, Next(Met(m, now, Frame(raw)), now, Seen(m, now, Frame(raw))));
  }

  predicate InStep(p: Pair) {
    Agrees(FaceOf(p.accessory.core), p.door)
  }

  lemma AdvanceIsPicture(d: SimDoor)
    requires IsPicture(d.state)
    ensures IsPicture(d.Advance().state) && (d.state == ST_CLOSED ==> d.Advance() == d)
  {
  }

  lemma ApplyIsPicture(d: SimDoor, order: (Word, Word))
    requires IsPicture(d.state)
    ensures IsPicture(d.Apply(order).state)
  {
  }

  /** After the report of a round the codec shows the drive's door. */
  lemma ReportShows(p: Pair, frozen: bool)
    requires InStep(p)
    ensures var r := p.Reports(frozen);
      Said(FaceOf(r.accessory.core)) && Shows(FaceOf(r.accessory.core), r.door) && IsPicture(r.door.state)
  {
    hide Model.OnFrame, FaceOf, Shows, Said, SimDoor.Report, SimDoor.Advance, IsPicture;
    AdvanceKeeps(p.door, FaceOf(p.accessory.core));
    ReportFrameShows(p.accessory, Shown(p.now + POLL_MS), p.Reports(frozen).door);
  }

  lemma AdvanceKeeps(d: SimDoor, f: Face)
    requires Agrees(f, d)
    ensures Agrees(f, d.Advance()) && IsPicture(d.Advance().state) && IsPicture(d.state)
  {
    AdvanceIsPicture(d);
    hide SimDoor.Advance, Named, Settled;
  }

  /** What holds from the report of a round to its end. */
  predicate Holds(p: Pair) {
    Said(FaceOf(p.accessory.core)) && IsPicture(p.door.state)
  }

  lemma HearsHolds(p: Pair, raw: seq<Byte>)
    requires Holds(p) && Answerable(raw)
    ensures Holds(p.Hears(raw)) && FaceOf(p.Hears(raw).accessory.core) == FaceOf(p.accessory.core)
  {
    hide Model.OnFrame, FaceOf, Settled, Named, Answerable, IsPicture;
    AnsweredFace(p.accessory, Shown(p.now), raw);
  }

  lemma TransferHolds(p: Pair, half: bool, sub: Byte, payload: seq<Byte>)
    requires Holds(p) && |payload| % 2 == 0 && |payload| <= 14
    ensures Holds(p.Transfers(half, sub, payload))
  {
    hide Model.OnFrame, FaceOf, Said, IsPicture, Answerable, Session.TransferFrame, Pair.Hears;
    var d := p.Counts().Waits(POLL_MS);
    var counterByte := Session.HalfBit(half, d.counter);
    Session.TransferIsAnswerable(counterByte, sub, payload);
    HearsHolds(d, Session.TransferFrame(counterByte, sub, payload));
  }

  lemma ServesHolds(p: Pair, wanted: Byte)
    requires Holds(p)
    ensures Holds(p.Serves(wanted))
  {
    hide FaceOf, Said, IsPicture, Pair.Transfers;
    if wanted == IDENT_REQ_SERIAL {
      TransferHolds(p, true, IDENT_SUB_SERIAL, p.serial[..14]);
      var t := p.Transfers(true, IDENT_SUB_SERIAL, p.serial[..14]);
      Scenarios.TransferKeeps(p, true, IDENT_SUB_SERIAL, p.serial[..14]);
      TransferHolds(t, false, IDENT_SUB_SERIAL, p.serial[14..26]);
    } else if wanted == IDENT_REQ_FIRMWARE {
      TransferHolds(p, false, IDENT_SUB_FIRMWARE, p.firmware);
    }
  }

  lemma NotesHolds(p: Pair, answer: seq<Byte>, reacts: bool)
    requires Holds(p)
    ensures Holds(p.Notes(answer, reacts))
  {
    hide FaceOf, Said, IsPicture, Obeyed, SimDoor.Apply;
    ApplyIsPicture(p.door, Obeyed(answer));
  }

  lemma RoundHolds(p: Pair, f: Faults)
    requires InStep(p)
    ensures Holds(p.Rounds(f))
  {
    hide FaceOf, Said, IsPicture, Pair.Reports, Pair.Hears, Pair.Answer, Pair.Notes, Pair.Serves, Agrees,
      Session.PollFrame, Answerable;
    ReportShows(p, f.frozen);
    var r := p.Reports(f.frozen);
    Session.PollIsAnswerable(r.counter);
    HearsHolds(r, Session.PollFrame(r.counter));
    var h := r.Hears(Session.PollFrame(r.counter));
    NotesHolds(h, r.Answer(), f.reacts);
    ServesHolds(h.Notes(r.Answer(), f.reacts), RequestedBy(r.Answer()));
  }

  lemma HoldsInStep(p: Pair)
    requires Holds(p)
    ensures InStep(p)
  {
    hide FaceOf, Settled, Named, IsPicture;
  }

  lemma CallInStep(p: Pair, input: Input)
    requires InStep(p) && IsCall(input)
    ensures InStep(p.Calls(input))
  {
    hide FaceOf, Agrees, Next;
    CallFace(p.accessory.core, Shown(p.now), input);
  }

  lemma IdleInStep(p: Pair)
    requires InStep(p)
    ensures InStep(p.Idles())
  {
    hide FaceOf, Agrees, Core.CheckSilence, Model.PublishIdentity;
    var q := p.Waits(QUIET_MS);
    SilenceFace(p.accessory.core, Shown(q.now));
    PublishFace(p.accessory.(core := p.accessory.core.CheckSilence(Shown(q.now))));
  }

  lemma SilenceFace(c: Core, now: Millis)
    ensures FaceOf(c.CheckSilence(now)) == FaceOf(c)
  {
    hide Core.Gone;
    assert c.CheckSilence(now).bcast == c.bcast;
  }

  lemma PublishFace(m: Model)
    ensures FaceOf(m.PublishIdentity().core) == FaceOf(m.core)
  {
  }

  lemma DeedInStep(p: Pair, deed: Deed)
    requires InStep(p)
    ensures InStep(p.Does(deed))
  {
    hide InStep, Pair.Calls, Pair.Rounds, Pair.Idles;
    match deed
    case Press(cmd) => CallInStep(p, Input.Press(true, cmd));
    case StopDoor => CallInStep(p, StopPress);
    case GoTo(percent) => CallInStep(p, Input.GoTo(percent));
    case Idle => IdleInStep(p);
    case Round(faults) =>
      RoundHolds(p, faults);
      HoldsInStep(p.Rounds(faults));
  }

  lemma StartInStep(serial: SerialText, firmware: FirmwareText)
    ensures InStep(Started(serial, firmware))
  {
  }

  lemma {:induction false} ScenarioInStep(serial: SerialText, firmware: FirmwareText, deeds: seq<Deed>)
    ensures InStep(Started(serial, firmware).DoesAll(deeds))
  {
    hide InStep, Pair.Does;
    if deeds == [] {
      StartInStep(serial, firmware);
    } else {
      ScenarioInStep(serial, firmware, deeds[..|deeds| - 1]);
      DeedInStep(Started(serial, firmware).DoesAll(deeds[..|deeds| - 1]), deeds[|deeds| - 1]);
    }
  }

  /**
   * Whatever went before, once the report of a round has been heard, as bytes, the
   * codec shows the door of the drive: its state under the right name, its position
   * and its light; and it still does when the round has been polled and served.
   */
  lemma {:induction false} ShownIsTheDoor(serial: SerialText, firmware: FirmwareText, deeds: seq<Deed>, faults: Faults)
    ensures var p := Started(serial, firmware).DoesAll(deeds);
      var r := p.Reports(faults.frozen);
      var c, d := r.accessory.core, p.Rounds(faults).accessory.core;
      && c.door.state == d.door.state == Pictured(r.door.state)
      && c.door.current == d.door.current == r.door.position
      && c.door.lightOn == d.door.lightOn == r.door.light
  {
    hide InStep, Pair.Rounds, Pair.Reports;
    ScenarioInStep(serial, firmware, deeds);
    var p := Started(serial, firmware).DoesAll(deeds);
    ReportShows(p, faults.frozen);
    RoundShows(p, faults);
    hide Said, Pair.DoesAll, Pictured, IsPicture;
  }

  lemma TransferFace(p: Pair, half: bool, sub: Byte, payload: seq<Byte>)
    requires Holds(p) && |payload| % 2 == 0 && |payload| <= 14
    ensures FaceOf(p.Transfers(half, sub, payload).accessory.core) == FaceOf(p.accessory.core)
  {
    hide Model.OnFrame, FaceOf, Said, IsPicture, Answerable, Session.TransferFrame, Pair.Hears;
    var d := p.Counts().Waits(POLL_MS);
    var counterByte := Session.HalfBit(half, d.counter);
    Session.TransferIsAnswerable(counterByte, sub, payload);
    HearsHolds(d, Session.TransferFrame(counterByte, sub, payload));
  }

  lemma ServesFace(p: Pair, wanted: Byte)
    requires Holds(p)
    ensures FaceOf(p.Serves(wanted).accessory.core) == FaceOf(p.accessory.core)
  {
    hide FaceOf, Said, IsPicture, Pair.Transfers;
    if wanted == IDENT_REQ_SERIAL {
      TransferHolds(p, true, IDENT_SUB_SERIAL, p.serial[..14]);
      TransferFace(p, true, IDENT_SUB_SERIAL, p.serial[..14]);
      var t := p.Transfers(true, IDENT_SUB_SERIAL, p.serial[..14]);
      Scenarios.TransferKeeps(p, true, IDENT_SUB_SERIAL, p.serial[..14]);
      TransferFace(t, false, IDENT_SUB_SERIAL, p.serial[14..26]);
    } else if wanted == IDENT_REQ_FIRMWARE {
      TransferFace(p, false, IDENT_SUB_FIRMWARE, p.firmware);
    }
  }

  lemma RoundShows(p: Pair, f: Faults)
    requires InStep(p)
    ensures FaceOf(p.Rounds(f).accessory.core) == FaceOf(p.Reports(f.frozen).accessory.core)
  {
    hide FaceOf, Said, IsPicture, Pair.Reports, Pair.Hears, Pair.Answer, Pair.Notes, Pair.Serves, Agrees,
      Session.PollFrame, Answerable;
    ReportShows(p, f.frozen);
    var r := p.Reports(f.frozen);
    Session.PollIsAnswerable(r.counter);
    HearsHolds(r, Session.PollFrame(r.counter));
    var h := r.Hears(Session.PollFrame(r.counter));
    NotesHolds(h, r.Answer(), f.reacts);
    NotesAccessory(h, r.Answer(), f.reacts);
    ServesFace(h.Notes(r.Answer(), f.reacts), RequestedBy(r.Answer()));
  }

  lemma NotesAccessory(p: Pair, answer: seq<Byte>, reacts: bool)
    ensures p.Notes(answer, reacts).accessory == p.accessory
  {
  }
}
