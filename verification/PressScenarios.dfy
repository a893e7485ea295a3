/**
 * What a press has to come to at the simulated drive: it is told with the next
 * round, and the door does what was asked; and if that answer is lost, it is told
 * with the round after, unless the door has done it meanwhile.
 */
module PressScenarios {
  import opened HcpTypes
  import opened Lifecycle
  import opened Hcp2Model
  import opened Replies
  import opened Runs
  import opened Traffic
  import opened DriveRuns
  import Session
  import Scenarios
  import opened SimDrive
  import opened ShownRuns
  import SendRuns
  import TargetRuns
  import ActRuns
  import GotoRuns
  import opened DoorScenarios

  /** What the drive is to read in an answer for this command. */
  function Order(cmd: Command): (Word, Word) {
    match cmd
    case Open => CMD_OPEN
    case Close => CMD_CLOSE
    case Impulse => CMD_IMPULSE
    case Half => CMD_HALF
    case Vent => CMD_VENT
    case LightOn => CMD_LIGHT_ON
    case LightOff => CMD_LIGHT_OFF
    case _ => (0, 0)
  }

  lemma OrderIs(cmd: Command)
    ensures Order(cmd) == CommandValues(cmd)
    ensures cmd != NoCommand && cmd != Stop ==> Order(cmd) != (0, 0)
  {
  }

  // ----- no pause, no target -----

  predicate Plain(c: Core) {
    && !c.pause.requested && c.door.goto == 0 && c.slot.gotoRequest == -1 && GotoRuns.Settled(c)
    && c.caps == HCP2_CAPABILITIES
  }

  lemma PlainStep(c: Core, now: Millis, input: Input)
    requires Possible(input) && Plain(c) && input != RequestPause && !input.GoTo?
    ensures Plain(Next(c, now, input))
  {
    SendRuns.StepPause(c, now, input);
    TargetRuns.StepTarget(c, now, input);
    StepCaps(c, now, input);
    hide Next, Sent, Filled, GotoRuns.Settled;
    SettlesOn(c, now, input);
  }

  lemma SettlesOn(c: Core, now: Millis, input: Input)
    requires Possible(input) && GotoRuns.Settled(c)
    ensures GotoRuns.Settled(Next(c, now, input))
  {
    hide Next;
    if input.Exchange? {
      GotoRuns.ExchangeReport(c, now, input);
    } else if input.Report? {
      GotoRuns.ReportSettles(c, now, input.words);
      GotoRuns.ReportIs(c, now, input);
    } else {
      GotoRuns.CallReport(c, now, input);
    }
  }

  lemma AlikePlain(c: Core, d: Core)
    requires Alike(c, d)
    ensures Plain(c) <==> Plain(d)
  {
  }

  lemma FramePlain(m: Model, now: Millis, raw: seq<Byte>)
    requires Plain(m.core)
    ensures Plain(m.OnFrame(now, raw).0.core)
  {
    hide Model.OnFrame, Next, Plain, Alike, Met, Seen;
    FrameAlike(m, now, raw);
    MetAlike(m, now, Frame(raw));
    AlikePlain(Met(m, now, Frame(raw)), m.core);
    SeenIsNoCall(m, now, raw);
    PlainStep(Met(m, now, Frame(raw)), now, Seen(m, now, Frame(raw)));
    AlikePlain(m.OnFrame(now, raw).0.core, Next(Met(m, now, Frame(raw)), now, Seen(m, now, Frame(raw))));
  }

  lemma SeenIsNoCall(m: Model, now: Millis, raw: seq<Byte>)
    ensures var input := Seen(m, now, Frame(raw)); input.Exchange? || input.Report? || input.Noise?
  {
    hide Answerable, Applies;
  }

  lemma HearsPlain(p: Pair, raw: seq<Byte>)
    requires Plain(p.accessory.core)
    ensures Plain(p.Hears(raw).accessory.core)
  {
    hide Model.OnFrame, Plain;
    FramePlain(p.accessory, Shown(p.now), raw);
  }

  lemma ServesPlain(p: Pair, wanted: Byte)
    requires Plain(p.accessory.core)
    ensures Plain(p.Serves(wanted).accessory.core)
  {
    hide Plain, Pair.Hears, Session.TransferFrame;
    if wanted == IDENT_REQ_SERIAL {
      var first, second := p.serial[..14], p.serial[14..26];
      var d := p.Counts().Waits(POLL_MS);
      HearsPlain(d, Session.TransferFrame(Session.HalfBit(true, d.counter), IDENT_SUB_SERIAL, first));
      var t := p.Transfers(true, IDENT_SUB_SERIAL, first);
      var e := t.Counts().Waits(POLL_MS);
      HearsPlain(e, Session.TransferFrame(Session.HalfBit(false, e.counter), IDENT_SUB_SERIAL, second));
    } else if wanted == IDENT_REQ_FIRMWARE {
      var d := p.Counts().Waits(POLL_MS);
      HearsPlain(d, Session.TransferFrame(Session.HalfBit(false, d.counter), IDENT_SUB_FIRMWARE, p.firmware));
    }
  }

  lemma ReportsPlain(p: Pair, frozen: bool)
    requires Plain(p.accessory.core)
    ensures Plain(p.Reports(frozen).accessory.core)
  {
    hide Plain, Pair.Hears, SimDoor.Report, SimDoor.Advance;
    var d := if frozen then p.door else p.door.Advance();
    HearsPlain(p.Waits(POLL_MS).(door := d), d.Report());
  }

  lemma RoundPlain(p: Pair, f: Faults)
    requires Plain(p.accessory.core)
    ensures Plain(p.Rounds(f).accessory.core)
  {
    hide Plain, Pair.Reports, Pair.Hears, Pair.Answer, Pair.Notes, Pair.Serves, Session.PollFrame;
    ReportsPlain(p, f.frozen);
    var r := p.Reports(f.frozen);
    HearsPlain(r, Session.PollFrame(r.counter));
    var h := r.Hears(Session.PollFrame(r.counter));
    NotesAccessory(h, r.Answer(), f.reacts);
    ServesPlain(h.Notes(r.Answer(), f.reacts), RequestedBy(r.Answer()));
  }

  lemma CallPlain(p: Pair, input: Input)
    requires Plain(p.accessory.core) && IsCall(input) && input != RequestPause && !input.GoTo?
    ensures Plain(p.Calls(input).accessory.core)
  {
    hide Plain, Next;
    PlainStep(p.accessory.core, Shown(p.now), input);
  }

  lemma IdlePlain(p: Pair)
    requires Plain(p.accessory.core)
    ensures Plain(p.Idles().accessory.core)
  {
    hide Plain, Core.CheckSilence, Model.PublishIdentity;
    var now := Shown(p.now + QUIET_MS);
    SilencePlain(p.accessory.core, now);
    PublishPlain(p.accessory.(core := p.accessory.core.CheckSilence(now)));
  }

  lemma SilencePlain(c: Core, now: Millis)
    requires Plain(c)
    ensures Plain(c.CheckSilence(now))
  {
    hide Core.Gone;
  }

  lemma PublishPlain(m: Model)
    requires Plain(m.core)
    ensures Plain(m.PublishIdentity().core)
  {
  }

  lemma DeedPlain(p: Pair, deed: Deed)
    requires Plain(p.accessory.core) && !deed.GoTo?
    ensures Plain(p.Does(deed).accessory.core)
  {
    hide Plain, Pair.Calls, Pair.Rounds, Pair.Idles;
    match deed
    case Press(cmd) => CallPlain(p, Input.Press(true, cmd));
    case StopDoor => CallPlain(p, StopPress);
    case GoTo(_) =>
    case Idle => IdlePlain(p);
    case Round(faults) => RoundPlain(p, faults);
  }

  lemma StartPlain(serial: SerialText, firmware: FirmwareText)
    ensures Plain(Started(serial, firmware).accessory.core)
  {
  }

  lemma {:induction false} ScenarioPlain(serial: SerialText, firmware: FirmwareText, deeds: seq<Deed>)
    requires forall i :: 0 <= i < |deeds| ==> !deeds[i].GoTo?
    ensures Plain(Started(serial, firmware).DoesAll(deeds).accessory.core)
  {
    hide Plain, Pair.Does;
    if deeds == [] {
      StartPlain(serial, firmware);
    } else {
      ScenarioPlain(serial, firmware, deeds[..|deeds| - 1]);
      DeedPlain(Started(serial, firmware).DoesAll(deeds[..|deeds| - 1]), deeds[|deeds| - 1]);
    }
  }

  // ----- after a round somebody listens and nothing waits -----

  predicate Free(c: Core) {
    Plain(c) && c.door.valid && c.slot.next == NoCommand && !c.slot.cancelWatch
  }

  lemma AlikeFree(c: Core, d: Core)
    requires Alike(c, d)
    ensures Free(c) <==> Free(d)
  {
  }

  lemma PollFrees(m: Model, now: Millis, counter: Count)
    requires Plain(m.core)
    ensures Free(m.OnFrame(now, Session.PollFrame(counter)).0.core)
  {
    hide Model.OnFrame, Next, Sent, Core.Heard, Alike, Plain, Obeyed, CommandValues, Session.PollFrame;
    PollSeen(m, now, counter);
    var h := m.core.Heard(now);
    AlikePlain(h, m.core);
    PlainStep(h, now, Asking(counter));
    PlainUnpaused(h);
    EmptiesAndLinks(h, now, Asking(counter));
    AlikeFree(m.OnFrame(now, Session.PollFrame(counter)).0.core, Next(h, now, Asking(counter)));
  }

  lemma EmptiesAndLinks(c: Core, now: Millis, input: Input)
    requires input.Exchange? && input.poll && Possible(input) && !c.pause.requested
    ensures var d := Next(c, now, input); d.door.valid && d.slot.next == NoCommand && !d.slot.cancelWatch
  {
    hide Next, Received, Core.Poll;
    ExchangeParts(c, now, input);
    ReceivedTouches(c, input);
    SendRuns.PollEmpties(Received(c, input), now);
  }

  lemma PlainUnpaused(c: Core)
    requires Plain(c)
    ensures !c.pause.requested
  {
  }

  /** Any exchange but a poll leaves the slot alone. */
  lemma TransferFrees(p: Pair, half: bool, sub: Byte, payload: seq<Byte>)
    requires |payload| % 2 == 0 && |payload| <= 14 && Free(p.accessory.core)
    ensures Free(p.Transfers(half, sub, payload).accessory.core)
  {
    hide Model.OnFrame, Next, Alike, Met, Free, Session.TransferFrame, Answerable, IsPoll;
    var d := p.Counts().Waits(POLL_MS);
    var counterByte := Session.HalfBit(half, d.counter);
    var raw := Session.TransferFrame(counterByte, sub, payload);
    Session.TransferIsAnswerable(counterByte, sub, payload);
    var m, now := d.accessory, Shown(d.now);
    FrameAlike(m, now, raw);
    MetAlike(m, now, Frame(raw));
    AlikeFree(Met(m, now, Frame(raw)), m.core);
    TransferStep(Met(m, now, Frame(raw)), now, Seen(m, now, Frame(raw)));
    AlikeFree(m.OnFrame(now, raw).0.core, Next(Met(m, now, Frame(raw)), now, Seen(m, now, Frame(raw))));
  }

  lemma TransferStep(c: Core, now: Millis, input: Input)
    requires input.Exchange? && !input.poll && Possible(input) && Free(c)
    ensures Free(Next(c, now, input))
  {
    PlainStep(c, now, input);
    ExchangeParts(c, now, input);
    ReceivedTouches(c, input);
    hide Next, Received, Plain;
  }

  lemma ServesFrees(p: Pair, wanted: Byte)
    requires Free(p.accessory.core)
    ensures Free(p.Serves(wanted).accessory.core)
  {
    hide Free, Pair.Transfers;
    if wanted == IDENT_REQ_SERIAL {
      TransferFrees(p, true, IDENT_SUB_SERIAL, p.serial[..14]);
      Scenarios.TransferKeeps(p, true, IDENT_SUB_SERIAL, p.serial[..14]);
      TransferFrees(p.Transfers(true, IDENT_SUB_SERIAL, p.serial[..14]), false, IDENT_SUB_SERIAL, p.serial[14..26]);
    } else if wanted == IDENT_REQ_FIRMWARE {
      TransferFrees(p, false, IDENT_SUB_FIRMWARE, p.firmware);
    }
  }

  lemma RoundFrees(p: Pair, f: Faults)
    requires Plain(p.accessory.core)
    ensures Free(p.Rounds(f).accessory.core)
  {
    hide Plain, Free, Model.OnFrame, Pair.Reports, Pair.Answer, Pair.Notes, Pair.Serves, Session.PollFrame;
    ReportsPlain(p, f.frozen);
    var r := p.Reports(f.frozen);
    PollFrees(r.accessory, Shown(r.now), r.counter);
    var h := r.Hears(Session.PollFrame(r.counter));
    NotesAccessory(h, r.Answer(), f.reacts);
    ServesFrees(h.Notes(r.Answer(), f.reacts), RequestedBy(r.Answer()));
  }

  // ----- the press, the report, and the poll that takes it -----

  /** A command waits in the slot since `at`. */
  predicate Pressed(c: Core, cmd: Command, at: Millis) {
    Plain(c) && c.door.valid && c.slot.next == cmd && c.slot.nextOn == at && !c.slot.cancelWatch
  }

  lemma AlikePressed(c: Core, d: Core, cmd: Command, at: Millis)
    requires Alike(c, d)
    ensures Pressed(c, cmd, at) <==> Pressed(d, cmd, at)
  {
  }

  lemma PressIsTaken(c: Core, now: Millis, cmd: Command)
    requires Free(c)
    ensures Pressed(Next(c, now, Input.Press(true, cmd)), cmd, now)
  {
  }

  /** A telegram without a target to stop at leaves slot, watch and receipt alone. */
  lemma ReportLeaves(c: Core, now: Millis, words: seq<Word>)
    requires |words| <= 9 && Plain(c)
    ensures var d := Next(c, now, Report(words));
      && Plain(d) && d.slot == c.slot && d.watch == c.watch && d.receipt == c.receipt && d.door.valid
  {
    PlainStep(c, now, Report(words));
    GotoRuns.ReportStopsIff(c, now, words);
    GotoRuns.ReportIs(c, now, Report(words));
    StepTouches(c, now, Report(words));
    SendRuns.StepPause(c, now, Report(words));
    ReportLinks(c, now, words);
    hide Next, Core.Report, Filled;
  }

  lemma ReportLinks(c: Core, now: Millis, words: seq<Word>)
    requires |words| <= 9
    ensures c.Report(now, words).door.valid
  {
    ReportTouches(c.LinkUp(), words, 0);
    hide Core.WriteFrom;
  }

  lemma ReportFrameLeaves(m: Model, now: Millis, d: SimDoor)
    requires Plain(m.core)
    ensures var e := m.OnFrame(now, d.Report()).0.core;
      && Plain(e) && e.slot == m.core.slot && e.watch == m.core.watch && e.receipt == m.core.receipt && e.door.valid
  {
    hide Model.OnFrame, Next, Core.Heard, Plain, Words, SimDoor.Report;
    ReportSeen(m, now, d);
    var h := m.core.Heard(now);
    AlikePlain(h, m.core);
    NineWords(d);
    ReportLeaves(h, now, Words(d));
    AlikePlain(m.OnFrame(now, d.Report()).0.core, Next(h, now, Report(Words(d))));
  }

  lemma PressIsSent(c: Core, now: Millis, counter: Count, cmd: Command, at: Millis)
    requires Pressed(c, cmd, at) && Elapsed(now, at) <= 2000 && cmd != NoCommand && cmd != Stop
    ensures Sent(c, now, Asking(counter)) == Fresh(cmd)
  {
    SendRuns.SendsFresh(c, now, Asking(counter));
    hide Sent, Elapsed;
  }

  /** The answer to a poll that finds a press waiting. */
  lemma PressIsAnswered(m: Model, now: Millis, counter: Count, cmd: Command, at: Millis)
    requires Pressed(m.core, cmd, at) && Elapsed(now, at) <= 2000 && cmd != NoCommand && cmd != Stop
    ensures var out := m.OnFrame(now, Session.PollFrame(counter)).1;
      out != [] && Obeyed(out) == Order(cmd) != (0, 0) && RequestedBy(out) == 0
  {
    hide Model.OnFrame, Next, Sent, Core.Heard, Pressed, CommandValues, Obeyed, RequestedBy, Elapsed, Order,
      Session.PollFrame;
    PollSeen(m, now, counter);
    AlikePressed(m.core.Heard(now), m.core, cmd, at);
    PressIsSent(m.core.Heard(now), now, counter, cmd, at);
    OrderIs(cmd);
    AsksNothing(m.OnFrame(now, Session.PollFrame(counter)).1);
  }

  lemma AsksNothing(answer: seq<Byte>)
    requires Obeyed(answer) != (0, 0)
    ensures RequestedBy(answer) == 0
  {
    hide Reading;
  }

  lemma RoundLater(now: nat)
    ensures Elapsed(Shown(now + POLL_MS), Shown(now)) == POLL_MS
  {
    ElapsedIsReal(now + POLL_MS, now);
  }

  lemma ReportsPressed(p: Pair, frozen: bool, cmd: Command, at: Millis)
    requires Pressed(p.accessory.core, cmd, at)
    ensures var r := p.Reports(frozen);
      Pressed(r.accessory.core, cmd, at) && r.now == p.now + POLL_MS && r.counter == p.counter && r.told == p.told
  {
    hide Plain, Model.OnFrame, SimDoor.Report, SimDoor.Advance;
    var d := if frozen then p.door else p.door.Advance();
    ReportFrameLeaves(p.accessory, Shown(p.now + POLL_MS), d);
  }

  /** The round after a press, its answer arriving. */
  lemma PressRound(p: Pair, cmd: Command, f: Faults)
    requires Pressed(p.accessory.core, cmd, Shown(p.now)) && cmd != NoCommand && cmd != Stop && !f.lost
    ensures var q, d := p.Rounds(f), p.Reports(f.frozen).door;
      q.told == p.told + [Order(cmd)] && q.door == (if f.reacts then d.Apply(Order(cmd)) else d)
  {
    hide Pressed, Model.OnFrame, Obeyed, RequestedBy, Order, SimDoor.Apply, Session.PollFrame, Pair.Reports, Elapsed;
    ReportsPressed(p, f.frozen, cmd, Shown(p.now));
    RoundLater(p.now);
    var r := p.Reports(f.frozen);
    PressIsAnswered(r.accessory, Shown(r.now), r.counter, cmd, Shown(p.now));
    ServesNothing(r.Hears(Session.PollFrame(r.counter)).Notes(r.Answer(), f.reacts));
    hide Pair.Serves;
  }

  lemma ServesNothing(p: Pair)
    ensures p.Serves(0) == p
  {
    hide Pair.Transfers;
  }

  /**
   * After any scenario without a go-to call: a press that follows a round is told the
   * drive with the very next round, in the drive's own numbers, and a door that
   * reacts does what was asked. It is told once, as the last order there is.
   */
  lemma {:induction false} APressIsTold(serial: SerialText, firmware: FirmwareText, deeds: seq<Deed>, first: Faults,
                                        cmd: Command, f: Faults)
    requires forall i :: 0 <= i < |deeds| ==> !deeds[i].GoTo?
    requires cmd != NoCommand && cmd != Stop && !f.lost
    ensures var p := Started(serial, firmware).DoesAll(deeds).Does(Round(first)).Does(Deed.Press(cmd));
      var q, d := p.Does(Round(f)), p.Reports(f.frozen).door;
      q.told == p.told + [Order(cmd)] && q.door == (if f.reacts then d.Apply(Order(cmd)) else d)
  {
    hide Plain, Free, Pressed, Next, Pair.Rounds, Pair.Reports, Pair.DoesAll;
    ScenarioPlain(serial, firmware, deeds);
    var o := Started(serial, firmware).DoesAll(deeds);
    RoundFrees(o, first);
    var q := o.Rounds(first);
    PressIsTaken(q.accessory.core, Shown(q.now), cmd);
    PressRound(q.Calls(Input.Press(true, cmd)), cmd, f);
  }

  // ----- and if that answer is lost -----

  /** A command has just gone out in answer to this count. */
  predicate JustSent(c: Core, cmd: Command, counter: Count) {
    && Free(c) && c.watch.lastSent == cmd && c.watch.repeat == NoCommand && c.watch.repeatsSent == 0
    && c.receipt == Receipt(Succ(counter), counter, true)
    && c.watch.stateWritesWhenSent == c.stateWrites
  }

  lemma AlikeSent(c: Core, d: Core, cmd: Command, counter: Count)
    requires Alike(c, d)
    ensures JustSent(c, cmd, counter) <==> JustSent(d, cmd, counter)
    ensures c.bcast == d.bcast && c.stateWrites == d.stateWrites
  {
  }

  lemma FreshCounts(c: Core, now: Millis)
    requires c.Choose(now).Fresh?
    ensures c.Poll(now).watch.repeatsSent == 0
  {
    hide Core.Ready;
  }

  lemma SentLeaves(c: Core, now: Millis, counter: Count, cmd: Command)
    requires Plain(c) && Sent(c, now, Asking(counter)) == Fresh(cmd)
    ensures JustSent(Next(c, now, Asking(counter)), cmd, counter)
    ensures Next(c, now, Asking(counter)).bcast == c.bcast
  {
    var input := Asking(counter);
    PlainStep(c, now, input);
    EmptiesAndLinks(c, now, input);
    SendRuns.ExchangeReceipt(c, now, input);
    ActRuns.FreshWatches(c, now, input);
    ExchangeParts(c, now, input);
    ReceivedTouches(c, input);
    FreshCounts(Received(c, input), now);
    GotoRuns.ExchangeReport(c, now, input);
    hide Next, Received, Plain, Core.Poll, Core.Choose;
  }

  /** The answer to the next poll of the same count, a report having come in between. */
  lemma LostIsSentAgain(c: Core, now: Millis, counter: Count, cmd: Command)
    requires Free(c) && c.watch.lastSent == cmd != NoCommand && c.watch.repeat == NoCommand && c.watch.repeatsSent == 0
    requires c.receipt == Receipt(Succ(counter), counter, true)
    ensures Sent(c, now, Asking(counter))
      == (if (if cmd == Impulse then c.stateWrites != c.watch.stateWritesWhenSent else SendRuns.Leads(cmd, c.door))
          then Nothing else Again(cmd))
  {
    SendRuns.SendsAgain(c, now, Asking(counter));
    hide Sent, SendRuns.Leads;
  }

  /** The drive's own door shows that it has done what was asked; for an impulse, that its state is another one. */
  predicate Done(cmd: Command, before: SimDoor, d: SimDoor) {
    match cmd
    case Open => d.state == ST_OPENING || d.state == ST_OPEN
    case Close => d.state == ST_CLOSING || d.state == ST_CLOSED
    case Half => d.state == ST_MOVE_HALF || d.state == ST_HALFOPEN
    case Vent => d.state == ST_MOVE_VENTING || d.state == ST_VENT
    case LightOn => d.light
    case LightOff => !d.light
    case _ => d.state != before.state
  }

  lemma DoneLeads(c: Core, cmd: Command, before: SimDoor, d: SimDoor)
    requires Shows(FaceOf(c), d) && IsPicture(d.state) && cmd != Impulse && cmd != NoCommand && cmd != Stop
    ensures SendRuns.Leads(cmd, c.door) <==> Done(cmd, before, d)
  {
  }

  /** What the report between leaves of all that, and what it shows. */
  lemma ReportCounts(m: Model, now: Millis, d: SimDoor)
    requires Plain(m.core) && Agrees(FaceOf(m.core), d)
    ensures var e := m.OnFrame(now, d.Report()).0.core;
      && e.bcast[2] == d.state * 0x100
      && e.stateWrites == m.core.stateWrites + (if d.state * 0x100 != m.core.bcast[2] then 1 else 0)
      && Shows(FaceOf(e), d)
  {
    hide Model.OnFrame, Next, Core.Heard, Plain, Alike, SimDoor.Report, Agrees, Shows, Said, FaceOf;
    ReportFrameShows(m, now, d);
    ReportSeen(m, now, d);
    var h := m.core.Heard(now);
    NineWords(d);
    SendRuns.StepWord(h, now, Report(Words(d)));
    SameWrites(h, m.core);
    SameWrites(m.OnFrame(now, d.Report()).0.core, Next(h, now, Report(Words(d))));
  }

  lemma SameWrites(c: Core, d: Core)
    requires Alike(c, d)
    ensures c.bcast == d.bcast && c.stateWrites == d.stateWrites
  {
  }

  lemma PollLeaves(m: Model, now: Millis, counter: Count, cmd: Command, at: Millis)
    requires Pressed(m.core, cmd, at) && Elapsed(now, at) <= 2000 && cmd != NoCommand && cmd != Stop
    ensures var e := m.OnFrame(now, Session.PollFrame(counter)).0.core;
      JustSent(e, cmd, counter) && e.bcast == m.core.bcast
  {
    hide Model.OnFrame, Next, Sent, Core.Heard, Plain, Alike, Obeyed, CommandValues, Session.PollFrame, Elapsed,
      JustSent;
    PollSeen(m, now, counter);
    var h := m.core.Heard(now);
    AlikePressed(h, m.core, cmd, at);
    PressIsSent(h, now, counter, cmd, at);
    SentLeaves(h, now, counter, cmd);
    AlikeSent(m.OnFrame(now, Session.PollFrame(counter)).0.core, Next(h, now, Asking(counter)), cmd, counter);
    SameWrites(h, m.core);
  }

  /** A round whose answer is lost, with a press in it. */
  lemma LostRound(p: Pair, cmd: Command, f: Faults)
    requires Pressed(p.accessory.core, cmd, Shown(p.now)) && cmd != NoCommand && cmd != Stop && f.lost && InStep(p)
    ensures var q, d := p.Rounds(f), p.Reports(f.frozen).door;
      && JustSent(q.accessory.core, cmd, p.counter) && q.accessory.core.bcast[2] == d.state * 0x100
      && q.counter == p.counter && q.told == p.told && q.door == d
  {
    hide Model.OnFrame, Obeyed, RequestedBy, Order, Session.PollFrame, Elapsed, JustSent, InStep, SimDoor.Report,
      SimDoor.Advance, Plain;
    ReportsPressed(p, f.frozen, cmd, Shown(p.now));
    RoundLater(p.now);
    var d := if f.frozen then p.door else p.door.Advance();
    InStepOn(p, f.frozen);
    ReportCounts(p.accessory, Shown(p.now + POLL_MS), d);
    var r := p.Reports(f.frozen);
    PollLeaves(r.accessory, Shown(r.now), r.counter, cmd, Shown(p.now));
    Scenarios.PollIsHeard(r.accessory, Shown(r.now), r.counter);
  }

  lemma InStepOn(p: Pair, frozen: bool)
    requires InStep(p)
    ensures Agrees(FaceOf(p.accessory.core), if frozen then p.door else p.door.Advance())
  {
    hide Agrees, FaceOf, SimDoor.Advance;
    AdvanceKeeps(p.door, FaceOf(p.accessory.core));
  }

  lemma SentPlain(c: Core, cmd: Command, counter: Count)
    requires JustSent(c, cmd, counter)
    ensures Plain(c) && c.watch.stateWritesWhenSent == c.stateWrites
  {
  }

  lemma NextAnswer(m: Model, now: Millis, counter: Count, cmd: Command)
    requires Free(m.core) && m.core.watch.lastSent == cmd && m.core.watch.repeat == NoCommand
    requires m.core.watch.repeatsSent == 0 && m.core.receipt == Receipt(Succ(counter), counter, true)
    requires cmd != NoCommand && cmd != Stop
    ensures var out, c := m.OnFrame(now, Session.PollFrame(counter)).1, m.core;
      && out != []
      && Obeyed(out) == (if (if cmd == Impulse then c.stateWrites != c.watch.stateWritesWhenSent
                             else SendRuns.Leads(cmd, c.door))
                         then (0, 0) else Order(cmd))
      && (Obeyed(out) != (0, 0) ==> RequestedBy(out) == 0)
  {
    hide Model.OnFrame, Next, Sent, Core.Heard, Free, CommandValues, Obeyed, RequestedBy, Order, Session.PollFrame,
      SendRuns.Leads;
    PollSeen(m, now, counter);
    var h := m.core.Heard(now);
    AlikeFree(h, m.core);
    SameLeads(h, m.core, cmd);
    LostIsSentAgain(h, now, counter, cmd);
    OrderIs(cmd);
    OrderIs(NoCommand);
    NoOrder();
    if Obeyed(m.OnFrame(now, Session.PollFrame(counter)).1) != (0, 0) {
      AsksNothing(m.OnFrame(now, Session.PollFrame(counter)).1);
    }
  }

  lemma NoOrder()
    ensures Order(NoCommand) == (0, 0)
  {
  }

  lemma SameLeads(c: Core, d: Core, cmd: Command)
    requires Alike(c, d)
    ensures SendRuns.Leads(cmd, c.door) == SendRuns.Leads(cmd, d.door)
  {
  }

  /** The round after, its answer arriving. */
  lemma NextRound(p: Pair, cmd: Command, before: SimDoor, f: Faults)
    requires JustSent(p.accessory.core, cmd, p.counter) && InStep(p) && cmd != NoCommand && cmd != Stop && !f.lost
    requires p.accessory.core.bcast[2] == before.state * 0x100
    ensures var q, d := p.Rounds(f), p.Reports(f.frozen).door;
      q.told == p.told + (if Done(cmd, before, d) then [] else [Order(cmd)])
  {
    hide Model.OnFrame, Obeyed, RequestedBy, Order, Session.PollFrame, InStep, SimDoor.Report, SimDoor.Apply,
      SimDoor.Advance, Done, SendRuns.Leads, Agrees, Shows, FaceOf, Pair.Serves;
    var d := if f.frozen then p.door else p.door.Advance();
    var now := Shown(p.now + POLL_MS);
    InStepOn(p, f.frozen);
    SentPlain(p.accessory.core, cmd, p.counter);
    ReportFrameLeaves(p.accessory, now, d);
    ReportCounts(p.accessory, now, d);
    var r := p.Reports(f.frozen);
    NextAnswer(r.accessory, now, p.counter, cmd);
    PictureOn(p, f.frozen);
    OtherDone(cmd, before, d);
    if cmd != Impulse {
      DoneLeads(r.accessory.core, cmd, before, d);
    }
    OrderIs(cmd);
    var h := r.Hears(Session.PollFrame(r.counter)).Notes(r.Answer(), f.reacts);
    ToldStays(h, RequestedBy(r.Answer()));
    assert p.told + [] == p.told;
  }

  lemma PictureOn(p: Pair, frozen: bool)
    requires InStep(p)
    ensures IsPicture((if frozen then p.door else p.door.Advance()).state)
  {
    hide FaceOf, SimDoor.Advance, Settled, Said;
    AdvanceKeeps(p.door, FaceOf(p.accessory.core));
  }

  lemma OtherDone(cmd: Command, before: SimDoor, d: SimDoor)
    ensures cmd == Impulse ==> (Done(cmd, before, d) <==> d.state * 0x100 != before.state * 0x100)
  {
  }

  lemma ToldStays(p: Pair, wanted: Byte)
    ensures p.Serves(wanted).told == p.told
  {
    hide Pair.Transfers;
    if wanted == IDENT_REQ_SERIAL {
      Scenarios.TransferKeeps(p, true, IDENT_SUB_SERIAL, p.serial[..14]);
      Scenarios.TransferKeeps(p.Transfers(true, IDENT_SUB_SERIAL, p.serial[..14]), false, IDENT_SUB_SERIAL,
                              p.serial[14..26]);
    } else if wanted == IDENT_REQ_FIRMWARE {
      Scenarios.TransferKeeps(p, false, IDENT_SUB_FIRMWARE, p.firmware);
    }
  }

  /**
   * The same with that answer lost: the drive is told with the round after, once, if
   * and only if its own door has not meanwhile done what was asked.
   */
  lemma {:induction false} ALostPressIsTold(serial: SerialText, firmware: FirmwareText, deeds: seq<Deed>, first: Faults,
                                            cmd: Command, lost: Faults, f: Faults)
    requires forall i :: 0 <= i < |deeds| ==> !deeds[i].GoTo?
    requires cmd != NoCommand && cmd != Stop && lost.lost && !f.lost
    ensures var p := Started(serial, firmware).DoesAll(deeds).Does(Round(first)).Does(Deed.Press(cmd));
      var l := p.Does(Round(lost));
      var q, before, d := l.Does(Round(f)), p.Reports(lost.frozen).door, l.Reports(f.frozen).door;
      l.told == p.told && q.told == p.told + (if Done(cmd, before, d) then [] else [Order(cmd)])
  {
    hide Plain, Free, Pressed, Next, Pair.Rounds, Pair.Reports, Pair.DoesAll, JustSent, InStep, Done, Order;
    ScenarioPlain(serial, firmware, deeds);
    ScenarioInStep(serial, firmware, deeds);
    var o := Started(serial, firmware).DoesAll(deeds);
    RoundFrees(o, first);
    DeedInStep(o, Round(first));
    var q := o.Rounds(first);
    PressIsTaken(q.accessory.core, Shown(q.now), cmd);
    DeedInStep(q, Deed.Press(cmd));
    var p := q.Calls(Input.Press(true, cmd));
    LostRound(p, cmd, lost);
    DeedInStep(p, Round(lost));
    NextRound(p.Rounds(lost), cmd, p.Reports(lost.frozen).door, f);
  }
}
