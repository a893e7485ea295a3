/**
 * Whatever a scenario does with the simulated drive and its accessory, and
 * whatever it has go wrong, is a session: written down beat by beat it fits from
 * the first round to the last. So the drive obeys nothing nobody asked for, and
 * nothing more than twice.
 */
module Scenarios {
  import opened HcpTypes
  import opened Lifecycle
  import opened Hcp2Frame
  import opened Hcp2Model
  import opened Replies
  import Runs
  import opened Traffic
  import opened DriveRuns
  import Session
  import opened Orders
  import opened Chronicle
  import opened SimDrive

  /** How things stand with a drive, `serving` while it answers a request for its identity. */
  function StageOf(p: Pair, serving: bool): Stage {
    Stage(p.accessory, Drive(p.counter, serving, p.missed), p.now, p.told)
  }

  // ----- a deed, written down -----

  function TransferBeat(p: Pair, half: bool, sub: Byte, payload: seq<Byte>): Beat
    requires |payload| % 2 == 0 && |payload| <= 14
  {
    var d := p.Counts().Waits(POLL_MS);
    Beat(d.now, Frame(Session.TransferFrame(Session.HalfBit(half, d.counter), sub, payload)), Transfer(half, true))
  }

  function ServedBeat(p: Pair): Beat {
    Beat(p.now, Frame([]), Served)
  }

  function PayloadBeats(p: Pair, wanted: Byte): seq<Beat> {
    hide Pair.Transfers;
    if wanted == IDENT_REQ_SERIAL then
      [TransferBeat(p, true, IDENT_SUB_SERIAL, p.serial[..14])]
      + [TransferBeat(p.Transfers(true, IDENT_SUB_SERIAL, p.serial[..14]), false, IDENT_SUB_SERIAL, p.serial[14..26])]
    else if wanted == IDENT_REQ_FIRMWARE then [TransferBeat(p, false, IDENT_SUB_FIRMWARE, p.firmware)]
    else []
  }

  function ServingBeats(p: Pair, wanted: Byte): seq<Beat> {
    PayloadBeats(p, wanted) + [ServedBeat(p.Serves(wanted))]
  }

  function ReportBeat(p: Pair, frozen: bool): Beat {
    var r := p.Reports(frozen);
    Beat(r.now, Frame(r.door.Report()), Other)
  }

  predicate Asks(r: Pair, lost: bool) {
    !lost && RequestedBy(r.Answer()) != 0
  }

  function PollBeat(r: Pair, lost: bool): Beat {
    Beat(r.now, Frame(Session.PollFrame(r.counter)), Poll(if lost then AnswerLost else Delivered, Asks(r, lost)))
  }

  /** What comes after the poll, where the answer asked for something. */
  function AfterPoll(r: Pair, f: Faults): seq<Beat> {
    if Asks(r, f.lost)
    then ServingBeats(r.Hears(Session.PollFrame(r.counter)).Notes(r.Answer(), f.reacts), RequestedBy(r.Answer()))
    else []
  }

  function RoundBeats(p: Pair, f: Faults): seq<Beat> {
    var r := p.Reports(f.frozen);
    [ReportBeat(p, f.frozen)] + ([PollBeat(r, f.lost)] + AfterPoll(r, f))
  }

  function CallBeat(p: Pair, input: Runs.Input): Beat {
    Beat(p.now, Call(input), Other)
  }

  function Script(p: Pair, deed: Deed): seq<Beat> {
    match deed
    case Press(cmd) => [CallBeat(p, Runs.Press(true, cmd))]
    case StopDoor => [CallBeat(p, Runs.StopPress)]
    case GoTo(percent) => [CallBeat(p, Runs.GoTo(percent))]
    case Idle => [Beat(p.now + QUIET_MS, Watchdog, Other)] + [Beat(p.now + QUIET_MS, Publish, Other)]
    case Round(faults) => RoundBeats(p, faults)
  }

  /** A whole scenario, written down. */
  function Written(p: Pair, deeds: seq<Deed>): seq<Beat> {
    if deeds == [] then []
    else
      var before := deeds[..|deeds| - 1];
      Written(p, before) + Script(p.DoesAll(before), deeds[|deeds| - 1])
  }

  // ----- every deed goes on from where the last one ended -----

  lemma CallGoes(p: Pair, input: Runs.Input)
    requires IsCall(input)
    ensures Goes(StageOf(p, false), [CallBeat(p, input)], StageOf(p.Calls(input), false))
  {
    hide Goes, Runs.Next;
    BeatGoes(StageOf(p, false), CallBeat(p, input));
    assert p.told + [] == p.told;
  }

  lemma IdleGoes(p: Pair)
    ensures Goes(StageOf(p, false), Script(p, Idle), StageOf(p.Idles(), false))
  {
    hide Goes, Core.CheckSilence, Model.PublishIdentity;
    var g, now := StageOf(p, false), p.now + QUIET_MS;
    var a, b := Beat(now, Watchdog, Other), Beat(now, Publish, Other);
    BeatGoes(g, a);
    BeatGoes(Chronicle.Step(g, a), b);
    assert p.told + [] == p.told;
    GoesOn(g, [a], Chronicle.Step(g, a), [b], StageOf(p.Idles(), false));
  }

  lemma TransferReaches(d: Drive, half: bool, sub: Byte, payload: seq<Byte>)
    requires |payload| % 2 == 0 && |payload| <= 14
    ensures Session.Reaches(d, Transfer(half, true),
      Frame(Session.TransferFrame(Session.HalfBit(half, Succ(d.counter)), sub, payload)))
  {
    var counterByte := Session.HalfBit(half, Succ(d.counter));
    var f := Session.TransferFrame(counterByte, sub, payload);
    var body := f[..|f| - 2];
    assert f[13] == body[13] == sub;
    assert f[15..|f| - 2] == body[15..] == payload;
  }

  lemma TransferGoes(p: Pair, half: bool, sub: Byte, payload: seq<Byte>)
    requires |payload| % 2 == 0 && |payload| <= 14
    ensures Goes(StageOf(p, true), [TransferBeat(p, half, sub, payload)],
      StageOf(p.Transfers(half, sub, payload), true))
  {
    hide Goes, Model.OnFrame, Session.TransferFrame, Session.Reaches;
    TransferReaches(Drive(p.counter, true, p.missed), half, sub, payload);
    BeatGoes(StageOf(p, true), TransferBeat(p, half, sub, payload));
    assert p.told + [] == p.told;
  }

  lemma SilenceIsBroken(m: Model, now: Millis)
    ensures !Accepted([]) && m.OnFrame(now, []) == (m, [])
  {
  }

  lemma ServedGoes(p: Pair)
    ensures Goes(StageOf(p, true), [ServedBeat(p)], StageOf(p.Counts(), false))
  {
    hide Goes, Model.OnFrame, Accepted;
    SilenceIsBroken(p.accessory, Shown(p.now));
    BeatGoes(StageOf(p, true), ServedBeat(p));
    assert p.told + [] == p.told;
  }

  lemma NothingGoes(g: Stage)
    ensures Goes(g, [], g)
  {
  }

  lemma PayloadsGo(p: Pair, wanted: Byte)
    ensures Goes(StageOf(p, true), PayloadBeats(p, wanted), StageOf(p.Serves(wanted), true))
  {
    hide Goes, Pair.Transfers, TransferBeat;
    if wanted == IDENT_REQ_SERIAL {
      var t := p.Transfers(true, IDENT_SUB_SERIAL, p.serial[..14]);
      TransferKeeps(p, true, IDENT_SUB_SERIAL, p.serial[..14]);
      TransferGoes(p, true, IDENT_SUB_SERIAL, p.serial[..14]);
      TransferGoes(t, false, IDENT_SUB_SERIAL, p.serial[14..26]);
      GoesOn(StageOf(p, true), [TransferBeat(p, true, IDENT_SUB_SERIAL, p.serial[..14])], StageOf(t, true),
             [TransferBeat(t, false, IDENT_SUB_SERIAL, p.serial[14..26])], StageOf(p.Serves(wanted), true));
    } else if wanted == IDENT_REQ_FIRMWARE {
      TransferGoes(p, false, IDENT_SUB_FIRMWARE, p.firmware);
    } else {
      NothingGoes(StageOf(p, true));
    }
  }

  lemma TransferKeeps(p: Pair, half: bool, sub: Byte, payload: seq<Byte>)
    requires |payload| % 2 == 0 && |payload| <= 14
    ensures var q := p.Transfers(half, sub, payload);
      q.serial == p.serial && q.firmware == p.firmware && q.told == p.told && q.door == p.door
  {
    hide Model.OnFrame;
  }

  lemma ServingGoes(p: Pair, wanted: Byte)
    ensures Goes(StageOf(p, true), ServingBeats(p, wanted), StageOf(p.Serves(wanted).Counts(), false))
  {
    hide Goes, PayloadBeats, Pair.Serves, ServedBeat;
    var q := p.Serves(wanted);
    PayloadsGo(p, wanted);
    ServedGoes(q);
    GoesOn(StageOf(p, true), PayloadBeats(p, wanted), StageOf(q, true), [ServedBeat(q)], StageOf(q.Counts(), false));
  }

  lemma ReportGoes(p: Pair, frozen: bool)
    ensures Goes(StageOf(p, false), [ReportBeat(p, frozen)], StageOf(p.Reports(frozen), false))
  {
    hide Goes, Model.OnFrame, SimDoor.Report, SimDoor.Advance, Answerable;
    ReportIsNoExchange(p.Reports(frozen).door);
    BeatGoes(StageOf(p, false), ReportBeat(p, frozen));
    assert p.told + [] == p.told;
  }

  lemma PollIs17(counter: Count)
    ensures |Session.PollFrame(counter)| >= 2 && Session.PollFrame(counter)[1] == 0x17
  {
    hide Crc16.Crc;
  }

  lemma PollIsHeard(m: Model, now: Millis, counter: Count)
    ensures m.OnFrame(now, Session.PollFrame(counter)).1 != []
  {
    hide Model.OnFrame, Session.PollFrame, Answerable;
    Session.PollIsAnswerable(counter);
    PollIs17(counter);
    AnsweredIff(m, now, Session.PollFrame(counter));
  }

  /** The drive after a poll, as long as it has not begun to serve a request. */
  function Polled(r: Pair, f: Faults): Pair {
    var p := r.Hears(Session.PollFrame(r.counter));
    if f.lost then p.(missed := true)
    else if Asks(r, false) then p.Notes(r.Answer(), f.reacts)
    else p.Notes(r.Answer(), f.reacts).Counts()
  }

  lemma PollGoes(r: Pair, f: Faults)
    ensures Goes(StageOf(r, false), [PollBeat(r, f.lost)], StageOf(Polled(r, f), Asks(r, f.lost)))
  {
    hide Goes, Model.OnFrame, Session.PollFrame, Obeyed, RequestedBy, SimDoor.Apply;
    BeatGoes(StageOf(r, false), PollBeat(r, f.lost));
    assert r.told + [] == r.told;
  }

  lemma AfterPollGoes(r: Pair, f: Faults)
    ensures Goes(StageOf(Polled(r, f), Asks(r, f.lost)), AfterPoll(r, f), StageOf(Ended(r, f), false))
  {
    hide Goes, Pair.Hears, Pair.Answer, Pair.Notes, ServingBeats, RequestedBy;
    if Asks(r, f.lost) {
      ServingGoes(r.Hears(Session.PollFrame(r.counter)).Notes(r.Answer(), f.reacts), RequestedBy(r.Answer()));
      hide Pair.Serves;
    } else {
      NothingGoes(StageOf(Polled(r, f), false));
    }
  }

  /** The drive at the end of a round, its answer having come. */
  function Ended(r: Pair, f: Faults): Pair {
    var p := r.Hears(Session.PollFrame(r.counter));
    if f.lost then p.(missed := true) else p.Obeys(r.Answer(), f.reacts)
  }

  lemma RoundGoes(p: Pair, f: Faults)
    ensures Goes(StageOf(p, false), RoundBeats(p, f), StageOf(p.Rounds(f), false))
  {
    hide Goes, ReportBeat, PollBeat, AfterPoll, Polled, Pair.Hears, Pair.Obeys, Pair.Reports, Session.PollFrame;
    var r := p.Reports(f.frozen);
    assert r.Answer() != [] by {
      PollIsHeard(r.accessory, Shown(r.now), r.counter);
    }
    hide Pair.Answer;
    ReportGoes(p, f.frozen);
    PollGoes(r, f);
    AfterPollGoes(r, f);
    GoesOn(StageOf(r, false), [PollBeat(r, f.lost)], StageOf(Polled(r, f), Asks(r, f.lost)), AfterPoll(r, f),
           StageOf(Ended(r, f), false));
    GoesOn(StageOf(p, false), [ReportBeat(p, f.frozen)], StageOf(r, false), [PollBeat(r, f.lost)] + AfterPoll(r, f),
           StageOf(Ended(r, f), false));
  }

  lemma DeedGoes(p: Pair, deed: Deed)
    ensures Goes(StageOf(p, false), Script(p, deed), StageOf(p.Does(deed), false))
  {
    hide Goes, RoundBeats, CallBeat, Pair.Calls, Pair.Rounds, Pair.Idles;
    match deed
    case Press(cmd) => CallGoes(p, Runs.Press(true, cmd));
    case StopDoor => CallGoes(p, Runs.StopPress);
    case GoTo(percent) => CallGoes(p, Runs.GoTo(percent));
    case Idle => IdleGoes(p);
    case Round(faults) => RoundGoes(p, faults);
  }

  lemma {:induction false} ScenarioGoes(p: Pair, deeds: seq<Deed>)
    ensures Goes(StageOf(p, false), Written(p, deeds), StageOf(p.DoesAll(deeds), false))
  {
    hide Goes, Script, Pair.Does, StageOf;
    if deeds == [] {
      NothingGoes(StageOf(p, false));
    } else {
      var before, deed := deeds[..|deeds| - 1], deeds[|deeds| - 1];
      ScenarioGoes(p, before);
      DeedGoes(p.DoesAll(before), deed);
      GoesOn(StageOf(p, false), Written(p, before), StageOf(p.DoesAll(before), false),
             Script(p.DoesAll(before), deed), StageOf(p.DoesAll(deeds), false));
    }
  }

  // ----- what every scenario comes to -----

  ghost function SessionIn(serial: SerialText, firmware: FirmwareText, deeds: seq<Deed>): Session.Session {
    SessionOf(STARTS_AT, Written(Started(serial, firmware), deeds))
  }

  /** Every scenario is a session that ends where the scenario does, and the drive was told what it obeys there. */
  lemma ScenarioIsASession(serial: SerialText, firmware: FirmwareText, deeds: seq<Deed>)
    ensures var p, s := Started(serial, firmware).DoesAll(deeds), SessionIn(serial, firmware, deeds);
      && Session.IsSession(s)
      && s.tape.models[|s.moves|] == p.accessory && s.drives[|s.moves|] == Drive(p.counter, false, p.missed)
      && OrdersIn(s, |s.moves|) == p.told
  {
    hide AllFit, Onto, Written, Session.IsSession, OrdersIn, Pair.DoesAll;
    var p := Started(serial, firmware);
    ScenarioGoes(p, deeds);
    var beats := Written(p, deeds);
    assert StageOf(p, false) == Beginning(STARTS_AT);
    ToldIsOrders(STARTS_AT, beats, |beats|);
    assert beats[..|beats|] == beats;
  }

  /**
   * Whatever a scenario loses, freezes or delays: each order the drive was told
   * goes back to an accepted call and says what that call meant, in the order of
   * the calls, and none of them was told more than twice.
   */
  lemma {:induction false} NothingIsToldUnasked(serial: SerialText, firmware: FirmwareText, deeds: seq<Deed>)
    ensures var told, s := Started(serial, firmware).DoesAll(deeds).told, SessionIn(serial, firmware, deeds);
      && Session.IsSession(s) && IsPlay(Session.PlayOf(s))
      && var a, r := Askers(Session.PlayOf(s), |s.moves|), RunOf(s.tape);
      && |told| == |a| <= 2 * Fills(r, |s.moves|) && Spread(a, 2)
      && (forall i :: 0 <= i < |a| ==> a[i] < |s.moves| && Runs.FilledAt(r, a[i]).Some?
                                       && told[i] == CommandValues(Runs.Meant(Runs.FilledAt(r, a[i]).value)))
  {
    hide *;
    ScenarioIsASession(serial, firmware, deeds);
    var s := SessionIn(serial, firmware, deeds);
    SessionShape(s);
    EveryOrderWasAskedFor(s, |s.moves|);
  }
}
