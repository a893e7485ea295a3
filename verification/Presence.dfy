/**
 * Whether the drive is there, on the newer bus, told from frames and calls alone:
 * what the link is shown as, whether a pause was confirmed, and which calls are
 * taken because of it. Each is exact over every run of bytes.
 */
module Presence {
  import opened HcpTypes
  import opened HcpState
  import opened Lifecycle
  import opened Hcp2Frame
  import opened Hcp2Model
  import opened Replies
  import opened Runs
  import opened Traffic
  import SendRuns
  import ShownRuns
  import AskRuns

  // ----- by what happened -----

  predicate IsHeard(act: Act) {
    act.Frame? && Accepted(act.raw)
  }

  /** The last frame before step `k` whose checksum held, whoever it was for, or -1. */
  ghost function LastHeard(t: Recording, k: nat): (h: int)
    requires IsRecording(t) && k < |t.models|
    ensures -1 <= h < k
  {
    if k == 0 then -1 else if IsHeard(t.acts[k - 1]) then k - 1 else LastHeard(t, k - 1)
  }

  /** The clock reading kept of a frame, where 0 is kept for none. */
  function Kept(now: Millis): Millis {
    if now == 0 then 1 else now
  }

  /** A look at the bus finds that the last frame was heard more than 20000 ms ago. */
  ghost predicate FindsSilence(t: Recording, k: nat)
    requires IsRecording(t) && k < |t.acts|
  {
    t.acts[k].Watchdog? && LastHeard(t, k) >= 0
    && Elapsed(Shown(t.times[k]), Kept(Shown(t.times[LastHeard(t, k)]))) > 20000
  }

  /** The last word about a pause was to request one. */
  ghost predicate Pausing(t: Recording, k: nat)
    requires IsRecording(t) && k < |t.models|
  {
    k > 0 && (t.acts[k - 1] == Call(RequestPause) || (t.acts[k - 1] != Call(EndPause) && Pausing(t, k - 1)))
  }

  /** A transfer in which the drive names us as the one it pauses. */
  predicate Confirms(act: Act) {
    && act.Frame? && Answerable(act.raw) && Rd16(act.raw, 8) >= 3
    && act.raw[12] == 0x04 && act.raw[13] == 0x19 && act.raw[14] == 0x00 && act.raw[15] == 0x02
  }

  /** The drive has named us since a pause was last requested. */
  ghost predicate Confirmed(t: Recording, k: nat)
    requires IsRecording(t) && k < |t.models|
  {
    k > 0 && (Confirms(t.acts[k - 1]) || (t.acts[k - 1] != Call(RequestPause) && Confirmed(t, k - 1)))
  }

  /** A frame that is answered, or a report that is applied. */
  predicate Serves(act: Act) {
    act.Frame? && (Answerable(act.raw) || Applies(act.raw))
  }

  /** A frame has been served since silence was last found. */
  ghost predicate Up(t: Recording, k: nat)
    requires IsRecording(t) && k < |t.models|
  {
    k > 0 && (Serves(t.acts[k - 1]) || (!FindsSilence(t, k - 1) && Up(t, k - 1)))
  }

  predicate IsStatusPoll(act: Act) {
    && act.Frame? && Answerable(act.raw)
    && Rd16(act.raw, 4) == 8 && Rd16(act.raw, 8) == 2 && act.raw[12] == 0x03
  }

  /**
   * What the link is to be shown as: registered with every frame that is served, or
   * paused with a status poll during a pause, until silence is found; and
   * enumerating from the first frame that holds to the first that is served.
   */
  ghost function LinkBy(t: Recording, k: nat): Link
    requires IsRecording(t) && k < |t.models|
  {
    if k == 0 then NeverSeen
    else
      var act, before := t.acts[k - 1], LinkBy(t, k - 1);
      if Serves(act) && !Pausing(t, k - 1) then Registered
      else if IsStatusPoll(act) then Paused
      else if IsHeard(act) && before == NeverSeen then Enumerating
      else if FindsSilence(t, k - 1) then Silent
      else before
  }

  // ----- one step -----

  /** The part of the state this is about. */
  datatype Contact = Contact(valid: bool, link: Link, pausing: bool, confirmed: bool, heardOn: Millis)

  function ContactOf(c: Core): Contact {
    Contact(c.door.valid, c.door.link, c.pause.requested, c.pause.confirmed, c.lastFrameOn)
  }

  lemma SyncContact(c: Core, counterByte: Byte, command: Byte)
    ensures ContactOf(c.SyncCounter(counterByte, command).ForgetSent()) == ContactOf(c)
  {
  }

  lemma EffectContact(c: Core, now: Millis)
    ensures ContactOf(c.CheckEffect(now)) == ContactOf(c)
  {
    hide Elapsed, Core.TookEffect;
  }

  lemma ReadyContact(c: Core, now: Millis)
    ensures ContactOf(c.Ready(now).TakeStop()) == ContactOf(c)
  {
    EffectContact(c, now);
    hide Core.CheckEffect, Elapsed;
  }

  lemma PollContact(c: Core, now: Millis)
    ensures ContactOf(c.Poll(now)) == ContactOf(c)
  {
    ReadyContact(c, now);
    hide Core.Ready, Core.Choose, Core.RepeatStillMakesSense, Core.TakeStop;
  }

  lemma LinkUpContact(c: Core)
    ensures ContactOf(c.LinkUp())
      == ContactOf(c).(valid := true, link := if c.pause.requested then c.door.link else Registered)
  {
  }

  lemma PausedContact(c: Core)
    ensures ContactOf(c.PausedPoll()) == ContactOf(c).(valid := true, link := Paused)
  {
  }

  lemma RideContact(m: Model, now: Millis)
    ensures ContactOf(m.RideAlong(now).core) == ContactOf(m.core.LinkUp())
  {
    hide CommandValues, Ident.Asks, Ident.GivesUp, Ident.Ask, Ident.Start;
  }

  lemma StatusContact(m: Model, now: Millis)
    ensures ContactOf(m.StatusPoll(now).core)
      == ContactOf(m.core).(valid := true, link := if m.core.pause.requested then Paused else Registered)
  {
    PausedContact(m.core);
    PollContact(m.core, now);
    RideContact(m.(core := m.core.Poll(now)), now);
    LinkUpContact(m.core.Poll(now));
    hide Core.Poll, Core.PausedPoll, Model.RideAlong, Core.LinkUp;
  }

  lemma OtherShapeContact(m: Model, now: Millis, readCnt: nat, writeCnt: nat, command: Byte)
    requires !(writeCnt == 2 && readCnt == 8 && command == 0x03)
    ensures ContactOf(m.Hook(now, readCnt, writeCnt, command).core) == ContactOf(m.core.LinkUp())
  {
    hide Model.StatusPoll, Elapsed, Model.NoteShape;
    NoteContact(m, now, readCnt, writeCnt);
  }

  lemma NoteContact(m: Model, now: Millis, readCnt: nat, writeCnt: nat)
    ensures var d := m.NoteShape(now, readCnt, writeCnt).core; d == m.core.(log := d.log)
  {
    hide Elapsed;
  }

  lemma HookContact(m: Model, now: Millis, readCnt: nat, writeCnt: nat, command: Byte)
    ensures ContactOf(m.Hook(now, readCnt, writeCnt, command).core) ==
      (if m.core.pause.requested && writeCnt == 2 && readCnt == 8 && command == 0x03
       then ContactOf(m.core).(valid := true, link := Paused)
       else ContactOf(m.core).(valid := true, link := if m.core.pause.requested then m.core.door.link else Registered))
  {
    if writeCnt == 2 && readCnt == 8 && command == 0x03 {
      StatusContact(m, now);
      hide Model.StatusPoll;
    } else {
      OtherShapeContact(m, now, readCnt, writeCnt, command);
      LinkUpContact(m.core);
      hide Model.Hook, Core.LinkUp;
    }
  }

  /** The transfer as the registers of the write show it. */
  predicate Names(words: seq<Word>) {
    && |words| >= 3 && words[0] % 0x100 == 0x04 && words[1] == 0x1900 && words[2] / 0x100 == 0x02
  }

  lemma AppliedContact(m: Model, now: Millis, words: seq<Word>)
    requires 1 <= |words| <= 9
    ensures ContactOf(m.Applied(now, words).core)
      == ContactOf(m.core).(confirmed := m.core.pause.confirmed || Names(words))
  {
    hide OrWord, Ident.Receive, Ident.Keeps, Ident.KeepsFirmware, Ident.KeepsSecondHalf;
  }

  lemma ExchangeContact(m: Model, now: Millis, readCnt: nat, words: seq<Word>)
    requires 1 <= |words| <= 9
    ensures ContactOf(m.Exchange(now, readCnt, words).core) ==
      Contact(true,
              if !m.core.pause.requested then Registered
              else if readCnt == 8 && |words| == 2 && words[0] % 0x100 == 0x03 then Paused
              else m.core.door.link,
              m.core.pause.requested, m.core.pause.confirmed || Names(words), m.core.lastFrameOn)
  {
    var counterByte, command := words[0] / 0x100, words[0] % 0x100;
    var a := m.(core := m.core.SyncCounter(counterByte, command).ForgetSent());
    SyncContact(m.core, counterByte, command);
    HookContact(a, now, readCnt, |words|, command);
    AppliedContact(a.Hook(now, readCnt, |words|, command), now, words);
    hide Core.SyncCounter, Model.Hook, Model.Applied, Names;
  }

  lemma PositionContact(c: Core, val: Word)
    ensures ContactOf(c.ReportPosition(val)) == ContactOf(c)
  {
  }

  lemma StateContact(c: Core, val: Word)
    ensures ContactOf(c.CountState(val).ShowState(val)) == ContactOf(c)
  {
    hide Translate;
  }

  lemma FaultContact(c: Core, val: Word)
    ensures ContactOf(c.ReportFault(val)) == ContactOf(c)
  {
  }

  lemma LightContact(c: Core, val: Word)
    ensures ContactOf(c.ReportLight(val)) == ContactOf(c)
  {
  }

  lemma BcastContact(c: Core, i: nat, val: Word)
    requires i < 9
    ensures ContactOf(c.WriteBcast(i, val)) == ContactOf(c)
  {
    PositionContact(c, val);
    StateContact(c, val);
    FaultContact(c, val);
    LightContact(c.ReportFault(val), val);
    hide Core.ReportPosition, Core.CountState, Core.ShowState, Core.ReportFault, Core.ReportLight;
  }

  lemma {:induction false} WritesContact(c: Core, words: seq<Word>, i: nat)
    requires i <= |words| <= 9
    ensures ContactOf(c.WriteFrom(words, i)) == ContactOf(c)
    decreases |words| - i
  {
    hide Core.WriteBcast, ContactOf;
    if i < |words| {
      BcastContact(c, i, words[i]);
      WritesContact(c.WriteBcast(i, words[i]), words, i + 1);
    }
  }

  lemma TargetContact(c: Core, now: Millis)
    ensures ContactOf(c.CheckGotoTarget(now)) == ContactOf(c)
  {
  }

  lemma ReportContact(c: Core, now: Millis, words: seq<Word>)
    requires |words| <= 9
    ensures ContactOf(c.Report(now, words)) == ContactOf(c.LinkUp())
  {
    WritesContact(c.LinkUp(), words, 0);
    TargetContact(c.LinkUp().WriteFrom(words, 0), now);
    hide Core.LinkUp, Core.WriteFrom, Core.CheckGotoTarget, ContactOf;
  }

  lemma HeardContact(c: Core, now: Millis)
    ensures ContactOf(c.Heard(now)) == ContactOf(c).(
      heardOn := Kept(now), link := if c.door.link == NeverSeen then Enumerating else c.door.link)
  {
  }

  lemma ConfirmsIs(raw: seq<Byte>)
    requires Answerable(raw)
    ensures var words := Registers(raw, 11, Rd16(raw, 8));
      && 1 <= |words| <= 9 && words[0] % 0x100 == raw[12] && words[0] / 0x100 == raw[11]
      && (Names(words) <==> Confirms(Frame(raw)))
  {
    hide Validate;
    var words := Registers(raw, 11, Rd16(raw, 8));
    assert words[0] == Rd16(raw, 11);
    if |words| >= 3 {
      assert words[1] == Rd16(raw, 13) && words[2] == Rd16(raw, 15);
    }
  }

  /** What a frame makes of it. */
  function FrameContact(a: Contact, now: Millis, act: Act): Contact
    requires act.Frame?
  {
    if !IsHeard(act) then a
    else
      var heard := if a.link == NeverSeen then Enumerating else a.link;
      Contact(a.valid || Serves(act),
              if Serves(act) && !a.pausing then Registered else if IsStatusPoll(act) then Paused else heard,
              a.pausing, a.confirmed || Confirms(act), Kept(now))
  }

  lemma AnsweredContact(m: Model, now: Millis, raw: seq<Byte>)
    requires Answerable(raw)
    ensures ContactOf(m.OnFrame(now, raw).0.core) == FrameContact(ContactOf(m.core), now, Frame(raw))
  {
    hide Validate, Model.Exchange, Core.Heard, Model.AnswerTo, CountsAgree, Names, Confirms, Applies;
    AnswerableIsChecked(raw);
    ConfirmsIs(raw);
    HeardContact(m.core, now);
    ExchangeContact(m.(core := m.core.Heard(now)), now, Rd16(raw, 4), Registers(raw, 11, Rd16(raw, 8)));
  }

  lemma ReportedContact(m: Model, now: Millis, raw: seq<Byte>)
    requires Applies(raw)
    ensures ContactOf(m.OnFrame(now, raw).0.core) == FrameContact(ContactOf(m.core), now, Frame(raw))
  {
    var h := m.(core := m.core.Heard(now));
    HeardContact(m.core, now);
    AppliesAlike(h, now, raw);
    LinkUpContact(h.core);
    ReportContact(h.core, now, Registers(raw, 7, Rd16(raw, 4)));
    hide Validate, Core.Heard, ReportAgrees, Core.Report, Finished, Core.LinkUp, Model.Broadcast, Model.ReadWrite;
  }

  lemma OtherContact(m: Model, now: Millis, raw: seq<Byte>)
    requires !Answerable(raw) && !Applies(raw)
    ensures ContactOf(m.OnFrame(now, raw).0.core) == FrameContact(ContactOf(m.core), now, Frame(raw))
  {
    hide Validate, Model.Exchange, Core.Heard, CountsAgree, ReportAgrees, Core.Report, Finished;
    HeardContact(m.core, now);
    if Accepted(raw) && raw[0] != 0 && raw[1] == 0x17 {
      AnswerableIsChecked(raw);
    }
  }

  /** What a step makes of it; `silent` says that a look at the bus found silence. */
  function StepsTo(a: Contact, now: Millis, act: Act, silent: bool): Contact {
    match act
    case Frame(_) => FrameContact(a, now, act)
    case Call(input) =>
      if input == RequestPause then a.(pausing := true, confirmed := false)
      else if input == EndPause then a.(pausing := false)
      else a
    case Watchdog => if silent then a.(valid := false, link := Silent) else a
    case Publish => a
  }

  lemma CallContact(c: Core, now: Millis, input: Input)
    requires IsCall(input)
    ensures ContactOf(Next(c, now, input)) == StepsTo(ContactOf(c), now, Call(input), false)
  {
  }

  lemma SilenceContact(c: Core, now: Millis)
    ensures c.Gone(now) <==> c.lastFrameOn != 0 && Elapsed(now, c.lastFrameOn) > 20000
    ensures ContactOf(c.CheckSilence(now)) == StepsTo(ContactOf(c), now, Watchdog, c.Gone(now))
  {
    hide Elapsed;
  }

  lemma PublishContact(m: Model)
    ensures ContactOf(m.PublishIdentity().core) == ContactOf(m.core)
  {
    hide Cut;
  }

  lemma ActContact(m: Model, now: Millis, act: Act)
    requires Allowed(act)
    ensures ContactOf(After(m, now, act).0.core)
      == StepsTo(ContactOf(m.core), now, act, m.core.lastFrameOn != 0 && Elapsed(now, m.core.lastFrameOn) > 20000)
  {
    hide Elapsed, FrameContact, Model.OnFrame, Next, Core.CheckSilence, Core.Gone, Model.PublishIdentity, Answerable,
      Applies;
    match act
    case Frame(raw) =>
      if Answerable(raw) {
        AnsweredContact(m, now, raw);
      } else if Applies(raw) {
        ReportedContact(m, now, raw);
      } else {
        OtherContact(m, now, raw);
      }
    case Call(input) => CallContact(m.core, now, input);
    case Watchdog => SilenceContact(m.core, now);
    case Publish => PublishContact(m);
  }

  // ----- whole runs -----

  /** The contact, from the history alone. */
  ghost function ContactAt(t: Recording, k: nat): Contact
    requires IsRecording(t) && k < |t.models|
  {
    Contact(Up(t, k), LinkBy(t, k), Pausing(t, k), Confirmed(t, k),
            if LastHeard(t, k) < 0 then 0 else Kept(Shown(t.times[LastHeard(t, k)])))
  }

  lemma ServedIsHeard(act: Act)
    ensures Serves(act) ==> IsHeard(act)
    ensures IsStatusPoll(act) ==> Serves(act)
    ensures Confirms(act) ==> Serves(act)
  {
    hide Validate;
    if act.Frame? && Answerable(act.raw) {
      AnswerableIsChecked(act.raw);
    }
  }

  lemma HistorySteps(t: Recording, k: nat)
    requires IsRecording(t) && k < |t.acts| == |t.models| - 1
    ensures var a := ContactAt(t, k);
      ContactAt(t, k + 1) == StepsTo(a, Shown(t.times[k]), t.acts[k],
                                     a.heardOn != 0 && Elapsed(Shown(t.times[k]), a.heardOn) > 20000)
  {
    hide IsRecording, Elapsed, IsHeard, Serves, IsStatusPoll, Confirms;
    ServedIsHeard(t.acts[k]);
    OnlyFrames(t.acts[k]);
  }

  lemma OnlyFrames(act: Act)
    ensures IsHeard(act) || Serves(act) || IsStatusPoll(act) || Confirms(act) ==> act.Frame?
  {
    hide Answerable, Applies, Validate;
  }

  /**
   * In every run of bytes and calls: somebody is taken to listen exactly while a
   * frame has been served since silence was last found, the link is shown as what the
   * history makes it, and a pause counts as confirmed exactly where the drive has
   * named us since it was requested.
   */
  lemma {:induction false} ContactIs(t: Recording, k: nat)
    requires IsRecording(t) && k < |t.models|
    ensures ContactOf(t.models[k].core) == ContactAt(t, k)
  {
    hide ContactOf, ContactAt, StepsTo, After, Elapsed, LastHeard, Allowed;
    if k == 0 {
      StartsApart(t);
    } else {
      ContactIs(t, k - 1);
      assert Follows(t, k - 1);
      HistorySteps(t, k - 1);
      ActContact(t.models[k - 1], Shown(t.times[k - 1]), t.acts[k - 1]);
      HeardOnIs(t, k - 1);
    }
  }

  lemma StartsApart(t: Recording)
    requires IsRecording(t)
    ensures ContactOf(t.models[0].core) == ContactAt(t, 0)
  {
    hide Follows;
  }

  lemma HeardOnIs(t: Recording, k: nat)
    requires IsRecording(t) && k < |t.models| && ContactOf(t.models[k].core) == ContactAt(t, k)
    ensures t.models[k].core.lastFrameOn == ContactAt(t, k).heardOn
  {
    hide IsRecording, Up, LinkBy, Pausing, Confirmed;
  }

  // ----- which calls are taken -----

  /** The command that asks for this place, seen from where the door was last reported; none where it is there. */
  function Towards(percent: int, position: nat): Option<Command> {
    if percent <= 5 then Some(Close)
    else if percent >= 95 then Some(Open)
    else if position < 2 * percent then Some(Open)
    else if position > 2 * percent then Some(Close)
    else None
  }

  /** What a call puts into the queue where somebody listens. */
  function Asks(input: Input, free: bool, position: nat): Option<Command> {
    match input
    case Press(cond, cmd) => if cond && free then Some(cmd) else None
    case GoTo(percent) => if free then Towards(percent, position) else None
    case StopPress => Some(Stop)
    case _ => None
  }

  lemma FillsAsAsked(c: Core, input: Input)
    requires IsCall(input) && c.caps.hasPosition
    ensures Filled(c, input) ==
      (if c.door.valid && !c.pause.requested then Asks(input, c.slot.next == NoCommand, c.door.current) else None)
  {
  }

  lemma MetAtCall(t: Recording, k: nat)
    requires IsRecording(t) && k < |t.acts| && t.acts[k].Call?
    ensures IsCall(t.acts[k].input) && InputIn(t, k) == t.acts[k].input && StateIn(t, k) == t.models[k].core
  {
    assert Follows(t, k);
    hide After;
  }

  /** What the call at step `k` puts into the queue, by what waits there and by where the door was last reported. */
  ghost function Queues(t: Recording, k: nat): Option<Command>
    requires IsRecording(t) && IsRun(RunOf(t)) && k < |t.acts| && t.acts[k].Call?
  {
    Asks(t.acts[k].input, SendRuns.Waiting(RunOf(t), k) == NoCommand, ShownRuns.FaceAt(RunOf(t), k).current)
  }

  /**
   * A call is taken if and only if somebody listens, no pause is requested and, but
   * for a stop, nothing waits; and what it asks for is decided by where the drive
   * last reported the door.
   */
  lemma {:induction false} CallIsTakenIff(t: Recording, k: nat)
    requires IsRecording(t) && IsRun(RunOf(t)) && k < |t.acts| && t.acts[k].Call?
    ensures FilledAt(RunOf(t), k) == (if Up(t, k) && !Pausing(t, k) then Queues(t, k) else None)
  {
    hide IsRun, IsRecording, Up, Pausing, ShownRuns.FaceAt, SendRuns.Waiting, Asks, Filled, StateIn, InputIn, IsCall;
    AskRuns.TapeShape(t);
    AskRuns.CapsIn(t, k);
    MetAtCall(t, k);
    ContactIs(t, k);
    SendRuns.QueueIs(RunOf(t), k);
    ShownRuns.ShownIsReported(RunOf(t), k);
    FilledIs(RunOf(t), k);
    FillsAsAsked(t.models[k].core, t.acts[k].input);
  }

  /** What the caller gets back. */
  predicate Returns(c: Core, input: Input) {
    match input
    case Press(cond, _) => c.Takes(cond)
    case GoTo(percent) => c.TakesPosition(percent)
    case StopPress => c.Listening()
    case _ => true
  }

  /** A call that asks for something of a door that was last reported there. */
  predicate Needs(input: Input, position: nat) {
    match input
    case Press(cond, _) => cond
    case GoTo(percent) => Towards(percent, position).Some?
    case StopPress => true
    case _ => false
  }

  lemma ReturnsAsTaken(c: Core, input: Input)
    requires IsCall(input) && c.caps.hasPosition
    ensures Returns(c, input) <==> (Needs(input, c.door.current) ==> Filled(c, input).Some?)
  {
  }

  /** A caller is told no if and only if the call asked for something and was not taken: no refusal goes unsaid. */
  lemma {:induction false} CallersAreTold(t: Recording, k: nat)
    requires IsRecording(t) && IsRun(RunOf(t)) && k < |t.acts| && t.acts[k].Call?
    ensures !Returns(t.models[k].core, t.acts[k].input) <==>
      (Needs(t.acts[k].input, ShownRuns.FaceAt(RunOf(t), k).current) && FilledAt(RunOf(t), k) == None)
  {
    hide IsRun, IsRecording, ShownRuns.FaceAt, Needs, Returns, Filled, StateIn, InputIn, IsCall;
    AskRuns.TapeShape(t);
    AskRuns.CapsIn(t, k);
    MetAtCall(t, k);
    ShownRuns.ShownIsReported(RunOf(t), k);
    FilledIs(RunOf(t), k);
    ReturnsAsTaken(t.models[k].core, t.acts[k].input);
  }

  /** What is noted of a call: a refusal, and why. */
  function Notes(input: Input, listening: bool, free: bool, position: nat): seq<Event> {
    match input
    case Press(cond, cmd) => if cond then Refusal(cmd, listening, free) else []
    case GoTo(percent) =>
      (match Towards(percent, position)
       case None => []
       case Some(cmd) => Refusal(cmd, listening, free))
    case StopPress => Refusal(Stop, listening, true)
    case _ => []
  }

  function Refusal(cmd: Command, listening: bool, free: bool): seq<Event> {
    if !listening then [CommandRefusedNoLink(cmd)] else if !free then [CommandRefusedSlotBusy(cmd)] else []
  }

  lemma NotesAsRefused(c: Core, now: Millis, input: Input)
    requires IsCall(input) && c.caps.hasPosition
    ensures Next(c, now, input).log
      == c.log + Notes(input, c.door.valid && !c.pause.requested, c.slot.next == NoCommand, c.door.current)
  {
  }

  /** A refusal is noted with its reason, and nothing else is noted of a call. */
  lemma {:induction false} CallIsNoted(t: Recording, k: nat)
    requires IsRecording(t) && IsRun(RunOf(t)) && k < |t.acts| && t.acts[k].Call?
    ensures |t.models| == |t.acts| + 1
    ensures t.models[k + 1].core.log
      == t.models[k].core.log + Notes(t.acts[k].input, Up(t, k) && !Pausing(t, k),
           SendRuns.Waiting(RunOf(t), k) == NoCommand, ShownRuns.FaceAt(RunOf(t), k).current)
  {
    hide IsRun, IsRecording, Up, Pausing, ShownRuns.FaceAt, SendRuns.Waiting, Notes, StateIn, InputIn, IsCall, Next;
    AskRuns.TapeShape(t);
    AskRuns.CapsIn(t, k);
    MetAtCall(t, k);
    ContactIs(t, k);
    SendRuns.QueueIs(RunOf(t), k);
    ShownRuns.ShownIsReported(RunOf(t), k);
    CallLeaves(t, k);
    NotesAsRefused(t.models[k].core, Shown(t.times[k]), t.acts[k].input);
  }

  lemma CallLeaves(t: Recording, k: nat)
    requires IsRecording(t) && k < |t.acts| && t.acts[k].Call? && |t.models| == |t.acts| + 1
    ensures Possible(t.acts[k].input)
    ensures t.models[k + 1].core == Next(t.models[k].core, Shown(t.times[k]), t.acts[k].input)
  {
    assert Follows(t, k);
    hide Next;
  }

  lemma FilledIs(r: Run, k: nat)
    requires IsRun(r) && k < |r.inputs|
    ensures |r.states| == |r.inputs| + 1 && Possible(r.inputs[k]) && FilledAt(r, k) == Filled(r.states[k], r.inputs[k])
  {
    assert IsStep(r, k);
    hide Filled, Next;
  }
}
